/** The receive ring of a channel: quic/model/circularbuffer.cc. */
module Ring {
  import opened Bytes

  const CAPACITY: nat := 10240

  /** x modulo m, for the positions that arise here: never as far as twice round. */
  function Wrap(x: nat, m: nat): (w: nat)
    requires x < 2 * m
    ensures w < m
  {
    if x < m then x else x - m
  }

  lemma WrapIsMod(x: nat, m: nat)
    requires 0 < m && x < 2 * m
    ensures x % m == Wrap(x, m)
  {
  }

  /** What a reader can observe of a ring: the queued bytes and where the next one lies. */
  datatype View = View(capacity: nat, readPos: nat, contents: seq<Byte>)
  {
    predicate Ok() {
      0 < capacity && readPos < capacity && |contents| <= capacity
    }

    predicate Fits(n: nat) {
      n + |contents| <= capacity
    }

    function Write(data: seq<Byte>): View {
      this.(contents := contents + data)
    }

    function Read(n: nat): View
      requires Ok() && n <= |contents|
    {
      this.(contents := contents[n..], readPos := Wrap(readPos + n, capacity))
    }

    /** The two bytes a 16-bit load at readPos touches both lie inside the buffer. */
    predicate PeekInBounds() {
      readPos + 1 < capacity
    }
  }

  /** n bytes starting at start, going round the end of b. */
  function Window(b: seq<Byte>, start: nat, n: nat): (w: seq<Byte>)
    requires start < |b| && n <= |b|
    ensures |w| == n
    ensures forall i :: 0 <= i < n ==> w[i] == if start + i < |b| then b[start + i] else b[start + i - |b|]
  {
    if start + n <= |b| then b[start..start + n] else b[start..] + b[..start + n - |b|]
  }

  /** b after data has been laid down from at on, going round the end. */
  function Overwrite(b: seq<Byte>, at: nat, data: seq<Byte>): (r: seq<Byte>)
    requires at < |b| && |data| <= |b|
    ensures |r| == |b|
  {
    if at + |data| <= |b| then b[..at] + data + b[at + |data|..]
    else data[|b| - at..] + b[at + |data| - |b|..at] + data[..|b| - at]
  }

  lemma OverwriteAt(b: seq<Byte>, at: nat, data: seq<Byte>, i: nat)
    requires at < |b| && |data| <= |b| && i < |b|
    ensures Overwrite(b, at, data)[Wrap(at + i, |b|)] == if i < |data| then data[i] else b[Wrap(at + i, |b|)]
  {
  }

  /** Byte i of the window after n queued bytes have been followed by data. */
  lemma GrownAt(b: seq<Byte>, start: nat, n: nat, data: seq<Byte>, i: nat)
    requires start < |b| && n + |data| <= |b| && i < n + |data|
    ensures Overwrite(b, Wrap(start + n, |b|), data)[Wrap(start + i, |b|)] ==
            if i < n then b[Wrap(start + i, |b|)] else data[i - n]
  {
    hide Overwrite;
    OverwriteAt(b, Wrap(start + n, |b|), data, if i < n then |b| - n + i else i - n);
  }

  lemma WindowAt(b: seq<Byte>, start: nat, n: nat, i: nat)
    requires start < |b| && i < n <= |b|
    ensures Window(b, start, n)[i] == b[Wrap(start + i, |b|)]
  {
    hide Window;
  }

  /** Writing behind the queued bytes leaves them in place and queues the new ones after them. */
  lemma WindowGrows(b: seq<Byte>, start: nat, n: nat, data: seq<Byte>)
    requires start < |b| && n + |data| <= |b|
    ensures Window(Overwrite(b, Wrap(start + n, |b|), data), start, n + |data|) == Window(b, start, n) + data
  {
    hide Overwrite, Window, Wrap;
    var r := Overwrite(b, Wrap(start + n, |b|), data);
    forall i | 0 <= i < n + |data|
      ensures Window(r, start, n + |data|)[i] == (Window(b, start, n) + data)[i]
    {
      WindowAt(r, start, n + |data|, i);
      GrownAt(b, start, n, data, i);
      if i < n {
        WindowAt(b, start, n, i);
      }
    }
  }

  lemma WindowShrinks(b: seq<Byte>, start: nat, n: nat, m: nat)
    requires start < |b| && m <= n <= |b|
    ensures Window(b, start, n)[..m] == Window(b, start, m)
    ensures Window(b, start, n)[m..] == Window(b, Wrap(start + m, |b|), n - m)
  {
  }

  lemma OverwriteParts(b: seq<Byte>, at: nat, data: seq<Byte>)
    requires at < |b| && |data| <= |b|
    ensures Overwrite(b, at, data) ==
            if at + |data| <= |b| then Patch(b, at, data)
            else Patch(Patch(b, at, data[..|b| - at]), 0, data[|b| - at..])
  {
  }

  /** The two memcpy calls of a write: as much as fits before the end, the rest at the start. */
  method CopyAround(buffer: array<Byte>, at: nat, data: array<Byte>, bytes: nat)
    requires data != buffer && bytes <= data.Length && at < buffer.Length && bytes <= buffer.Length
    modifies buffer
    ensures buffer[..] == Overwrite(old(buffer[..]), at, data[..bytes])
  {
    hide Overwrite, Patch;
    OverwriteParts(buffer[..], at, data[..bytes]);
    var firstPart := buffer.Length - at;
    if bytes > firstPart {
      assert data[..bytes][..firstPart] == data[..firstPart] && data[..bytes][firstPart..] == data[firstPart..bytes];
      CopyInto(buffer, at, data[..firstPart]);
      CopyInto(buffer, 0, data[firstPart..bytes]);
    } else {
      CopyInto(buffer, at, data[..bytes]);
    }
  }

  /** The two memcpy calls of a read. */
  method CopyOut(buffer: array<Byte>, at: nat, bytes: nat, dest: array<Byte>)
    requires dest != buffer && bytes <= dest.Length && at < buffer.Length && bytes <= buffer.Length
    modifies dest
    ensures dest[..] == Window(buffer[..], at, bytes) + old(dest[bytes..])
  {
    var firstPart := buffer.Length - at;
    if bytes > firstPart {
      CopyInto(dest, 0, buffer[at..]);
      assert dest[..firstPart] == buffer[at..];
      CopyInto(dest, firstPart, buffer[..bytes - firstPart]);
    } else {
      CopyInto(dest, 0, buffer[at..at + bytes]);
    }
  }

  class CircularBuffer {
    const capacity: nat
    const buffer: array<Byte>
    var size: nat
    var readPos: nat
    var writePos: nat

    ghost predicate Valid()
      reads this
    {
      && 0 < capacity == buffer.Length
      && size <= capacity
      && readPos < capacity
      && writePos == Wrap(readPos + size, capacity)
    }

    /** The queued bytes, oldest first. */
    ghost function Contents(): (s: seq<Byte>)
      reads this, buffer
      requires Valid()
      ensures |s| == size
    {
      Window(buffer[..], readPos, size)
    }

    ghost function AsView(): (v: View)
      reads this, buffer
      requires Valid()
      ensures v.Ok()
    {
      View(capacity, readPos, Contents())
    }

    constructor ()
      ensures Valid() && fresh(buffer)
      ensures AsView() == View(CAPACITY, 0, [])
    {
      capacity := CAPACITY;
      buffer := new Byte[CAPACITY];
      size, readPos, writePos := 0, 0, 0;
    }

    /** The assertion of the original, that the bytes fit, is the precondition. */
    method Write(data: array<Byte>, bytes: nat) returns (n: nat)
      requires Valid() && data != buffer && bytes <= data.Length
      requires AsView().Fits(bytes)
      modifies this`size, this`writePos, buffer
      ensures Valid() && n == bytes
      ensures AsView() == old(AsView()).Write(data[..bytes])
    {
      hide Window, Overwrite;
      WindowGrows(buffer[..], readPos, size, data[..bytes]);
      CopyAround(buffer, writePos, data, bytes);
      WrapIsMod(writePos + bytes, capacity);
      writePos := (writePos + bytes) % capacity;
      size := size + bytes;
      n := bytes;
    }

    method Read(dest: array<Byte>, wanted: nat) returns (n: nat)
      requires Valid() && dest != buffer
      requires wanted <= dest.Length || size <= dest.Length
      modifies this`size, this`readPos, dest
      ensures Valid()
      ensures n == if wanted <= old(size) then wanted else old(size)
      ensures AsView() == old(AsView()).Read(n)
      ensures dest[..] == old(Contents())[..n] + old(dest[n..])
    {
      hide Window;
      n := wanted;
      if n > size {
        n := size;
      }
      WindowShrinks(buffer[..], readPos, size, n);
      CopyOut(buffer, readPos, n, dest);
      if n > capacity - readPos {
        readPos := n - (capacity - readPos);
      } else {
        WrapIsMod(readPos + n, capacity);
        readPos := (readPos + n) % capacity;
      }
      size := size - n;
    }

    method GetSize() returns (n: nat)
      requires Valid()
      ensures n == |Contents()|
    {
      n := size;
    }

    /** A plain 16-bit load: it does not go round the end, so the caller must know it need not. */
    method GetHeadUint16() returns (dataLen: nat)
      requires Valid() && AsView().PeekInBounds()
      requires 2 <= size && FromLe(Contents()[..2]) <= capacity
      ensures dataLen == FromLe(Contents()[..2])
    {
      dataLen := FromLe(buffer[readPos..readPos + 2]);
      assert buffer[readPos..readPos + 2] == Contents()[..2];
    }
  }
}
