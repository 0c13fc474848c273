/** The frame format and its writers and readers: innetwork-train/utils/utils.cc. */
module Codec {
  import opened Bytes

  const COLON: Byte := 58
  /** The ASCII codes of "REQUESTV" and "RESPONSEV". */
  const REQUESTV: seq<Byte> := [82, 69, 81, 85, 69, 83, 84, 86]
  const RESPONSEV: seq<Byte> := [82, 69, 83, 80, 79, 78, 83, 69, 86]

  datatype Frame =
    | Request(size: nat)
    | Response(offset: nat, data: seq<Word>)

  /** Total length, key, colon, offset. */
  function Head(header: seq<Byte>, total: nat, offset: nat): (h: seq<Byte>)
    ensures |h| == |header| + 5
  {
    Le(total, 2) + header + [COLON] + Le(offset, 2)
  }

  /** A head and its payload. */
  function Packet(header: seq<Byte>, offset: nat, payload: seq<Byte>): (p: seq<Byte>)
    ensures |p| == |header| + 5 + |payload|
  {
    Head(header, |header| + 5 + |payload|, offset) + payload
  }

  function Wire(f: Frame): (w: seq<Byte>)
    ensures |w| == if f.Request? then 15 else 14 + 8 * |f.data|
  {
    match f
    case Request(size) => Packet(REQUESTV, 0, Le(size, 2))
    case Response(offset, data) => Packet(RESPONSEV, offset, WordsLe(data))
  }

  /** Every field of the frame fits its slot, so nothing is lost on the wire. */
  predicate Representable(f: Frame) {
    match f
    case Request(size) => size < 0x1_0000
    case Response(offset, data) => offset < 0x1_0000 && 14 + 8 * |data| < 0x1_0000
  }

  lemma TwoBytes(v: nat)
    requires v < 0x1_0000
    ensures Le(v, 2) == [v % 256, v / 256]
  {
    assert Le(v / 256, 1) == [v / 256 % 256] + Le(v / 256 / 256, 0);
  }

  /** A request on the wire, byte by byte: its length, REQUESTV and a colon, offset 0, the size. */
  lemma RequestLayout(size: nat)
    requires size < 0x1_0000
    ensures Wire(Request(size)) ==
            [15, 0, 82, 69, 81, 85, 69, 83, 84, 86, 58, 0, 0, size % 256, size / 256]
  {
    TwoBytes(15);
    TwoBytes(0);
    TwoBytes(size);
    hide Le;
  }

  /** A response: its length, RESPONSEV and a colon, the offset, and word after word, each from its least
      significant byte on. */
  lemma ResponseLayout(offset: nat, data: seq<Word>)
    requires Representable(Response(offset, data))
    ensures var w, n := Wire(Response(offset, data)), 14 + 8 * |data|;
      && |w| == n
      && w[..14] == [n % 256, n / 256, 82, 69, 83, 80, 79, 78, 83, 69, 86, 58, offset % 256, offset / 256]
      && forall i, b :: 0 <= i < |data| && 0 <= b < 8 ==> w[14..][8 * i..8 * i + 8][b] == data[i] / Pow256(b) % 256
  {
    var w, n := Wire(Response(offset, data)), 14 + 8 * |data|;
    TwoBytes(n);
    TwoBytes(offset);
    assert w[14..] == WordsLe(data);
    hide Le, WordsLe, Pow256;
    forall i, b | 0 <= i < |data| && 0 <= b < 8
      ensures w[14..][8 * i..8 * i + 8][b] == data[i] / Pow256(b) % 256
    {
      WordsLeAt(data, i);
      LeDigit(data[i], 8, b);
    }
  }

  /** The three memcpy calls both writers begin with: length, key and colon, offset. */
  method WriteHead(buffer: array<Byte>, header: seq<Byte>, total: nat, offset: nat)
    requires |header| + 5 <= buffer.Length
    modifies buffer
    ensures buffer[..|header| + 5] == Head(header, total, offset)
    ensures buffer[|header| + 5..] == old(buffer[|header| + 5..])
  {
    var newheader := header + [COLON];
    CopyInto(buffer, 0, Le(total, 2));
    CopyInto(buffer, 2, newheader);
    CopyInto(buffer, 2 + |newheader|, Le(offset, 2));
  }

  method CreateRequestV(buffer: array<Byte>, header: seq<Byte>, size: nat) returns (bufferSize: nat)
    requires |header| + 7 <= buffer.Length && |header| + 7 < 0x1_0000
    modifies buffer
    ensures bufferSize == |header| + 7
    ensures buffer[..bufferSize] == Packet(header, 0, Le(size, 2))
    ensures buffer[bufferSize..] == old(buffer[bufferSize..])
  {
    var newheader := header + [COLON];
    bufferSize := |newheader| + 2 + 2 + 2;
    WriteHead(buffer, header, bufferSize, 0);
    CopyInto(buffer, 4 + |newheader|, Le(size, 2));
    assert buffer[..bufferSize] == Packet(header, 0, Le(size, 2));
  }

  /** The index CreatResponseV takes for the last element of the chunk at offset. */
  function LastIndex(vSize: nat, offset: nat, k: nat): int {
    if vSize - offset < k then vSize else offset + k - 1
  }

  /** A short last chunk runs one element past the vector; a full one never does. */
  lemma ChunkStaysInsideIff(vSize: nat, offset: nat, k: nat)
    requires 0 < k && offset < vSize
    ensures LastIndex(vSize, offset, k) < vSize <==> offset + k <= vSize
    ensures offset + k > vSize ==> LastIndex(vSize, offset, k) - offset + 1 == vSize - offset + 1
  {
  }

  /** The value loop of CreatResponseV: n words of vec, from offset on, laid down at at. */
  method WriteWords(buffer: array<Byte>, at: nat, vec: seq<Word>, offset: nat, n: nat)
    requires offset + n <= |vec| && at + 8 * n <= buffer.Length
    modifies buffer
    ensures buffer[..at] == old(buffer[..at])
    ensures buffer[at..at + 8 * n] == WordsLe(vec[offset..offset + n])
    ensures buffer[at + 8 * n..] == old(buffer[at + 8 * n..])
  {
    ghost var first, end := buffer[..], at + 8 * n;
    var i := 0;
    assert vec[offset..offset] == [];
    hide Le, WordsLe, Patch;
    while i < n
      invariant 0 <= i <= n
      invariant buffer[..][..at] == first[..at] && buffer[..][end..] == first[end..]
      invariant buffer[..][at..at + 8 * i] == WordsLe(vec[offset..offset + i])
    {
      var to := at + i * 8;
      PatchSlices(buffer[..], to, Le(vec[offset + i], 8), at, end);
      CopyInto(buffer, to, Le(vec[offset + i], 8));
      WordsLeSnoc(vec, offset, i);
      i := i + 1;
    }
  }

  method CreatResponseV(buffer: array<Byte>, header: seq<Byte>, vec: seq<Word>, offset: nat, k: nat)
    returns (bufferSize: nat)
    requires 0 < k && offset + k <= |vec| < 0x1_0000
    requires |header| + 5 + 8 * k <= buffer.Length && |header| + 5 + 8 * k < 0x1_0000
    modifies buffer
    ensures bufferSize == |header| + 5 + 8 * k
    ensures buffer[..bufferSize] == Packet(header, offset, WordsLe(vec[offset..offset + k]))
    ensures buffer[bufferSize..] == old(buffer[bufferSize..])
  {
    hide Le, WordsLe;
    var newheader := header + [COLON];
    var end := LastIndex(|vec|, offset, k);
    var n := end - offset + 1;
    assert n == k;
    var headerOff := 2 + |newheader|;
    var offOff := headerOff + 2;
    bufferSize := offOff + 8 * n;
    WriteHead(buffer, header, bufferSize, offset);
    ghost var mid := buffer[..];
    DropTwice(mid, offOff, 8 * n);
    DropTwice(old(buffer[..]), offOff, 8 * n);
    assert mid[offOff..] == buffer[offOff..];
    assert old(buffer[..])[offOff..] == old(buffer[offOff..]);
    assert buffer[offOff + 8 * n..] == mid[bufferSize..];
    WriteWords(buffer, offOff, vec, offset, n);
    assert buffer[bufferSize..] == mid[bufferSize..];
    assert buffer[..bufferSize] == buffer[..offOff] + buffer[offOff..bufferSize];
  }

  /** Length of the key: up to the first colon at or after position from, or to the end. */
  function KeyLength(b: seq<Byte>, from: nat): (n: nat)
    requires from <= |b|
    ensures n <= |b| - from
    ensures COLON !in b[from..from + n]
    ensures n < |b| - from ==> b[from + n] == COLON
    decreases |b| - from
  {
    if from == |b| || b[from] == COLON then 0
    else
      var rest := KeyLength(b, from + 1);
      assert b[from..from + 1 + rest] == [b[from]] + b[from + 1..from + 1 + rest];
      1 + rest
  }

  lemma KeyLengthIs(b: seq<Byte>, h: seq<Byte>)
    requires |h| + 2 < |b| && b[2..2 + |h|] == h && COLON !in h && b[2 + |h|] == COLON
    ensures KeyLength(b, 2) == |h|
  {
    var n := KeyLength(b, 2);
    assert forall i :: 0 <= i < |h| ==> h[i] == b[2 + i];
    var key := b[2..2 + n];
    assert forall i :: 0 <= i < n ==> key[i] == b[2 + i];
  }

  /** Length of the key the header parser finds: up to the first colon, but not past the frame. */
  function HeaderSpan(b: seq<Byte>): nat
    requires 2 <= |b|
  {
    var dataLen, n := FromLe(b[..2]), KeyLength(b, 2);
    if dataLen < 2 then 0 else if n < dataLen - 2 then n else dataLen - 2
  }

  method PraseHeader(buffer: array<Byte>)
    returns (headerOff: nat, header: seq<Byte>, dataLen: nat, offset: nat)
    requires 2 <= buffer.Length && HeaderSpan(buffer[..]) + 5 <= buffer.Length
    ensures dataLen == FromLe(buffer[..2])
    ensures |header| == HeaderSpan(buffer[..]) && headerOff == |header| + 5
    ensures header == buffer[2..2 + |header|]
    ensures offset == FromLe(buffer[|header| + 3..|header| + 5])
  {
    dataLen := FromLe(buffer[..2]);
    assert buffer[..][..2] == buffer[..2];
    ghost var n := KeyLength(buffer[..], 2);
    assert forall i :: 2 <= i < 2 + n ==> buffer[i] == buffer[..][2..2 + n][i - 2];
    var startOff := 2;
    var len := 0;
    while buffer[startOff + len] != COLON && len < dataLen - startOff
      invariant 0 <= len <= HeaderSpan(buffer[..])
      decreases dataLen - len
    {
      len := len + 1;
    }
    header := buffer[startOff..startOff + len];
    offset := FromLe(buffer[startOff + len + 1..startOff + len + 3]);
    headerOff := startOff + len + 1 + 2;
  }

  method PraseVector(buffer: array<Byte>, start: nat, bufferSize: nat, vec: seq<Word>) returns (r: seq<Word>)
    requires start + bufferSize <= buffer.Length
    requires bufferSize / 8 <= |vec| && bufferSize / 8 < 0x100
    ensures |r| == |vec|
    ensures forall i :: 0 <= i < bufferSize / 8 ==>
              r[i] == FromLe(buffer[start + 8 * i..start + 8 * i + 8])
    ensures r[bufferSize / 8..] == vec[bufferSize / 8..]
  {
    Pow256Facts();
    r := vec;
    var i := 0;
    while i < bufferSize / 8
      invariant 0 <= i <= bufferSize / 8 && |r| == |vec|
      invariant forall j :: 0 <= j < i ==> r[j] == FromLe(buffer[start + 8 * j..start + 8 * j + 8])
      invariant r[i..] == vec[i..]
    {
      var ele := FromLe(buffer[start + i * 8..start + i * 8 + 8]);
      r := r[i := ele];
      i := i + 1;
    }
  }

  method PraseInt16(buffer: array<Byte>, start: nat) returns (size: nat)
    requires start + 2 <= buffer.Length
    ensures size == FromLe(buffer[start..start + 2])
  {
    size := FromLe(buffer[start..start + 2]);
  }

  /** The header parser inverts Packet, whatever bytes follow the packet. */
  lemma PacketParses(b: seq<Byte>, h: seq<Byte>, offset: nat, payload: seq<Byte>)
    requires Packet(h, offset, payload) <= b && COLON !in h
    requires |h| + 5 + |payload| < 0x1_0000 && offset < 0x1_0000
    ensures HeaderSpan(b) == |h| && b[2..2 + |h|] == h
    ensures FromLe(b[..2]) == |h| + 5 + |payload|
    ensures FromLe(b[|h| + 3..|h| + 5]) == offset
    ensures b[|h| + 5..|h| + 5 + |payload|] == payload
  {
    var p := Packet(h, offset, payload);
    assert p == b[..|p|];
    assert b[..2] == Le(|p|, 2);
    U16RoundTrip(|p|);
    assert b[2..2 + |h|] == h;
    assert b[2 + |h|] == COLON;
    KeyLengthIs(b, h);
    SubSlice(b, 0, |p|, |h| + 3, |h| + 5);
    assert p[|h| + 3..|h| + 5] == Le(offset, 2);
    U16RoundTrip(offset);
  }

  lemma WindowSlice(b: seq<Byte>, start: nat, w: seq<Byte>, at: nat)
    requires start + |w| <= |b| && b[start..start + |w|] == w && at + 8 <= |w|
    ensures b[start + at..start + at + 8] == w[at..at + 8]
  {
    SubSlice(b, start, start + |w|, at, at + 8);
  }

  lemma WordParses(b: seq<Byte>, start: nat, d: seq<Word>, w: seq<Byte>, i: nat)
    requires w == WordsLe(d) && i < |d|
    requires start + |w| <= |b| && b[start..start + |w|] == w
    ensures start + 8 * i + 8 <= |b| && FromLe(b[start + 8 * i..start + 8 * i + 8]) == d[i]
  {
    WordAt(d, i);
    var at := 8 * i;
    WindowSlice(b, start, w, at);
    hide *;
    assert b[start + at..start + at + 8] == w[at..at + 8];
  }

  /** Reading word by word inverts WordsLe. */
  lemma WordsParse(b: seq<Byte>, start: nat, d: seq<Word>, r: seq<Word>)
    requires start + 8 * |d| <= |b| && b[start..start + 8 * |d|] == WordsLe(d)
    requires |r| == |d|
    requires forall i :: 0 <= i < |d| ==> r[i] == FromLe(b[start + 8 * i..start + 8 * i + 8])
    ensures r == d
  {
    hide FromLe, WordsLe;
    forall i | 0 <= i < |d|
      ensures r[i] == d[i]
    {
      WordParses(b, start, d, WordsLe(d), i);
    }
  }

  function ReadWords(b: seq<Byte>): (d: seq<Word>)
    ensures |d| == |b| / 8
  {
    Pow256Facts();
    seq(|b| / 8, i requires 0 <= i < |b| / 8 => FromLe(b[8 * i..8 * i + 8]))
  }

  /** The frame in a received byte string, by key; None for an unknown command. */
  function Decode(b: seq<Byte>): Option<Frame> {
    if |b| < 2 then None else
      var n := KeyLength(b, 2);
      if n + 5 > |b| then None else
        var key, offset, payload := b[2..2 + n], FromLe(b[n + 3..n + 5]), b[n + 5..];
        if key == REQUESTV && |payload| >= 2 then Some(Request(FromLe(payload[..2])))
        else if key == RESPONSEV then Some(Response(offset, ReadWords(payload)))
        else None
  }

  lemma PacketDecodes(h: seq<Byte>, offset: nat, payload: seq<Byte>)
    requires COLON !in h && offset < 0x1_0000
    ensures var p := Packet(h, offset, payload);
            && KeyLength(p, 2) == |h| && p[2..2 + |h|] == h
            && FromLe(p[|h| + 3..|h| + 5]) == offset && p[|h| + 5..] == payload
  {
    var p := Packet(h, offset, payload);
    KeyLengthIs(p, h);
    assert p[|h| + 3..|h| + 5] == Le(offset, 2);
    U16RoundTrip(offset);
  }

  /** Decoding inverts encoding. */
  lemma DecodeWire(f: Frame)
    requires Representable(f)
    ensures Decode(Wire(f)) == Some(f)
  {
    match f
    case Request(size) =>
      PacketDecodes(REQUESTV, 0, Le(size, 2));
      U16RoundTrip(size);
      assert Le(size, 2)[..2] == Le(size, 2);
    case Response(offset, data) =>
      PacketDecodes(RESPONSEV, offset, WordsLe(data));
      forall i | 0 <= i < |data|
        ensures ReadWords(WordsLe(data))[i] == data[i]
      {
        WordAt(data, i);
      }
      assert ReadWords(WordsLe(data)) == data;
      assert RESPONSEV != REQUESTV;
  }

  function Images(fs: seq<Frame>): (ws: seq<seq<Byte>>)
    ensures |ws| == |fs|
  {
    seq(|fs|, i requires 0 <= i < |fs| => Wire(fs[i]))
  }

  /** Frames back to back, as a reliable stream carries them. */
  function WireAll(fs: seq<Frame>): (w: seq<Byte>) {
    Flatten(Images(fs))
  }

  lemma WireAllAppend(a: seq<Frame>, b: seq<Frame>)
    ensures WireAll(a + b) == WireAll(a) + WireAll(b)
  {
    assert Images(a + b) == Images(a) + Images(b);
    FlattenAppend(Images(a), Images(b));
  }

  lemma WireAllCons(fs: seq<Frame>)
    requires fs != []
    ensures WireAll(fs) == Wire(fs[0]) + WireAll(fs[1..])
  {
    assert Images(fs)[1..] == Images(fs[1..]);
  }

  /** The two leading bytes of a stream of frames are the length of its first frame. */
  lemma HeadIsLength(fs: seq<Frame>, b: seq<Byte>)
    requires fs != [] && Representable(fs[0])
    requires b <= WireAll(fs) && |b| >= 2
    ensures FromLe(b[..2]) == |Wire(fs[0])|
    ensures |Wire(fs[0])| <= |b| ==> Wire(fs[0]) <= b
  {
    var w := Wire(fs[0]);
    WireAllCons(fs);
    assert WireAll(fs)[..|w|] == w;
    assert b[..2] == WireAll(fs)[..2] == w[..2] == Le(|w|, 2);
    U16RoundTrip(|w|);
    if |w| <= |b| {
      assert b[..|w|] == WireAll(fs)[..|w|];
    }
  }

  /** Two frames with the same image are the same frame. */
  lemma WireInjective(f: Frame, g: Frame)
    requires Representable(f) && Representable(g) && Wire(f) == Wire(g)
    ensures f == g
  {
    DecodeWire(f);
    DecodeWire(g);
  }
}
