/** A byte stream of frames between two sockets, and what a receive loop can know of it. */
module Stream {
  import opened Bytes
  import opened Ring
  import opened Codec

  /** One direction of a link: bytes under way, and the receiver's ring. */
  datatype Link = Link(flight: seq<Byte>, ring: View)
  {
    /** All bytes sent and not yet taken, oldest first. */
    function Bytes(): seq<Byte> { ring.contents + flight }

    function Send(data: seq<Byte>): Link { this.(flight := flight + data) }

    function Arrive(n: nat): Link
      requires n <= |flight|
    {
      Link(flight[n..], ring.Write(flight[..n]))
    }

    function Take(n: nat): Link
      requires ring.Ok() && n <= |ring.contents|
    {
      this.(ring := ring.Read(n))
    }

    /** The guard of the receive loop: more than two bytes, and a whole frame of them. */
    predicate HasFrame() {
      2 < |ring.contents| && 0 < FromLe(ring.contents[..2]) <= |ring.contents|
    }

    /** What the receive loop hands to the header parser. */
    function FrameBytes(): seq<Byte>
      requires HasFrame()
    {
      ring.contents[..FromLe(ring.contents[..2])]
    }
  }

  const EMPTY_LINK := Link([], View(CAPACITY, 0, []))

  /** Most bytes one OnCanRead moves. */
  const SEGMENT: nat := 8192

  const REQUEST_STRIDE: nat := 5
  const RESPONSE_STRIDE: nat := 2

  /** A link carries exactly the frames fs, and its read position keeps step with their lengths. */
  ghost predicate Carries(link: Link, fs: seq<Frame>, stride: nat)
    requires stride > 0
  {
    && link.ring.Ok() && link.ring.capacity == CAPACITY
    && link.Bytes() == WireAll(fs)
    && link.ring.readPos % stride == 0
    && forall f :: f in fs ==> Representable(f) && |Wire(f)| % stride == 0
  }

  lemma ArriveKeepsBytes(link: Link, n: nat)
    requires n <= |link.flight|
    ensures link.Arrive(n).Bytes() == link.Bytes()
  {
  }

  lemma SendCarries(link: Link, fs: seq<Frame>, more: seq<Frame>, stride: nat)
    requires stride > 0 && Carries(link, fs, stride)
    requires forall f :: f in more ==> Representable(f) && |Wire(f)| % stride == 0
    ensures Carries(link.Send(WireAll(more)), fs + more, stride)
  {
    WireAllAppend(fs, more);
    Associative(link.ring.contents, link.flight, WireAll(more));
  }

  lemma WrapKeepsFives(p: nat)
    requires p % 5 == 0 && p < 2 * CAPACITY
    ensures Wrap(p, CAPACITY) % 5 == 0
  {
    assert CAPACITY % 5 == 0;
  }

  lemma WrapKeepsTwos(p: nat)
    requires p % 2 == 0 && p < 2 * CAPACITY
    ensures Wrap(p, CAPACITY) % 2 == 0
  {
  }

  lemma WrapKeepsStride(pos: nat, n: nat, stride: nat)
    requires stride == REQUEST_STRIDE || stride == RESPONSE_STRIDE
    requires pos % stride == 0 && n % stride == 0 && pos + n < 2 * CAPACITY
    ensures Wrap(pos + n, CAPACITY) % stride == 0
  {
    hide Wrap;
    if stride == REQUEST_STRIDE {
      assert (pos + n) % 5 == 0;
      WrapKeepsFives(pos + n);
    } else {
      assert (pos + n) % 2 == 0;
      WrapKeepsTwos(pos + n);
    }
  }

  lemma NothingOnTheWire()
    ensures WireAll([]) == []
  {
  }

  /** The peek is in bounds and sees the first frame's length; a whole frame decodes to that frame. */
  lemma TakeSeesFirstFrame(link: Link, fs: seq<Frame>, stride: nat)
    requires stride == REQUEST_STRIDE || stride == RESPONSE_STRIDE
    requires Carries(link, fs, stride) && |link.ring.contents| >= 2
    ensures link.ring.PeekInBounds()
    ensures fs != [] && FromLe(link.ring.contents[..2]) == |Wire(fs[0])|
    ensures link.HasFrame() ==> link.FrameBytes() == Wire(fs[0]) && Decode(link.FrameBytes()) == Some(fs[0])
  {
    hide WireAll, Wire, Decode, FromLe, Representable;
    assert link.Bytes()[..|link.ring.contents|] == link.ring.contents;
    NothingOnTheWire();
    assert fs[0] in fs;
    HeadIsLength(fs, link.ring.contents);
    DecodeWire(fs[0]);
    if link.HasFrame() {
      assert Wire(fs[0]) <= link.ring.contents;
    }
  }

  lemma TakeDropsBytes(link: Link, n: nat)
    requires link.ring.Ok() && n <= |link.ring.contents|
    ensures link.Take(n).Bytes() == link.Bytes()[n..]
  {
  }

  lemma TakeCarriesRest(link: Link, fs: seq<Frame>, stride: nat)
    requires stride == REQUEST_STRIDE || stride == RESPONSE_STRIDE
    requires Carries(link, fs, stride) && link.HasFrame()
    ensures fs != [] && Carries(link.Take(|link.FrameBytes()|), fs[1..], stride)
  {
    hide Wire, WireAll, Decode, FromLe, Representable;
    TakeSeesFirstFrame(link, fs, stride);
    var n := |Wire(fs[0])|;
    WireAllCons(fs);
    TakeDropsBytes(link, n);
    assert fs[0] in fs;
    WrapKeepsStride(link.ring.readPos, n, stride);
  }
}
