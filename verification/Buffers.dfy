/** The assertions of the receive path: they hold because rounds run in lockstep and frames have the
    lengths they have. */
module Buffers {
  import opened Arithmetic
  import opened Ring
  import opened Codec
  import opened Node
  import opened Network
  import opened Lockstep
  import opened Stream
  import opened ByteNetwork
  import opened Guarantees

  function FrameBytes(sys: Sys): nat {
    14 + 8 * sys.k
  }

  /** Bytes of one whole response: every frame is 14 bytes of head and k words. */
  function ResponseBytes(sys: Sys): nat
    requires 0 < sys.k
  {
    sys.Blocks() * FrameBytes(sys)
  }

  lemma {:induction false} WireAllLength(fs: seq<Frame>, n: nat)
    requires forall f :: f in fs ==> |Wire(f)| == n
    ensures |WireAll(fs)| == |fs| * n
  {
    hide Wire, WireAll;
    if fs == [] {
      NothingOnTheWire();
    } else {
      WireAllCons(fs);
      assert fs[0] in fs;
      assert forall f :: f in fs[1..] ==> f in fs;
      WireAllLength(fs[1..], n);
      assert (|fs| - 1) * n + n == |fs| * n;
    }
  }

  lemma TailLength(sys: Sys, c: nat, r: nat, from: nat)
    requires sys.Ok() && c < sys.N() && from <= sys.Blocks()
    ensures |WireAll(Tail(sys, c, r, from))| == (sys.Blocks() - from) * FrameBytes(sys)
  {
    var fs := Tail(sys, c, r, from);
    assert |fs| == sys.Blocks() - from;
    hide Wire, WireAll, TreeVector, Sys.Blocks, Sys.Ok;
    forall f | f in fs
      ensures |Wire(f)| == FrameBytes(sys)
    {
      assert f in Split(TreeVector(sys, c, r), sys.k);
      SplitFrameLength(TreeVector(sys, c, r), sys.k, f);
    }
    hide *;
    WireAllLength(fs, FrameBytes(sys));
  }

  lemma OneRequestLength(sys: Sys)
    ensures |WireAll([Request(sys.size)])| == 15
  {
    WireAllCons([Request(sys.size)]);
    assert WireAll([]) == [];
    assert [Request(sys.size)][1..] == [];
  }

  /** All bytes between the two ends of a link, under way and buffered together. */
  lemma BytesOnALink(sys: Sys, ws: seq<World>, i: nat, c: nat)
    requires sys.Ok() && IsRun(sys, ws) && i < |ws| && 0 < c < sys.N()
    ensures |ws[i].down[c].Bytes()| <= 15
    ensures |ws[i].up[c].Bytes()| <= ResponseBytes(sys)
  {
    var from := LinksCarryOneRound(sys, ws, i, c);
    OneRequestLength(sys);
    TailLength(sys, c, ws[i].nodes[sys.parent[c]].curIter, from);
    MulMono(sys.Blocks() - from, sys.Blocks(), FrameBytes(sys));
    assert ResponseBytes(sys) == sys.Blocks() * FrameBytes(sys);
    hide *;
  }

  /** A segment that can arrive at the ring of a socket, and does not fit it. */
  ghost predicate Overruns(link: Link, n: nat) {
    0 < n <= |link.flight| && n <= SEGMENT && !link.ring.Fits(n)
  }

  /** Whatever arrives fits, as long as one response fits an empty ring. */
  lemma ReceiveBufferNeverOverflows(sys: Sys, ws: seq<World>, i: nat, c: nat, n: nat)
    requires sys.Ok() && IsRun(sys, ws) && i < |ws| && 0 < c < sys.N()
    ensures !Overruns(ws[i].down[c], n)
    ensures ResponseBytes(sys) <= CAPACITY ==> !Overruns(ws[i].up[c], n)
  {
    BytesOnALink(sys, ws, i, c);
    var net, l := RunIsSound(sys, ws, i);
    assert Carries(ws[i].down[c], net.down[c], REQUEST_STRIDE) && Carries(ws[i].up[c], net.up[c], RESPONSE_STRIDE);
  }

  lemma PassCannotFail(sys: Sys, w: World, net: Net, l: Ledger, c: nat)
    requires sys.Ok() && Sound(sys, w, net, l) && 0 < c < sys.N()
    ensures 2 < |w.down[c].ring.contents| ==> w.down[c].ring.PeekInBounds()
    ensures 2 < |w.up[c].ring.contents| ==> w.up[c].ring.PeekInBounds()
    ensures w.down[c].HasFrame() ==> Possible(sys, w, TakeDown(c))
    ensures w.up[c].HasFrame() ==> Possible(sys, w, TakeUp(c))
  {
    HeadsCanBeHandled(sys, net, l, c);
    if |w.down[c].ring.contents| >= 2 {
      TakeSeesFirstFrame(w.down[c], net.down[c], REQUEST_STRIDE);
    }
    if |w.up[c].ring.contents| >= 2 {
      TakeSeesFirstFrame(w.up[c], net.up[c], RESPONSE_STRIDE);
    }
  }

  /** The 16-bit peek never straddles the end of the ring, and a frame it admits is one the handler's
      own assertions accept: no pass of a receive loop can fail. */
  lemma NoPassCanFail(sys: Sys, ws: seq<World>, i: nat, c: nat)
    requires sys.Ok() && IsRun(sys, ws) && i < |ws| && 0 < c < sys.N()
    ensures 2 < |ws[i].down[c].ring.contents| ==> ws[i].down[c].ring.PeekInBounds()
    ensures 2 < |ws[i].up[c].ring.contents| ==> ws[i].up[c].ring.PeekInBounds()
    ensures ws[i].down[c].HasFrame() ==> Possible(sys, ws[i], TakeDown(c))
    ensures ws[i].up[c].HasFrame() ==> Possible(sys, ws[i], TakeUp(c))
  {
    var net, l := RunIsSound(sys, ws, i);
    PassCannotFail(sys, ws[i], net, l, c);
  }

  // ---- a poll is a finite sequence of passes ---------------------------------------------------

  lemma RunExtends(sys: Sys, ws: seq<World>, h: Happening)
    requires sys.Ok() && IsRun(sys, ws) && Possible(sys, ws[|ws| - 1], h)
    ensures IsRun(sys, ws + [After(sys, ws[|ws| - 1], h)])
  {
    var vs := ws + [After(sys, ws[|ws| - 1], h)];
    forall i | 0 < i < |vs|
      ensures Follows(sys, vs[i - 1], vs[i])
    {
      if i < |ws| {
        assert Follows(sys, ws[i - 1], ws[i]);
      } else {
        assert Possible(sys, vs[i - 1], h);
      }
    }
  }

  /** One pass of the receive loop on the socket between c and its parent, at either end. */
  function PassOf(c: nat, up: bool): Happening {
    if up then TakeUp(c) else TakeDown(c)
  }

  ghost predicate Passes(sys: Sys, w: World, w': World, c: nat, up: bool)
    requires sys.Ok() && w.Shape(sys.N(), sys.k)
  {
    Possible(sys, w, PassOf(c, up)) && w' == After(sys, w, PassOf(c, up))
  }

  function RingOf(w: World, c: nat, up: bool): Link
    requires c < |w.up| && c < |w.down|
  {
    if up then w.up[c] else w.down[c]
  }

  /** A pass takes a frame off its own ring and puts nothing there. */
  lemma PassShortensRing(sys: Sys, w: World, net: Net, l: Ledger, c: nat, up: bool)
    requires sys.Ok() && Sound(sys, w, net, l) && 0 < c < sys.N()
    requires RingOf(w, c, up).HasFrame()
    ensures Possible(sys, w, PassOf(c, up))
    ensures |RingOf(After(sys, w, PassOf(c, up)), c, up).ring.contents| < |RingOf(w, c, up).ring.contents|
  {
    PassCannotFail(sys, w, net, l, c);
  }

  lemma PassExtends(sys: Sys, ws: seq<World>, c: nat, up: bool) returns (vs: seq<World>)
    requires sys.Ok() && IsRun(sys, ws) && 0 < c < sys.N()
    requires RingOf(ws[|ws| - 1], c, up).HasFrame()
    ensures |vs| == |ws| + 1 && ws <= vs && IsRun(sys, vs)
    ensures Passes(sys, ws[|ws| - 1], vs[|ws|], c, up)
    ensures |RingOf(vs[|ws|], c, up).ring.contents| < |RingOf(ws[|ws| - 1], c, up).ring.contents|
  {
    var net, l := RunIsSound(sys, ws, |ws| - 1);
    PassShortensRing(sys, ws[|ws| - 1], net, l, c, up);
    RunExtends(sys, ws, PassOf(c, up));
    vs := ws + [After(sys, ws[|ws| - 1], PassOf(c, up))];
  }

  /** The run vs continues ws with passes on one socket only. */
  ghost predicate Polled(sys: Sys, ws: seq<World>, vs: seq<World>, c: nat, up: bool)
    requires sys.Ok() && IsRun(sys, ws)
  {
    && ws <= vs && IsRun(sys, vs)
    && forall i :: |ws| <= i < |vs| ==> Passes(sys, vs[i - 1], vs[i], c, up)
  }

  lemma PolledNot(sys: Sys, ws: seq<World>, c: nat, up: bool)
    requires sys.Ok() && IsRun(sys, ws)
    ensures Polled(sys, ws, ws, c, up)
  {
  }

  lemma PolledRuns(sys: Sys, ws: seq<World>, vs: seq<World>, c: nat, up: bool)
    requires sys.Ok() && IsRun(sys, ws) && Polled(sys, ws, vs, c, up)
    ensures IsRun(sys, vs)
  {
  }

  lemma PolledOnce(sys: Sys, ws: seq<World>, next: seq<World>, vs: seq<World>, c: nat, up: bool)
    requires sys.Ok() && IsRun(sys, ws) && IsRun(sys, next) && ws <= next && |next| == |ws| + 1
    requires Passes(sys, ws[|ws| - 1], next[|ws|], c, up) && Polled(sys, next, vs, c, up)
    ensures Polled(sys, ws, vs, c, up)
  {
    assert |ws| > 0;
    hide IsRun, Passes, Sys.Ok;
    assert vs[|ws|] == next[|ws|] && vs[|ws| - 1] == ws[|ws| - 1];
  }

  /** Polling a socket ends, dispatches nothing else, and leaves no whole frame in its ring. */
  lemma {:induction false} PollEnds(sys: Sys, ws: seq<World>, c: nat, up: bool) returns (vs: seq<World>)
    requires sys.Ok() && IsRun(sys, ws) && 0 < c < sys.N()
    ensures Polled(sys, ws, vs, c, up) && !RingOf(vs[|vs| - 1], c, up).HasFrame()
    decreases |RingOf(ws[|ws| - 1], c, up).ring.contents|
  {
    vs := ws;
    hide Link.HasFrame, Passes, Polled, Sys.Ok;
    if !RingOf(ws[|ws| - 1], c, up).HasFrame() {
      PolledNot(sys, ws, c, up);
    } else {
      var next := PassExtends(sys, ws, c, up);
      vs := PollEnds(sys, next, c, up);
      PolledOnce(sys, ws, next, vs, c, up);
      PolledRuns(sys, ws, vs, c, up);
    }
  }

  // ---- no deadlock -------------------------------------------------------------------------------

  /** No byte can arrive, and no receive loop can make a pass. */
  ghost predicate Still(sys: Sys, w: World)
    requires sys.Ok() && w.Shape(sys.N(), sys.k)
  {
    forall h: Happening :: h != Begin ==> !Possible(sys, w, h)
  }

  ghost predicate Finished(sys: Sys, w: World)
    requires sys.Ok() && w.Shape(sys.N(), sys.k)
  {
    forall n :: 0 <= n < sys.N() && sys.Kids(n) > 0 ==> w.nodes[n].curIter == sys.maxIteration
  }

  lemma FramesHaveBytes(fs: seq<Frame>)
    requires fs != []
    ensures |WireAll(fs)| >= |Wire(fs[0])| > 2
  {
    WireAllCons(fs);
  }

  /** A link whose bytes have all arrived shows its first frame. */
  lemma ArrivedMeansFrame(link: Link, fs: seq<Frame>, stride: nat)
    requires stride == REQUEST_STRIDE || stride == RESPONSE_STRIDE
    requires Carries(link, fs, stride) && link.flight == [] && fs != []
    ensures link.HasFrame()
  {
    FramesHaveBytes(fs);
    assert link.Bytes() == link.ring.contents;
    hide WireAll, Wire;
    TakeSeesFirstFrame(link, fs, stride);
  }

  /** In a still state the link above c is empty in both directions. */
  lemma StillMeansEmpty(sys: Sys, ws: seq<World>, i: nat, c: nat)
    requires sys.Ok() && IsRun(sys, ws) && i < |ws| && 0 < c < sys.N() && ResponseBytes(sys) <= CAPACITY
    requires Still(sys, ws[i])
    ensures ws[i].down[c].Bytes() == [] && ws[i].up[c].Bytes() == []
  {
    var w := ws[i];
    ReceiveBufferNeverOverflows(sys, ws, i, c, 1);
    assert !Possible(sys, w, ArriveDown(c, 1)) && !Possible(sys, w, ArriveUp(c, 1));
    assert w.down[c].flight == [] && w.up[c].flight == [];
    NoPassCanFail(sys, ws, i, c);
    assert !Possible(sys, w, TakeDown(c)) && !Possible(sys, w, TakeUp(c));
    var net, l := RunIsSound(sys, ws, i);
    assert Carries(w.down[c], net.down[c], REQUEST_STRIDE) && Carries(w.up[c], net.up[c], RESPONSE_STRIDE);
    hide IsRun, Inv, Link.HasFrame, Possible;
    if net.down[c] != [] {
      ArrivedMeansFrame(w.down[c], net.down[c], REQUEST_STRIDE);
    }
    if net.up[c] != [] {
      ArrivedMeansFrame(w.up[c], net.up[c], RESPONSE_STRIDE);
    }
  }

  /** When every round is finished no link carries a frame. */
  lemma FinishedMeansEmpty(sys: Sys, ws: seq<World>, i: nat, c: nat)
    requires sys.Ok() && IsRun(sys, ws) && i < |ws| && 0 < c < sys.N() && Finished(sys, ws[i])
    ensures ws[i].down[c].Bytes() == [] && ws[i].up[c].Bytes() == []
  {
    var net, l := RunIsSound(sys, ws, i);
    var p := sys.parent[c];
    ChildMeansKids(sys, p, c, sys.N());
    assert LinkOk(sys, net, l, c) && NodeOk(sys, net, l, p);
    assert net.down[c] == [] && net.up[c] == [];
    assert Carries(ws[i].down[c], [], REQUEST_STRIDE) && Carries(ws[i].up[c], [], RESPONSE_STRIDE);
  }

  lemma EmptyMeansStill(sys: Sys, w: World)
    requires sys.Ok() && w.Shape(sys.N(), sys.k)
    requires forall c :: 0 < c < sys.N() ==> w.down[c].Bytes() == [] && w.up[c].Bytes() == []
    ensures Still(sys, w)
  {
    forall h: Happening | h != Begin
      ensures !Possible(sys, w, h)
    {
      var c := h.c;
      if 0 < c < sys.N() {
        assert w.down[c].flight == [] && w.up[c].flight == [];
        assert w.down[c].ring.contents == [] && w.up[c].ring.contents == [];
      }
    }
  }

  /** No deadlock: once the consumer has begun, and as long as a response fits the ring, nothing can
      happen any more if and only if every round is finished. */
  lemma StillIffFinished(sys: Sys, ws: seq<World>, i: nat)
    requires sys.Ok() && IsRun(sys, ws) && i < |ws| && sys.Blocks() > 0 && ResponseBytes(sys) <= CAPACITY
    requires !ws[i].nodes[0].asEnd
    ensures Still(sys, ws[i]) <==> Finished(sys, ws[i])
  {
    hide Still, Possible;
    if Still(sys, ws[i]) {
      forall c | 0 < c < sys.N()
        ensures ws[i].down[c].Bytes() == [] && ws[i].up[c].Bytes() == []
      {
        StillMeansEmpty(sys, ws, i, c);
      }
      forall n | 0 <= n < sys.N() && sys.Kids(n) > 0
        ensures ws[i].nodes[n].curIter == sys.maxIteration
      {
        QuietMeansFinished(sys, ws, i, n);
      }
    }
    if Finished(sys, ws[i]) {
      forall c | 0 < c < sys.N()
        ensures ws[i].down[c].Bytes() == [] && ws[i].up[c].Bytes() == []
      {
        FinishedMeansEmpty(sys, ws, i, c);
      }
      EmptyMeansStill(sys, ws[i]);
    }
  }
}
