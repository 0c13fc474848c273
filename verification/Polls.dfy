/** A poll of the network is a run of the receive loop of the class. */
module Polls {
  import opened Bytes
  import opened Codec
  import opened Node
  import opened Network
  import opened Lockstep
  import opened Stream
  import opened Buffers
  import opened Mpi
  import opened Wiring

  /** The messages ms of participant n are what the links to its children and to its parent have gained. */
  ghost predicate Gained(sys: Sys, w: ByteNetwork.World, w': ByteNetwork.World, n: nat, ms: seq<Message>)
    requires sys.Ok() && w.Shape(sys.N(), sys.k) && w'.Shape(sys.N(), sys.k) && n < sys.N()
  {
    && (forall c :: 0 <= c < sys.N() && sys.IsChild(c, n) ==> w'.down[c] == w.down[c].Send(BytesTo(ms, c)))
    && (n > 0 ==> w'.up[n] == w.up[n].Send(BytesTo(ms, sys.parent[n])))
  }

  lemma GainedNothing(sys: Sys, w: ByteNetwork.World, n: nat)
    requires sys.Ok() && w.Shape(sys.N(), sys.k) && n < sys.N()
    ensures Gained(sys, w, w, n, [])
  {
  }

  lemma SentTwice(link: Link, a: seq<Byte>, b: seq<Byte>)
    ensures link.Send(a).Send(b) == link.Send(a + b)
  {
  }

  lemma GainedMore(sys: Sys, u: ByteNetwork.World, v: ByteNetwork.World, w: ByteNetwork.World, n: nat,
                   ms: seq<Message>, more: seq<Message>)
    requires sys.Ok() && u.Shape(sys.N(), sys.k) && v.Shape(sys.N(), sys.k) && w.Shape(sys.N(), sys.k) && n < sys.N()
    requires Gained(sys, u, v, n, ms) && Gained(sys, v, w, n, more)
    ensures Gained(sys, u, w, n, ms + more)
  {
    hide BytesTo, Sys.Ok;
    forall c | 0 <= c < sys.N() && sys.IsChild(c, n)
      ensures w.down[c] == u.down[c].Send(BytesTo(ms + more, c))
    {
      BytesToAppend(ms, more, c);
      SentTwice(u.down[c], BytesTo(ms, c), BytesTo(more, c));
    }
    if n > 0 {
      BytesToAppend(ms, more, sys.parent[n]);
      SentTwice(u.up[n], BytesTo(ms, sys.parent[n]), BytesTo(more, sys.parent[n]));
    }
  }

  /** Only a request is replied to, and only by a node without children. */
  lemma RepliesAnswerRequests(cfg: Config, s: State, f: Frame, o: Output)
    requires cfg.Ok() && s.Ok(cfg.k) && CanHandle(cfg, f) && o in Handle(cfg, s, f).1 && o.Reply?
    ensures f.Request? && cfg.children == 0
  {
  }

  /** The messages of the handler of one frame. */
  function Answers(sys: Sys, n: nat, from: Addr, s: State, f: Frame): seq<Message>
    requires sys.Ok() && n < sys.N() && s.Ok(sys.k) && CanHandle(sys.Cfg(n), f)
  {
    AllSends(PeersOf(sys, n), if f.Request? then from else 0, Handle(sys.Cfg(n), s, f).1)
  }

  /** One pass on the socket to the parent: the class and the network do the same with the first frame. */
  lemma PassDown(sys: Sys, w: ByteNetwork.World, c: nat, fs: seq<Frame>)
    requires sys.Ok() && w.Shape(sys.N(), sys.k) && ByteNetwork.Possible(sys, w, ByteNetwork.TakeDown(c))
    requires Carries(w.down[c], fs, REQUEST_STRIDE)
    ensures fs != [] && CanHandle(sys.Cfg(c), fs[0])
    ensures var w' := ByteNetwork.After(sys, w, ByteNetwork.TakeDown(c));
      && w'.nodes[c] == Handle(sys.Cfg(c), w.nodes[c], fs[0]).0
      && Carries(w'.down[c], fs[1..], REQUEST_STRIDE)
      && Gained(sys, w, w', c, Answers(sys, c, sys.parent[c], w.nodes[c], fs[0]))
  {
    TakeSeesFirstFrame(w.down[c], fs, REQUEST_STRIDE);
    TakeCarriesRest(w.down[c], fs, REQUEST_STRIDE);
    ByteNetwork.TakenDownIs(sys, w, c, fs[0]);
    var (s, outs) := Handle(sys.Cfg(c), w.nodes[c], fs[0]);
    forall o | o in outs && o.Reply?
      ensures fs[0].Request?
    {
      RepliesAnswerRequests(sys.Cfg(c), w.nodes[c], fs[0], o);
    }
    hide Carries, Handle, CanHandle, AllSends, BytesTo, Decode;
    SendsAreEmitted(sys, ByteNetwork.PoppedDown(w, c), c, s, if fs[0].Request? then sys.parent[c] else 0, outs);
  }

  /** One pass at the parent of c on the socket to c. */
  lemma PassUp(sys: Sys, w: ByteNetwork.World, c: nat, fs: seq<Frame>)
    requires sys.Ok() && w.Shape(sys.N(), sys.k) && ByteNetwork.Possible(sys, w, ByteNetwork.TakeUp(c))
    requires Carries(w.up[c], fs, RESPONSE_STRIDE)
    ensures fs != [] && sys.parent[c] < c && CanHandle(sys.Cfg(sys.parent[c]), fs[0])
    ensures var w', p := ByteNetwork.After(sys, w, ByteNetwork.TakeUp(c)), sys.parent[c];
      && w'.nodes[p] == Handle(sys.Cfg(p), w.nodes[p], fs[0]).0
      && Carries(w'.up[c], fs[1..], RESPONSE_STRIDE)
      && Gained(sys, w, w', p, Answers(sys, p, c, w.nodes[p], fs[0]))
  {
    var p := sys.parent[c];
    TakeSeesFirstFrame(w.up[c], fs, RESPONSE_STRIDE);
    TakeCarriesRest(w.up[c], fs, RESPONSE_STRIDE);
    ByteNetwork.TakenUpIs(sys, w, c, fs[0]);
    ChildMeansKids(sys, p, c, sys.N());
    var (s, outs) := Handle(sys.Cfg(p), w.nodes[p], fs[0]);
    forall o | o in outs
      ensures !o.Reply?
    {
      if o.Reply? {
        RepliesAnswerRequests(sys.Cfg(p), w.nodes[p], fs[0], o);
      }
    }
    hide Carries, Handle, CanHandle, AllSends, BytesTo, Decode;
    SendsAreEmitted(sys, ByteNetwork.PoppedUp(w, c), p, s, if fs[0].Request? then c else 0, outs);
  }

  // ---- many passes -----------------------------------------------------------------------------------

  /** Who reads the socket between c and its parent, and who sends on it. */
  function Reader(sys: Sys, c: nat, up: bool): nat
    requires c < sys.N()
  {
    if up then sys.parent[c] else c
  }

  function Sender(sys: Sys, c: nat, up: bool): nat
    requires c < sys.N()
  {
    if up then c else sys.parent[c]
  }

  function Stride(up: bool): nat { if up then RESPONSE_STRIDE else REQUEST_STRIDE }

  /** Passes on one socket and nothing else. */
  ghost predicate IsPoll(sys: Sys, ws: seq<ByteNetwork.World>, c: nat, up: bool)
    requires sys.Ok() && 0 < c < sys.N()
  {
    && ws != [] && (forall i :: 0 <= i < |ws| ==> ws[i].Shape(sys.N(), sys.k))
    && forall i :: 0 < i < |ws| ==> Passes(sys, ws[i - 1], ws[i], c, up)
  }

  lemma OnePass(sys: Sys, w: ByteNetwork.World, w': ByteNetwork.World, c: nat, up: bool, fs: seq<Frame>)
    requires sys.Ok() && 0 < c < sys.N() && w.Shape(sys.N(), sys.k) && Passes(sys, w, w', c, up)
    requires Carries(RingOf(w, c, up), fs, Stride(up))
    ensures fs != [] && Reader(sys, c, up) < sys.N() && CanHandle(sys.Cfg(Reader(sys, c, up)), fs[0])
    ensures w'.Shape(sys.N(), sys.k) && Carries(RingOf(w', c, up), fs[1..], Stride(up))
    ensures var n := Reader(sys, c, up);
      && w'.nodes[n] == Handle(sys.Cfg(n), w.nodes[n], fs[0]).0
      && Gained(sys, w, w', n, Answers(sys, n, Sender(sys, c, up), w.nodes[n], fs[0]))
  {
    hide Carries, Handle, CanHandle, Answers, Gained, ByteNetwork.Possible, ByteNetwork.After;
    if up {
      PassUp(sys, w, c, fs);
    } else {
      PassDown(sys, w, c, fs);
    }
  }

  /** The reader has handled the frames done, from the state and with the gains that the class gives it. */
  ghost predicate HasHandled(sys: Sys, w: ByteNetwork.World, w': ByteNetwork.World, n: nat, from: Addr,
                             done: seq<Frame>)
    requires sys.Ok() && w.Shape(sys.N(), sys.k) && w'.Shape(sys.N(), sys.k) && n < sys.N()
  {
    && (forall f :: f in done ==> CanHandle(sys.Cfg(n), f))
    && w'.nodes[n] == HandleAll(sys.Cfg(n), w.nodes[n], done)
    && Gained(sys, w, w', n, SendsOfAll(sys.Cfg(n), PeersOf(sys, n), from, w.nodes[n], done))
  }

  lemma HasHandledNothing(sys: Sys, w: ByteNetwork.World, n: nat, from: Addr)
    requires sys.Ok() && w.Shape(sys.N(), sys.k) && n < sys.N()
    ensures HasHandled(sys, w, w, n, from, [])
  {
    NothingHandled(sys.Cfg(n), PeersOf(sys, n), from, w.nodes[n]);
    GainedNothing(sys, w, n);
  }

  lemma HandledOneMore(sys: Sys, u: ByteNetwork.World, v: ByteNetwork.World, w: ByteNetwork.World, n: nat, from: Addr,
                       done: seq<Frame>, f: Frame)
    requires sys.Ok() && u.Shape(sys.N(), sys.k) && v.Shape(sys.N(), sys.k) && w.Shape(sys.N(), sys.k) && n < sys.N()
    requires HasHandled(sys, u, v, n, from, done) && CanHandle(sys.Cfg(n), f)
    requires w.nodes[n] == Handle(sys.Cfg(n), v.nodes[n], f).0
    requires Gained(sys, v, w, n, Answers(sys, n, from, v.nodes[n], f))
    ensures HasHandled(sys, u, w, n, from, done + [f])
  {
    var more := done + [f];
    assert forall g :: g in more ==> g in done || g == f;
    assert more[..|done|] == done && more[..|done| + 1] == more;
    hide Handle, CanHandle, AllSends, HandleAll, SendsOfAll, Gained;
    OneMore(sys.Cfg(n), PeersOf(sys, n), from, u.nodes[n], more, |done|);
    GainedMore(sys, u, v, w, n, SendsOfAll(sys.Cfg(n), PeersOf(sys, n), from, u.nodes[n], done),
               Answers(sys, n, from, v.nodes[n], f));
  }

  /** One more pass of a poll. */
  lemma PassMore(sys: Sys, u: ByteNetwork.World, v: ByteNetwork.World, w: ByteNetwork.World, c: nat, up: bool,
                 fs: seq<Frame>, m: nat)
    requires sys.Ok() && 0 < c < sys.N() && u.Shape(sys.N(), sys.k) && v.Shape(sys.N(), sys.k) && m <= |fs|
    requires Reader(sys, c, up) < sys.N() && Passes(sys, v, w, c, up)
    requires Carries(RingOf(v, c, up), fs[m..], Stride(up))
    requires HasHandled(sys, u, v, Reader(sys, c, up), Sender(sys, c, up), fs[..m])
    ensures m < |fs| && w.Shape(sys.N(), sys.k)
    ensures Carries(RingOf(w, c, up), fs[m + 1..], Stride(up))
    ensures HasHandled(sys, u, w, Reader(sys, c, up), Sender(sys, c, up), fs[..m + 1])
  {
    hide *;
    var rest := fs[m..];
    OnePass(sys, v, w, c, up, rest);
    assert rest[1..] == fs[m + 1..] && fs[..m + 1] == fs[..m] + [rest[0]];
    HandledOneMore(sys, u, v, w, Reader(sys, c, up), Sender(sys, c, up), fs[..m], rest[0]);
  }

  lemma PollSplits(sys: Sys, ws: seq<ByteNetwork.World>, c: nat, up: bool)
    requires sys.Ok() && 0 < c < sys.N() && IsPoll(sys, ws, c, up)
    ensures Reader(sys, c, up) < sys.N() && ws[0].Shape(sys.N(), sys.k) && ws[|ws| - 1].Shape(sys.N(), sys.k)
    ensures |ws| > 1 ==>
              IsPoll(sys, ws[..|ws| - 1], c, up) && Passes(sys, ws[|ws| - 2], ws[|ws| - 1], c, up)
  {
    assert ws[0].Shape(sys.N(), sys.k) && Reader(sys, c, up) < sys.N();
    hide Passes, ByteNetwork.World.Shape, Sys.Ok;
    if |ws| > 1 {
      assert Passes(sys, ws[|ws| - 1 - 1], ws[|ws| - 1], c, up);
      var before := ws[..|ws| - 1];
      forall i | 0 < i < |before|
        ensures Passes(sys, before[i - 1], before[i], c, up)
      {
        assert Passes(sys, ws[i - 1], ws[i], c, up);
      }
    }
  }

  /** A poll in the network is what the receive loop of the class does: after n passes the reader has
      handled the first n frames of the link, one after the other, the link carries the others, and the
      links to the reader's children and parent have gained exactly the messages its handlers sent. */
  lemma {:induction false} PollIsReceiveLoop(sys: Sys, ws: seq<ByteNetwork.World>, c: nat, up: bool, fs: seq<Frame>)
    requires sys.Ok() && 0 < c < sys.N() && IsPoll(sys, ws, c, up)
    requires Carries(RingOf(ws[0], c, up), fs, Stride(up))
    ensures |ws| - 1 <= |fs| && Reader(sys, c, up) < sys.N()
    ensures Carries(RingOf(ws[|ws| - 1], c, up), fs[|ws| - 1..], Stride(up))
    ensures HasHandled(sys, ws[0], ws[|ws| - 1], Reader(sys, c, up), Sender(sys, c, up), fs[..|ws| - 1])
    decreases |ws|
  {
    PollSplits(sys, ws, c, up);
    var last := |ws| - 1;
    if last == 0 {
      assert fs[..0] == [] && fs[0..] == fs;
      hide *;
      HasHandledNothing(sys, ws[0], Reader(sys, c, up), Sender(sys, c, up));
    } else {
      var before := ws[..last];
      assert before[0] == ws[0] && before[|before| - 1] == ws[last - 1] && |before| - 1 == last - 1;
      hide *;
      PollIsReceiveLoop(sys, before, c, up, fs);
      PollSplits(sys, before, c, up);
      PassMore(sys, ws[0], ws[last - 1], ws[last], c, up, fs, last - 1);
    }
  }

  lemma PolledIsPoll(sys: Sys, ws: seq<ByteNetwork.World>, vs: seq<ByteNetwork.World>, c: nat, up: bool)
    requires sys.Ok() && ByteNetwork.IsRun(sys, ws) && 0 < c < sys.N() && Polled(sys, ws, vs, c, up)
    ensures 0 < |ws| <= |vs| && vs[|ws| - 1] == ws[|ws| - 1] && IsPoll(sys, vs[|ws| - 1..], c, up)
    ensures ws[|ws| - 1].Shape(sys.N(), sys.k) && vs[|vs| - 1].Shape(sys.N(), sys.k) && Reader(sys, c, up) < sys.N()
  {
    assert forall i :: 0 <= i < |vs| ==> vs[i].Shape(sys.N(), sys.k);
    assert Reader(sys, c, up) < sys.N();
    var poll := vs[|ws| - 1..];
    hide Passes, ByteNetwork.World.Shape, Sys.Ok;
    forall i | 0 < i < |poll|
      ensures Passes(sys, poll[i - 1], poll[i], c, up)
    {
      assert Passes(sys, vs[|ws| - 1 + i - 1], vs[|ws| - 1 + i], c, up);
    }
  }

  lemma RingCarries(sys: Sys, w: ByteNetwork.World, net: Net, c: nat, up: bool)
    requires sys.Ok() && ByteNetwork.Refines(sys, w, net) && 0 < c < sys.N()
    ensures Carries(RingOf(w, c, up), if up then net.up[c] else net.down[c], Stride(up))
  {
    assert Carries(w.down[c], net.down[c], REQUEST_STRIDE) && Carries(w.up[c], net.up[c], RESPONSE_STRIDE);
    hide Carries;
  }

  lemma FramesOfRun(sys: Sys, ws: seq<ByteNetwork.World>, c: nat, up: bool) returns (fs: seq<Frame>)
    requires sys.Ok() && ByteNetwork.IsRun(sys, ws) && 0 < c < sys.N()
    ensures ws != [] && ws[|ws| - 1].Shape(sys.N(), sys.k)
    ensures Carries(RingOf(ws[|ws| - 1], c, up), fs, Stride(up))
  {
    var net, l := ByteNetwork.RunIsSound(sys, ws, |ws| - 1);
    fs := if up then net.up[c] else net.down[c];
    hide ByteNetwork.IsRun, Inv, Carries;
    RingCarries(sys, ws[|ws| - 1], net, c, up);
  }

  /** In every run: a poll hands the reader the first frames the link carried, and its handlers' messages
      to its neighbours. */
  lemma PollOfRun(sys: Sys, ws: seq<ByteNetwork.World>, vs: seq<ByteNetwork.World>, c: nat, up: bool)
    returns (fs: seq<Frame>)
    requires sys.Ok() && ByteNetwork.IsRun(sys, ws) && 0 < c < sys.N() && Polled(sys, ws, vs, c, up)
    ensures 0 < |ws| <= |vs| <= |ws| + |fs| && Reader(sys, c, up) < sys.N()
    ensures ws[|ws| - 1].Shape(sys.N(), sys.k) && vs[|vs| - 1].Shape(sys.N(), sys.k)
    ensures Carries(RingOf(ws[|ws| - 1], c, up), fs, Stride(up))
    ensures Carries(RingOf(vs[|vs| - 1], c, up), fs[|vs| - |ws|..], Stride(up))
    ensures HasHandled(sys, ws[|ws| - 1], vs[|vs| - 1], Reader(sys, c, up), Sender(sys, c, up), fs[..|vs| - |ws|])
  {
    hide *;
    PolledIsPoll(sys, ws, vs, c, up);
    var poll := vs[|ws| - 1..];
    assert poll[0] == ws[|ws| - 1] && poll[|poll| - 1] == vs[|vs| - 1] && |poll| - 1 == |vs| - |ws|;
    fs := FramesOfRun(sys, ws, c, up);
    PollIsReceiveLoop(sys, poll, c, up, fs);
  }
}
