/** The messages a participant hands to its sockets are the bytes the network puts on its links. */
module Wiring {
  import opened Bytes
  import opened Codec
  import opened Node
  import opened Network
  import opened Stream
  import ByteNetwork
  import opened Mpi

  /** Everything sent to one peer, in order. */
  function BytesTo(ms: seq<Message>, to: Addr): seq<Byte> {
    if ms == [] then [] else (if ms[0].to == to then ms[0].bytes else []) + BytesTo(ms[1..], to)
  }

  lemma {:induction false} BytesToAppend(a: seq<Message>, b: seq<Message>, to: Addr)
    ensures BytesTo(a + b, to) == BytesTo(a, to) + BytesTo(b, to)
  {
    if a == [] {
      assert a + b == b;
    } else {
      BytesToAppend(a[1..], b, to);
      assert (a + b)[1..] == a[1..] + b;
      Associative(if a[0].to == to then a[0].bytes else [], BytesTo(a[1..], to), BytesTo(b, to));
    }
  }

  /** One message for each frame, all to the same peer. */
  lemma {:induction false} FramesReach(ms: seq<Message>, fs: seq<Frame>, addr: Addr, to: Addr)
    requires |ms| == |fs| && forall i :: 0 <= i < |fs| ==> ms[i] == Message(addr, Wire(fs[i]))
    ensures BytesTo(ms, to) == if to == addr then WireAll(fs) else []
  {
    hide Wire, WireAll;
    if fs == [] {
      NothingOnTheWire();
    } else {
      FramesReach(ms[1..], fs[1..], addr, to);
      WireAllCons(fs);
    }
  }

  lemma SplitReaches(addr: Addr, vec: seq<Word>, k: nat, to: Addr)
    requires 0 < k
    ensures BytesTo(SplitTo(addr, vec, k), to) == if to == addr then WireAll(Split(vec, k)) else []
  {
    hide Wire, WireAll, ChunkFrame, BytesTo;
    FramesReach(SplitTo(addr, vec, k), Split(vec, k), addr, to);
  }

  ghost predicate NoTwice(group: seq<Addr>) {
    forall i, j :: 0 <= i < j < |group| ==> group[i] != group[j]
  }

  lemma {:induction false} BroadcastReaches(group: seq<Addr>, size: nat, to: Addr)
    requires NoTwice(group)
    ensures BytesTo(Broadcast(group, size), to) == if to in group then Wire(Request(size)) else []
  {
    hide Wire;
    if group == [] {
    } else {
      assert Broadcast(group, size)[1..] == Broadcast(group[1..], size);
      BroadcastReaches(group[1..], size, to);
    }
  }

  lemma OneRequestOnTheWire(size: nat)
    ensures WireAll([Request(size)]) == Wire(Request(size))
  {
    WireAllCons([Request(size)]);
    assert [Request(size)][1..] == [];
    NothingOnTheWire();
  }

  /** Peers as they are set up below the root: children under different addresses, and one parent. */
  ghost predicate Wired(peers: Peers, from: Addr, outs: seq<Output>, parent: Addr) {
    && 0 < peers.k && NoTwice(peers.cGroup) && parent !in peers.cGroup
    && (peers.sGroup == [parent] || peers.sGroup == [])
    && forall o :: o in outs && o.Reply? ==> from == parent
  }

  lemma OneVector(o: Output, k: nat)
    requires 0 < k
    ensures SplitAll(Vectors([o]), k) ==
            if o.Responses? then Split(o.vec, k) else if o.Reply? then Split(o.reply, k) else []
  {
    hide Split;
    assert [o][1..] == [];
  }

  lemma OnlyParent(peers: Peers, v: seq<Word>, parent: Addr)
    requires 0 < peers.k && (peers.sGroup == [parent] || peers.sGroup == [])
    ensures SplitToAll(peers.sGroup, v, peers.k) == if peers.sGroup == [] then [] else SplitTo(parent, v, peers.k)
  {
    hide SplitTo;
    assert [parent][..0] == [];
  }

  /** What one output sends to a child. */
  lemma OneToChild(peers: Peers, from: Addr, o: Output, parent: Addr, c: Addr)
    requires Wired(peers, from, [o], parent) && c in peers.cGroup
    ensures BytesTo(Sends(peers, from, o), c) == if o.Requests? then WireAll([Request(o.size)]) else []
  {
    hide Wire, WireAll, Split, SplitTo, Broadcast;
    assert o in [o];
    match o
    case Requests(size) =>
      BroadcastReaches(peers.cGroup, size, c);
      OneRequestOnTheWire(size);
    case Responses(v) =>
      OnlyParent(peers, v, parent);
      SplitReaches(parent, v, peers.k, c);
    case Reply(v) =>
      SplitReaches(parent, v, peers.k, c);
    case Stop =>
  }

  /** What one output sends to the parent. */
  lemma OneToParent(peers: Peers, from: Addr, o: Output, parent: Addr)
    requires Wired(peers, from, [o], parent) && peers.sGroup == [parent]
    ensures BytesTo(Sends(peers, from, o), parent) == WireAll(SplitAll(Vectors([o]), peers.k))
  {
    OneVector(o, peers.k);
    NothingOnTheWire();
    hide Wire, WireAll, Split, SplitTo, Broadcast, SplitAll, Vectors;
    assert o in [o];
    match o
    case Requests(size) =>
      BroadcastReaches(peers.cGroup, size, parent);
    case Responses(v) =>
      OnlyParent(peers, v, parent);
      SplitReaches(parent, v, peers.k, parent);
    case Reply(v) =>
      SplitReaches(parent, v, peers.k, parent);
    case Stop =>
  }

  lemma {:induction false} SplitAllAppend(a: seq<seq<Word>>, b: seq<seq<Word>>, k: nat)
    requires 0 < k
    ensures SplitAll(a + b, k) == SplitAll(a, k) + SplitAll(b, k)
  {
    hide Split;
    if a == [] {
      assert a + b == b;
    } else {
      SplitAllAppend(a[1..], b, k);
      assert (a + b)[1..] == a[1..] + b;
      Associative(Split(a[0], k), SplitAll(a[1..], k), SplitAll(b, k));
    }
  }

  /** The frames of the first output and of the others. */
  lemma OutputsSplit(outs: seq<Output>, k: nat)
    requires 0 < k && outs != []
    ensures WireAll(RequestFrames(outs)) ==
            (if outs[0].Requests? then WireAll([Request(outs[0].size)]) else []) + WireAll(RequestFrames(outs[1..]))
    ensures WireAll(SplitAll(Vectors(outs), k)) ==
            WireAll(SplitAll(Vectors([outs[0]]), k)) + WireAll(SplitAll(Vectors(outs[1..]), k))
  {
    var o, rest := outs[0], outs[1..];
    assert [o][1..] == [] && Vectors([o]) + Vectors(rest) == Vectors(outs);
    hide WireAll, SplitAll, Vectors;
    NothingOnTheWire();
    WireAllAppend(if o.Requests? then [Request(o.size)] else [], RequestFrames(rest));
    SplitAllAppend(Vectors([o]), Vectors(rest), k);
    WireAllAppend(SplitAll(Vectors([o]), k), SplitAll(Vectors(rest), k));
  }

  /** A child gets the requests, frame after frame and nothing else. */
  lemma {:induction false} RequestsReach(peers: Peers, from: Addr, outs: seq<Output>, parent: Addr, c: Addr)
    requires Wired(peers, from, outs, parent) && c in peers.cGroup
    ensures BytesTo(AllSends(peers, from, outs), c) == WireAll(RequestFrames(outs))
  {
    hide Sends, WireAll, SplitAll;
    if outs == [] {
      NothingOnTheWire();
    } else {
      assert outs[0] in outs && forall o :: o in outs[1..] ==> o in outs;
      OneToChild(peers, from, outs[0], parent, c);
      RequestsReach(peers, from, outs[1..], parent, c);
      BytesToAppend(Sends(peers, from, outs[0]), AllSends(peers, from, outs[1..]), c);
      OutputsSplit(outs, peers.k);
    }
  }

  lemma NoVectors(k: nat)
    requires 0 < k
    ensures SplitAll(Vectors([]), k) == []
  {
  }

  /** The parent gets the vectors, frame after frame and nothing else. */
  lemma {:induction false} VectorsReach(peers: Peers, from: Addr, outs: seq<Output>, parent: Addr)
    requires Wired(peers, from, outs, parent) && peers.sGroup == [parent]
    ensures BytesTo(AllSends(peers, from, outs), parent) == WireAll(SplitAll(Vectors(outs), peers.k))
  {
    hide Sends, WireAll, SplitAll;
    if outs == [] {
      NothingOnTheWire();
      NoVectors(peers.k);
    } else {
      assert outs[0] in outs && forall o :: o in outs[1..] ==> o in outs;
      OneToParent(peers, from, outs[0], parent);
      VectorsReach(peers, from, outs[1..], parent);
      BytesToAppend(Sends(peers, from, outs[0]), AllSends(peers, from, outs[1..]), parent);
      OutputsSplit(outs, peers.k);
    }
  }

  // ---- the tree ------------------------------------------------------------------------------------

  /** The children of n numbered below hi, in order. */
  function Children(sys: Sys, n: nat, hi: nat): (cs: seq<nat>)
    ensures |cs| == sys.KidsBelow(n, hi)
    ensures forall c :: c in cs <==> 0 <= c < hi && sys.IsChild(c, n)
  {
    if hi == 0 then [] else Children(sys, n, hi - 1) + if sys.IsChild(hi - 1, n) then [hi - 1] else []
  }

  lemma {:induction false} ChildrenDiffer(sys: Sys, n: nat, hi: nat)
    ensures NoTwice(Children(sys, n, hi))
  {
    if hi == 0 {
    } else {
      ChildrenDiffer(sys, n, hi - 1);
      var cs := Children(sys, n, hi - 1);
      forall i | 0 <= i < |cs| ensures cs[i] < hi - 1 {
        assert cs[i] in cs;
      }
    }
  }

  /** The groups a participant is set up with; addresses are node numbers. */
  function PeersOf(sys: Sys, n: nat): Peers
    requires n < sys.N()
  {
    Peers(Children(sys, n, sys.N()), if n == 0 then [] else [sys.parent[n]], sys.k)
  }

  lemma TreeIsWired(sys: Sys, n: nat, from: Addr, outs: seq<Output>)
    requires sys.Ok() && n < sys.N()
    requires forall o :: o in outs && o.Reply? ==> n > 0 && from == sys.parent[n]
    ensures Wired(PeersOf(sys, n), from, outs, if n == 0 then 0 else sys.parent[n])
  {
    ChildrenDiffer(sys, n, sys.N());
    hide Children, Sys.KidsBelow;
  }

  /** The messages of a participant, sorted by addressee, are exactly what the network model puts on
      the links to its children and to its parent. */
  lemma SendsAreEmitted(sys: Sys, w: ByteNetwork.World, n: nat, s: State, from: Addr, outs: seq<Output>)
    requires sys.Ok() && w.Shape(sys.N(), sys.k) && n < sys.N()
    requires forall o :: o in outs && o.Reply? ==> n > 0 && from == sys.parent[n]
    ensures var ms := AllSends(PeersOf(sys, n), from, outs);
            var w' := ByteNetwork.EmitBytes(sys, w, n, s, outs);
            && (forall c :: 0 <= c < sys.N() && sys.IsChild(c, n) ==> w'.down[c] == w.down[c].Send(BytesTo(ms, c)))
            && (n > 0 ==> w'.up[n] == w.up[n].Send(BytesTo(ms, sys.parent[n])))
  {
    var peers, parent := PeersOf(sys, n), if n == 0 then 0 else sys.parent[n];
    TreeIsWired(sys, n, from, outs);
    hide Children, WireAll, SplitAll, AllSends, BytesTo, RequestFrames, Vectors, Wired, Sys.KidsBelow;
    forall c | 0 <= c < sys.N() && sys.IsChild(c, n)
      ensures BytesTo(AllSends(peers, from, outs), c) == WireAll(RequestFrames(outs))
    {
      RequestsReach(peers, from, outs, parent, c);
    }
    if n > 0 {
      VectorsReach(peers, from, outs, parent);
    }
  }
}
