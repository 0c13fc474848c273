/** What holds in every run of the averaging protocol, whatever the order of arrivals and polls. */
module Guarantees {
  import opened Arithmetic
  import opened Codec
  import opened Node
  import opened Network
  import opened Lockstep
  import opened Stream
  import opened ByteNetwork

  /** Every average any node declares complete is the recursive average of its subtree for that round,
      rounds are declared in order, and the consumer's result vector is its last one. */
  lemma RoundsComputeTreeAverages(sys: Sys, ws: seq<World>, i: nat, n: nat)
    requires sys.Ok() && IsRun(sys, ws) && i < |ws| && n < sys.N()
    ensures forall r :: 0 <= r < |ws[i].results[n]| ==> ws[i].results[n][r] == TreeVector(sys, n, r)
    ensures sys.Kids(n) > 0 ==> |ws[i].results[n]| == ws[i].nodes[n].curIter <= sys.maxIteration
    ensures n == 0 && ws[i].nodes[0].curIter > 0 ==>
              ws[i].nodes[0].avg == TreeVector(sys, 0, ws[i].nodes[0].curIter - 1)
  {
    var net, l := RunIsSound(sys, ws, i);
    assert NodeOk(sys, net, l, n);
    ChildMeansKids(sys, 0, 1, sys.N());
  }

  /** Two runs never disagree about a round both have finished. */
  lemma OrderDoesNotMatter(sys: Sys, ws: seq<World>, i: nat, vs: seq<World>, j: nat, n: nat, r: nat)
    requires sys.Ok() && IsRun(sys, ws) && IsRun(sys, vs) && i < |ws| && j < |vs| && n < sys.N()
    requires r < |ws[i].results[n]| && r < |vs[j].results[n]|
    ensures ws[i].results[n][r] == vs[j].results[n][r]
  {
    RoundsComputeTreeAverages(sys, ws, i, n);
    RoundsComputeTreeAverages(sys, vs, j, n);
  }

  /** The response of c in round r, from block from on. */
  ghost function Tail(sys: Sys, c: nat, r: nat, from: nat): seq<Frame>
    requires sys.Ok() && c < sys.N() && from <= sys.Blocks()
  {
    Split(TreeVector(sys, c, r), sys.k)[from..]
  }

  /** A link carries nothing, one request, or the rest of one response, of the round its parent is in. */
  lemma LinksCarryOneRound(sys: Sys, ws: seq<World>, i: nat, c: nat) returns (from: nat)
    requires sys.Ok() && IsRun(sys, ws) && i < |ws| && 0 < c < sys.N()
    ensures sys.parent[c] < sys.N() && from <= sys.Blocks()
    ensures var w := ws[i];
            || (w.down[c].Bytes() == [] && w.up[c].Bytes() == [])
            || (w.down[c].Bytes() == WireAll([Request(sys.size)]) && w.up[c].Bytes() == [])
            || (w.down[c].Bytes() == [] &&
                w.up[c].Bytes() == WireAll(Tail(sys, c, w.nodes[sys.parent[c]].curIter, from)))
  {
    var net, l := RunIsSound(sys, ws, i);
    var p := sys.parent[c];
    assert LinkOk(sys, net, l, c) && NodeOk(sys, net, l, p);
    ChildMeansKids(sys, p, c, sys.N());
    assert Carries(ws[i].down[c], net.down[c], REQUEST_STRIDE) && Carries(ws[i].up[c], net.up[c], RESPONSE_STRIDE);
    assert WireAll([]) == [];
    from := if l[c].got <= sys.Blocks() then l[c].got else 0;
  }

  /** No chunk is ever counted more often than there are children, and the counters do not wrap. */
  lemma CountsStayBelowFanOut(sys: Sys, ws: seq<World>, i: nat, n: nat, b: nat)
    requires sys.Ok() && IsRun(sys, ws) && i < |ws| && n < sys.N() && sys.Kids(n) > 0 && b < sys.Blocks()
    ensures ChunkAt(ws[i].nodes[n].chunks, sys.k, b * sys.k).count <= sys.Kids(n) <= 255
  {
    var net, l := RunIsSound(sys, ws, i);
    assert NodeOk(sys, net, l, n);
    assert ChunkHolds(sys, l, n, l[n].done, b, ChunkAt(net.nodes[n].chunks, sys.k, b * sys.k));
  }

  /** Conservation of rounds at every event boundary. */
  lemma RoundsAreConserved(sys: Sys, ws: seq<World>, i: nat, c: nat)
    requires sys.Ok() && IsRun(sys, ws) && i < |ws| && 0 < c < sys.N()
    ensures sys.parent[c] < sys.N()
    ensures var w := ws[i];
            var p := sys.parent[c];
            && !w.nodes[c].asEnd
            && (p > 0 ==> w.asked[c] == w.handled[p])
            && (p == 0 ==> w.asked[c] == if w.nodes[0].asEnd then 0 else Min(sys.maxIteration, w.nodes[0].curIter + 1))
            && (sys.Kids(c) > 0 ==> w.answered[c] == w.nodes[c].curIter == |w.results[c]|)
            && (sys.Kids(c) == 0 ==> w.answered[c] == w.handled[c])
            && w.answered[c] <= w.handled[c] <= w.asked[c] <= w.answered[c] + 1
            && w.nodes[p].curIter <= w.answered[c]
  {
    var net, l := RunIsSound(sys, ws, i);
    var p := sys.parent[c];
    ChildMeansKids(sys, p, c, sys.N());
    assert LinkOk(sys, net, l, c) && NodeOk(sys, net, l, c) && NodeOk(sys, net, l, p);
    if p > 0 {
      assert LinkOk(sys, net, l, p);
    }
  }

  /** While a round is open some child still owes a block. */
  lemma {:induction false} Laggard(sys: Sys, l: Ledger, n: nat, hi: nat) returns (c: nat)
    requires sys.Ok() && hi <= |l| == sys.N() && sys.Blocks() > 0
    requires CountAbove(sys, l, n, sys.Blocks() - 1, hi) < sys.KidsBelow(n, hi)
    ensures c < hi && sys.IsChild(c, n) && l[c].got < sys.Blocks()
  {
    if sys.IsChild(hi - 1, n) && l[hi - 1].got < sys.Blocks() {
      c := hi - 1;
    } else {
      c := Laggard(sys, l, n, hi - 1);
    }
  }

  /** With empty links no node is in the middle of a round. */
  lemma {:induction false} Settled(sys: Sys, net: Net, l: Ledger, n: nat)
    requires sys.Ok() && Inv(sys, net, l) && n < sys.N() && sys.Blocks() > 0
    requires forall c :: 0 < c < sys.N() ==> net.down[c] == [] && net.up[c] == []
    ensures l[n].started == l[n].done
    decreases sys.N() - n
  {
    assert NodeOk(sys, net, l, n);
    if sys.Kids(n) > 0 && l[n].started > l[n].done {
      var c := Laggard(sys, l, n, sys.N());
      assert LinkOk(sys, net, l, c);
      Settled(sys, net, l, c);
    }
  }

  /** With empty links every node has finished as many rounds as the consumer. */
  lemma {:induction false} Uniform(sys: Sys, net: Net, l: Ledger, n: nat)
    requires sys.Ok() && Inv(sys, net, l) && n < sys.N() && sys.Blocks() > 0
    requires forall c :: 0 < c < sys.N() ==> net.down[c] == [] && net.up[c] == []
    ensures l[n].done == l[0].done
  {
    if n == 0 {
    } else {
      var p := sys.parent[n];
      Settled(sys, net, l, p);
      assert LinkOk(sys, net, l, n);
      Uniform(sys, net, l, p);
    }
  }

  /** Every round of the consumer has been started by its first event, and none is skipped: once
      nothing is under way any more, all rounds of all nodes are complete. */
  lemma QuietMeansFinished(sys: Sys, ws: seq<World>, i: nat, n: nat)
    requires sys.Ok() && IsRun(sys, ws) && i < |ws| && n < sys.N() && sys.Kids(n) > 0 && sys.Blocks() > 0
    requires !ws[i].nodes[0].asEnd
    requires forall c :: 0 < c < sys.N() ==> ws[i].down[c].Bytes() == [] && ws[i].up[c].Bytes() == []
    ensures ws[i].nodes[n].curIter == sys.maxIteration
  {
    var net, l := RunIsSound(sys, ws, i);
    forall c | 0 < c < sys.N()
      ensures net.down[c] == [] && net.up[c] == []
    {
      assert Carries(ws[i].down[c], net.down[c], REQUEST_STRIDE) && Carries(ws[i].up[c], net.up[c], RESPONSE_STRIDE);
      if net.down[c] != [] { WireAllCons(net.down[c]); }
      if net.up[c] != [] { WireAllCons(net.up[c]); }
    }
    Settled(sys, net, l, n);
    Uniform(sys, net, l, n);
    assert NodeOk(sys, net, l, n) && NodeOk(sys, net, l, 0);
    ChildMeansKids(sys, 0, 1, sys.N());
    Settled(sys, net, l, 0);
  }
}
