/** Rounds never mix: what every step of the protocol keeps, and what a finished round computed. */
module Lockstep {
  import opened Arithmetic
  import opened Bytes
  import opened Codec
  import opened Node
  import opened Network

  /** Proof bookkeeping per node: rounds started, rounds finished, and how many blocks of its current
      response its parent has taken. */
  datatype Entry = Entry(started: nat, done: nat, got: nat)
  type Ledger = seq<Entry>

  // ---- sums over the children that have delivered block i -----------------------------------

  ghost function CountAbove(sys: Sys, l: Ledger, n: nat, i: nat, hi: nat): (v: nat)
    requires hi <= |l|
    ensures v <= sys.KidsBelow(n, hi)
  {
    if hi == 0 then 0
    else CountAbove(sys, l, n, i, hi - 1) + if sys.IsChild(hi - 1, n) && l[hi - 1].got > i then 1 else 0
  }

  ghost function SumAbove(sys: Sys, l: Ledger, n: nat, r: nat, i: nat, j: nat, hi: nat): nat
    requires sys.Ok() && n < sys.N() && hi <= |l| == sys.N()
  {
    if hi == 0 then 0
    else SumAbove(sys, l, n, r, i, j, hi - 1) +
         if sys.IsChild(hi - 1, n) && l[hi - 1].got > i then TreeAvg(sys, hi - 1, r, j) else 0
  }

  /** What the table entry for block i must hold when the ledger says l. */
  ghost predicate ChunkHolds(sys: Sys, l: Ledger, n: nat, r: nat, i: nat, c: Chunk)
    requires sys.Ok() && n < sys.N() == |l| && sys.Kids(n) > 0
  {
    && c.count == CountAbove(sys, l, n, i, sys.N())
    && |c.data| == sys.k
    && forall j :: 0 <= j < sys.k ==>
         c.data[j] == Level(SumAbove(sys, l, n, r, i, i * sys.k + j, sys.N()), c.count, sys.Kids(n))
  }

  // ---- the invariant -------------------------------------------------------------------------

  ghost predicate Asked(sys: Sys, lc: Entry, lp: Entry, down: seq<Frame>, up: seq<Frame>) {
    && lp.started == lp.done + 1 && lc.started == lc.done == lp.done && lc.got == 0
    && down == [Request(sys.size)] && up == []
  }

  ghost predicate Working(lc: Entry, lp: Entry, down: seq<Frame>, up: seq<Frame>) {
    && lp.started == lp.done + 1 && lc.started == lp.started && lc.done == lp.done && lc.got == 0
    && down == [] && up == []
  }

  ghost predicate Answering(sys: Sys, c: nat, lc: Entry, lp: Entry, down: seq<Frame>, up: seq<Frame>)
    requires sys.Ok() && c < sys.N()
  {
    && lp.started == lp.done + 1 && lc.started == lc.done == lp.started && lc.got <= sys.Blocks()
    && down == [] && up == Split(TreeVector(sys, c, lp.done), sys.k)[lc.got..]
  }

  ghost predicate Resting(lc: Entry, lp: Entry, down: seq<Frame>, up: seq<Frame>) {
    && lp.started == lp.done && lc.started == lc.done == lp.started && lc.got == 0
    && down == [] && up == []
  }

  /** The link above c carries nothing, one request, or the rest of one round's response. */
  ghost predicate LinkOk(sys: Sys, net: Net, l: Ledger, c: nat)
    requires sys.Ok() && net.Shape(sys.N(), sys.k) && |l| == sys.N() && 0 < c < sys.N()
  {
    var lc, lp, down, up := l[c], l[sys.parent[c]], net.down[c], net.up[c];
    && net.asked[c] == lp.started
    && net.handled[c] == lc.started
    && net.answered[c] == lc.done
    && (|| Asked(sys, lc, lp, down, up)
        || Working(lc, lp, down, up)
        || Answering(sys, c, lc, lp, down, up)
        || Resting(lc, lp, down, up))
  }

  ghost predicate InnerOk(sys: Sys, net: Net, l: Ledger, n: nat)
    requires sys.Ok() && net.Shape(sys.N(), sys.k) && |l| == sys.N() && n < sys.N() && sys.Kids(n) > 0
  {
    var s := net.nodes[n];
    && s.curIter == l[n].done == |net.results[n]|
    && l[n].done <= l[n].started <= l[n].done + 1
    && l[n].started <= sys.maxIteration
    && (s.asEnd ==> n == 0)
    && (n == 0 ==>
          l[0].started == (if s.asEnd then 0 else if l[0].done < sys.maxIteration then l[0].done + 1 else l[0].done))
    && (n == 0 ==> s.vsize == sys.size)
    && (n == 0 && l[n].done > 0 ==> s.avg == TreeVector(sys, n, l[n].done - 1))
    && (l[n].started > l[n].done ==>
          && s.vsize == sys.size
          && (sys.Blocks() > 0 ==> CountAbove(sys, l, n, sys.Blocks() - 1, sys.N()) < sys.Kids(n)))
    && forall i :: 0 <= i < sys.Blocks() ==> ChunkHolds(sys, l, n, l[n].done, i, ChunkAt(s.chunks, sys.k, i * sys.k))
  }

  ghost predicate LeafOk(sys: Sys, net: Net, l: Ledger, n: nat)
    requires sys.Ok() && net.Shape(sys.N(), sys.k) && |l| == sys.N() && n < sys.N()
  {
    && !net.nodes[n].asEnd
    && net.nodes[n].drawn == l[n].started == l[n].done <= sys.maxIteration
  }

  ghost predicate NodeOk(sys: Sys, net: Net, l: Ledger, n: nat)
    requires sys.Ok() && net.Shape(sys.N(), sys.k) && |l| == sys.N() && n < sys.N()
  {
    && (forall r :: 0 <= r < |net.results[n]| ==> net.results[n][r] == TreeVector(sys, n, r))
    && if sys.Kids(n) > 0 then InnerOk(sys, net, l, n) else LeafOk(sys, net, l, n)
  }

  ghost predicate Inv(sys: Sys, net: Net, l: Ledger)
    requires sys.Ok()
  {
    && net.Shape(sys.N(), sys.k) && |l| == sys.N()
    && (forall c :: 0 < c < sys.N() ==> LinkOk(sys, net, l, c))
    && (forall n :: 0 <= n < sys.N() ==> NodeOk(sys, net, l, n))
  }

  // ---- facts about the sums ------------------------------------------------------------------

  /** Sums of n look only at the blocks its own children have delivered. */
  lemma {:induction false} SumsFrame(sys: Sys, l: Ledger, l': Ledger, n: nat, r: nat, i: nat, j: nat, hi: nat)
    requires sys.Ok() && n < sys.N() && hi <= |l| == |l'| == sys.N()
    requires forall c :: 0 <= c < hi && sys.IsChild(c, n) ==> (l[c].got > i <==> l'[c].got > i)
    ensures CountAbove(sys, l, n, i, hi) == CountAbove(sys, l', n, i, hi)
    ensures SumAbove(sys, l, n, r, i, j, hi) == SumAbove(sys, l', n, r, i, j, hi)
  {
    if hi == 0 {
    } else {
      SumsFrame(sys, l, l', n, r, i, j, hi - 1);
    }
  }

  /** One more child of n delivers block i. */
  lemma {:induction false} SumsGain(sys: Sys, l: Ledger, l': Ledger, n: nat, r: nat, i: nat, j: nat, c: nat, hi: nat)
    requires sys.Ok() && n < sys.N() && hi <= |l| == |l'| == sys.N()
    requires sys.IsChild(c, n) && l[c].got <= i < l'[c].got
    requires forall d :: 0 <= d < hi && d != c && sys.IsChild(d, n) ==> (l[d].got > i <==> l'[d].got > i)
    ensures CountAbove(sys, l', n, i, hi) == CountAbove(sys, l, n, i, hi) + if c < hi then 1 else 0
    ensures SumAbove(sys, l', n, r, i, j, hi) ==
            SumAbove(sys, l, n, r, i, j, hi) + if c < hi then TreeAvg(sys, c, r, j) else 0
  {
    if hi == 0 {
    } else {
      SumsGain(sys, l, l', n, r, i, j, c, hi - 1);
    }
  }

  /** With no deliveries the sums are empty. */
  lemma {:induction false} SumsNone(sys: Sys, l: Ledger, n: nat, r: nat, i: nat, j: nat, hi: nat)
    requires sys.Ok() && n < sys.N() && hi <= |l| == sys.N()
    requires forall c :: 0 <= c < hi && sys.IsChild(c, n) ==> l[c].got <= i
    ensures CountAbove(sys, l, n, i, hi) == 0 && SumAbove(sys, l, n, r, i, j, hi) == 0
  {
    if hi == 0 {
    } else {
      SumsNone(sys, l, n, r, i, j, hi - 1);
    }
  }

  /** The count reaches the number of children exactly when each has delivered, and then the sum is whole. */
  lemma {:induction false} SumsAll(sys: Sys, l: Ledger, n: nat, r: nat, i: nat, j: nat, hi: nat)
    requires sys.Ok() && n < sys.N() && hi <= |l| == sys.N()
    ensures CountAbove(sys, l, n, i, hi) == sys.KidsBelow(n, hi) <==>
            (forall c :: 0 <= c < hi && sys.IsChild(c, n) ==> l[c].got > i)
    ensures CountAbove(sys, l, n, i, hi) == sys.KidsBelow(n, hi) ==>
              SumAbove(sys, l, n, r, i, j, hi) == KidSum(sys, n, r, j, hi)
  {
    if hi == 0 {
    } else {
      SumsAll(sys, l, n, r, i, j, hi - 1);
    }
  }

  /** An inner node has a child. */
  lemma {:induction false} SomeChild(sys: Sys, n: nat, hi: nat) returns (c: nat)
    requires sys.KidsBelow(n, hi) > 0
    ensures c < hi && sys.IsChild(c, n)
  {
    if sys.IsChild(hi - 1, n) {
      c := hi - 1;
    } else {
      c := SomeChild(sys, n, hi - 1);
    }
  }

  lemma {:induction false} ChildMeansKids(sys: Sys, n: nat, c: nat, hi: nat)
    requires sys.IsChild(c, n) && c < hi
    ensures sys.KidsBelow(n, hi) > 0
  {
    if c == hi - 1 {
    } else {
      ChildMeansKids(sys, n, c, hi - 1);
    }
  }

  lemma ChunkFrameRule(sys: Sys, l: Ledger, l': Ledger, n: nat, r: nat, i: nat, c: Chunk)
    requires sys.Ok() && n < sys.N() == |l| == |l'| && sys.Kids(n) > 0
    requires forall d :: 0 <= d < sys.N() && sys.IsChild(d, n) ==> (l[d].got > i <==> l'[d].got > i)
    requires ChunkHolds(sys, l, n, r, i, c)
    ensures ChunkHolds(sys, l', n, r, i, c)
  {
    SumsFrame(sys, l, l', n, r, i, 0, sys.N());
    forall j | 0 <= j < sys.k
      ensures c.data[j] == Level(SumAbove(sys, l', n, r, i, i * sys.k + j, sys.N()), c.count, sys.Kids(n))
    {
      SumsFrame(sys, l, l', n, r, i, i * sys.k + j, sys.N());
    }
  }

  lemma NothingDelivered(sys: Sys, l: Ledger, n: nat, r: nat, i: nat)
    requires sys.Ok() && n < sys.N() == |l| && sys.Kids(n) > 0
    requires forall d :: 0 <= d < sys.N() && sys.IsChild(d, n) ==> l[d].got == 0
    ensures ChunkHolds(sys, l, n, r, i, Chunk(0, Zeros(sys.k)))
    ensures CountAbove(sys, l, n, i, sys.N()) == 0
  {
    SumsNone(sys, l, n, r, i, 0, sys.N());
    var z := Zeros(sys.k);
    forall j | 0 <= j < sys.k
      ensures z[j] == Level(SumAbove(sys, l, n, r, i, i * sys.k + j, sys.N()), 0, sys.Kids(n))
    {
      SumsNone(sys, l, n, r, i, i * sys.k + j, sys.N());
    }
  }

  // ---- frame rules for the invariant ---------------------------------------------------------

  /** A node that did not move, and whose children's deliveries did not change, is as it was. */
  lemma NodeUntouched(sys: Sys, net: Net, net': Net, l: Ledger, l': Ledger, n: nat)
    requires sys.Ok() && net.Shape(sys.N(), sys.k) && net'.Shape(sys.N(), sys.k)
    requires |l| == |l'| == sys.N() && n < sys.N()
    requires NodeOk(sys, net, l, n)
    requires net'.nodes[n] == net.nodes[n] && net'.results[n] == net.results[n]
    requires l'[n].started == l[n].started && l'[n].done == l[n].done
    requires forall c :: 0 <= c < sys.N() && sys.IsChild(c, n) ==> l'[c].got == l[c].got
    ensures NodeOk(sys, net', l', n)
  {
    if sys.Kids(n) > 0 {
      if sys.Blocks() > 0 {
        SumsFrame(sys, l, l', n, 0, sys.Blocks() - 1, 0, sys.N());
      }
      forall i | 0 <= i < sys.Blocks()
        ensures ChunkHolds(sys, l', n, l'[n].done, i, ChunkAt(net'.nodes[n].chunks, sys.k, i * sys.k))
      {
        ChunkFrameRule(sys, l, l', n, l[n].done, i, ChunkAt(net.nodes[n].chunks, sys.k, i * sys.k));
      }
    }
  }

  lemma OutsOne(a: Output)
    ensures RequestFrames([a]) == if a.Requests? then [Request(a.size)] else []
    ensures Vectors([a]) == match a { case Responses(v) => [v] case Reply(v) => [v] case _ => [] }
    ensures Declared([a]) == if a.Responses? then [a.vec] else []
  {
    assert [a][1..] == [];
  }

  lemma OutsTwo(a: Output, b: Output)
    ensures RequestFrames([a, b]) == RequestFrames([a]) + RequestFrames([b])
    ensures Vectors([a, b]) == Vectors([a]) + Vectors([b])
    ensures Declared([a, b]) == Declared([a]) + Declared([b])
  {
    OutsOne(a);
    OutsOne(b);
    assert [a, b][1..] == [b];
  }

  lemma SplitOne(v: seq<Word>, k: nat)
    requires 0 < k
    ensures SplitAll([v], k) == Split(v, k)
  {
    assert [v][1..] == [];
  }

  // ---- the start -----------------------------------------------------------------------------

  function NoRounds(sys: Sys): (l: Ledger) {
    Fill(sys.N(), Entry(0, 0, 0))
  }

  lemma InitialShape(sys: Sys)
    requires sys.Ok()
    ensures Initial(sys).Shape(sys.N(), sys.k)
  {
    hide Fill;
  }

  lemma InitialNode(sys: Sys, n: nat)
    requires sys.Ok() && n < sys.N()
    ensures Initial(sys).Shape(sys.N(), sys.k) && NodeOk(sys, Initial(sys), NoRounds(sys), n)
  {
    hide Fill;
    InitialShape(sys);
    var net := Initial(sys);
    var l := NoRounds(sys);
    ChildMeansKids(sys, 0, 1, sys.N());
    if sys.Blocks() > 0 && sys.Kids(n) > 0 {
      NothingDelivered(sys, l, n, 0, sys.Blocks() - 1);
    }
    hide TreeVector, Zeros, Split, ChunkHolds, CountAbove, Sys.KidsBelow;
    if sys.Kids(n) > 0 {
      forall i | 0 <= i < sys.Blocks()
        ensures ChunkHolds(sys, l, n, l[n].done, i, ChunkAt(net.nodes[n].chunks, sys.k, i * sys.k))
      {
        NothingDelivered(sys, l, n, 0, i);
      }
    }
  }

  lemma InitialInv(sys: Sys)
    requires sys.Ok()
    ensures Inv(sys, Initial(sys), NoRounds(sys))
  {
    hide NodeOk, Zeros, Fill;
    InitialShape(sys);
    forall n | 0 <= n < sys.N()
      ensures NodeOk(sys, Initial(sys), NoRounds(sys), n)
    {
      InitialNode(sys, n);
    }
  }

  /** The children of a node that is not in a round are all at rest. */
  lemma RestBelow(sys: Sys, net: Net, l: Ledger, n: nat)
    requires sys.Ok() && Inv(sys, net, l) && n < sys.N() && l[n].started == l[n].done
    ensures forall c :: 0 <= c < sys.N() && sys.IsChild(c, n) ==>
              Resting(l[c], l[n], net.down[c], net.up[c])
  {
    forall c | 0 <= c < sys.N() && sys.IsChild(c, n)
      ensures Resting(l[c], l[n], net.down[c], net.up[c])
    {
      assert LinkOk(sys, net, l, c);
    }
  }

  /** Node n is between rounds: its table is clear and so are the links below it. */
  ghost predicate Between(sys: Sys, net: Net, l: Ledger, n: nat)
    requires sys.Ok() && net.Shape(sys.N(), sys.k) && |l| == sys.N() && n < sys.N() && sys.Kids(n) > 0
  {
    && l[n].started == l[n].done == net.nodes[n].curIter == |net.results[n]|
    && (n == 0 && l[n].done > 0 ==> net.nodes[n].avg == TreeVector(sys, n, l[n].done - 1))
    && (forall r :: 0 <= r < |net.results[n]| ==> net.results[n][r] == TreeVector(sys, n, r))
    && (forall c :: 0 <= c < sys.N() && sys.IsChild(c, n) ==>
          LinkOk(sys, net, l, c) && Resting(l[c], l[n], net.down[c], net.up[c]))
    && forall i :: 0 <= i < sys.Blocks() ==>
         ChunkHolds(sys, l, n, l[n].done, i, ChunkAt(net.nodes[n].chunks, sys.k, i * sys.k))
  }

  /** A node opens a round: it was between rounds, and asks every child. */
  lemma RoundOpens(sys: Sys, net: Net, net': Net, l: Ledger, l': Ledger, n: nat)
    requires sys.Ok() && net.Shape(sys.N(), sys.k) && |l| == sys.N() && n < sys.N() && sys.Kids(n) > 0
    requires Between(sys, net, l, n)
    requires |l'| == sys.N() && l' == l[n := l'[n]]
    requires l'[n].started == l[n].started + 1 && l'[n].done == l[n].done
    requires net'.Shape(sys.N(), sys.k)
    requires forall c :: 0 < c < sys.N() && sys.IsChild(c, n) ==>
               net'.down[c] == net.down[c] + [Request(sys.size)] && net'.up[c] == net.up[c] &&
               net'.asked[c] == net.asked[c] + 1 && net'.handled[c] == net.handled[c] &&
               net'.answered[c] == net.answered[c]
    requires net'.nodes[n].chunks == net.nodes[n].chunks && net'.nodes[n].curIter == net.nodes[n].curIter
    requires net'.results[n] == net.results[n] && net'.nodes[n].vsize == sys.size && !net'.nodes[n].asEnd
    requires l'[n].started <= sys.maxIteration
    requires n == 0 ==> l[0].done < sys.maxIteration && net'.nodes[n].avg == net.nodes[n].avg
    ensures NodeOk(sys, net', l', n)
    ensures forall c :: 0 < c < sys.N() && sys.IsChild(c, n) ==> LinkOk(sys, net', l', c)
  {
    if sys.Blocks() > 0 {
      NothingDelivered(sys, l', n, l[n].done, sys.Blocks() - 1);
    }
    forall i | 0 <= i < sys.Blocks()
      ensures ChunkHolds(sys, l', n, l'[n].done, i, ChunkAt(net'.nodes[n].chunks, sys.k, i * sys.k))
    {
      ChunkFrameRule(sys, l, l', n, l[n].done, i, ChunkAt(net.nodes[n].chunks, sys.k, i * sys.k));
    }
    forall c | 0 < c < sys.N() && sys.IsChild(c, n)
      ensures LinkOk(sys, net', l', c)
    {
      assert sys.parent[c] < c;
      assert Asked(sys, l'[c], l'[n], net'.down[c], net'.up[c]);
    }
  }

  lemma RestIsBetween(sys: Sys, net: Net, l: Ledger, n: nat)
    requires sys.Ok() && Inv(sys, net, l) && n < sys.N() && sys.Kids(n) > 0 && l[n].started == l[n].done
    ensures Between(sys, net, l, n)
  {
    assert NodeOk(sys, net, l, n);
    RestBelow(sys, net, l, n);
    assert forall c :: 0 <= c < sys.N() && sys.IsChild(c, n) ==> LinkOk(sys, net, l, c);
  }

  /** The effect of asking every child. */
  lemma EmitAsks(sys: Sys, net: Net, n: nat, s: State, size: nat)
    requires 0 < sys.k && net.Shape(sys.N(), sys.k) && n < sys.N()
    ensures var net' := Emit(sys, net, n, s, [Requests(size)]);
            && net'.nodes == net.nodes[n := s]
            && net'.up == net.up && net'.handled == net.handled
            && net'.answered == net.answered && net'.results == net.results
            && |net'.down| == |net'.asked| == sys.N()
            && (forall c :: 0 <= c < sys.N() ==>
                  net'.down[c] == (if sys.IsChild(c, n) then net.down[c] + [Request(size)] else net.down[c]))
            && (forall c :: 0 <= c < sys.N() ==>
                  net'.asked[c] == net.asked[c] + (if sys.IsChild(c, n) then 1 else 0))
  {
    hide Split, Vectors, RequestFrames, Declared;
    OutsOne(Requests(size));
    var net' := Emit(sys, net, n, s, [Requests(size)]);
    assert net'.up[n] == net.up[n];
    assert net'.results[n] == net.results[n];
  }

  lemma EmitAsksNobody(sys: Sys, net: Net, n: nat, s: State, outs: seq<Output>)
    requires 0 < sys.k && net.Shape(sys.N(), sys.k) && n < sys.N()
    requires RequestFrames(outs) == []
    ensures Emit(sys, net, n, s, outs).down == net.down
    ensures Emit(sys, net, n, s, outs).asked == net.asked
  {
    var net' := Emit(sys, net, n, s, outs);
    assert forall c :: 0 <= c < sys.N() ==> net'.down[c] == net.down[c];
  }

  /** The effect of handing nothing to the links. */
  lemma EmitSilent(sys: Sys, net: Net, n: nat, s: State, outs: seq<Output>)
    requires 0 < sys.k && net.Shape(sys.N(), sys.k) && n < sys.N()
    requires RequestFrames(outs) == [] && Vectors(outs) == [] && Declared(outs) == []
    ensures Emit(sys, net, n, s, outs) == net.(nodes := net.nodes[n := s])
  {
    var net' := Emit(sys, net, n, s, outs);
    EmitAsksNobody(sys, net, n, s, outs);
    assert net'.up[n] == net.up[n] && net'.results[n] == net.results[n];
    assert net'.up == net.up;
    assert net'.answered == net.answered && net'.results == net.results;
  }

  /** A round opened at n disturbs neither other nodes nor other links. */
  lemma OpeningKeeps(sys: Sys, net: Net, net': Net, l: Ledger, l': Ledger, n: nat)
    requires sys.Ok() && net.Shape(sys.N(), sys.k) && net'.Shape(sys.N(), sys.k)
    requires |l| == |l'| == sys.N() && n < sys.N() && l' == l[n := l'[n]] && l'[n].got == l[n].got
    requires forall c :: 0 < c < sys.N() && c != n && !sys.IsChild(c, n) ==> LinkOk(sys, net, l, c)
    requires forall m :: 0 <= m < sys.N() && m != n ==> NodeOk(sys, net, l, m)
    requires net'.nodes == net.nodes[n := net'.nodes[n]] && net'.results == net.results
    requires forall c :: 0 < c < sys.N() && c != n && !sys.IsChild(c, n) ==>
               net'.down[c] == net.down[c] && net'.up[c] == net.up[c] && net'.asked[c] == net.asked[c] &&
               net'.handled[c] == net.handled[c] && net'.answered[c] == net.answered[c]
    requires NodeOk(sys, net', l', n)
    requires forall c :: 0 < c < sys.N() && (c == n || sys.IsChild(c, n)) ==> LinkOk(sys, net', l', c)
    ensures Inv(sys, net', l')
  {
    forall c | 0 < c < sys.N()
      ensures LinkOk(sys, net', l', c)
    {
      if c != n && !sys.IsChild(c, n) {
        assert LinkOk(sys, net, l, c);
      }
    }
    forall m | 0 <= m < sys.N()
      ensures NodeOk(sys, net', l', m)
    {
      if m != n {
        NodeUntouched(sys, net, net', l, l', m);
      }
    }
  }

  /** The consumer asks for its first round. */
  lemma StartOpens(sys: Sys, net: Net, l: Ledger) returns (l': Ledger)
    requires sys.Ok() && Inv(sys, net, l) && net.nodes[0].asEnd && sys.maxIteration > 0
    ensures Inv(sys, Next(sys, net, Start), l')
  {
    hide ChunkHolds, CountAbove, TreeVector, Between, Asked, Working, Answering, Resting;
    var net' := Next(sys, net, Start);
    ChildMeansKids(sys, 0, 1, sys.N());
    assert NodeOk(sys, net, l, 0);
    l' := l[0 := Entry(1, 0, l[0].got)];
    EmitAsks(sys, net, 0, net'.nodes[0], net.nodes[0].vsize);
    RestIsBetween(sys, net, l, 0);
    hide LinkOk, Emit;
    RoundOpens(sys, net, net', l, l', 0);
    OpeningKeeps(sys, net, net', l, l', 0);
  }

  /** A further Start, or one without iterations, sends nothing and changes only asEnd. */
  lemma StartIsIdle(sys: Sys, net: Net, l: Ledger)
    requires sys.Ok() && Inv(sys, net, l) && !(net.nodes[0].asEnd && sys.maxIteration > 0)
    ensures Next(sys, net, Start) == net.(nodes := net.nodes[0 := net.nodes[0].(asEnd := false)])
    ensures net.nodes[0].asEnd ==> sys.maxIteration == 0
  {
    hide ChunkHolds, CountAbove, TreeVector, Asked, Working, Answering, Resting;
    ChildMeansKids(sys, 0, 1, sys.N());
    assert NodeOk(sys, net, l, 0);
    var r := Avg(sys.Cfg(0), net.nodes[0]);
    OutsOne(Stop);
    EmitSilent(sys, net, 0, r.0, r.1);
  }

  lemma IdleKeeps(sys: Sys, net: Net, l: Ledger)
    requires sys.Ok() && Inv(sys, net, l) && (net.nodes[0].asEnd ==> sys.maxIteration == 0)
    ensures Inv(sys, net.(nodes := net.nodes[0 := net.nodes[0].(asEnd := false)]), l)
  {
    hide ChunkHolds, CountAbove, TreeVector, Asked, Working, Answering, Resting;
    var net' := net.(nodes := net.nodes[0 := net.nodes[0].(asEnd := false)]);
    forall c | 0 < c < sys.N()
      ensures LinkOk(sys, net', l, c)
    {
      assert LinkOk(sys, net, l, c);
    }
    forall m | 0 <= m < sys.N()
      ensures NodeOk(sys, net', l, m)
    {
      assert NodeOk(sys, net, l, m);
    }
  }

  lemma StartKeeps(sys: Sys, net: Net, l: Ledger) returns (l': Ledger)
    requires sys.Ok() && Inv(sys, net, l)
    ensures Inv(sys, Next(sys, net, Start), l')
  {
    l' := l;
    if net.nodes[0].asEnd && sys.maxIteration > 0 {
      l' := StartOpens(sys, net, l);
    } else {
      StartIsIdle(sys, net, l);
      IdleKeeps(sys, net, l);
    }
  }

  // ---- a request comes down ------------------------------------------------------------------

  lemma DownHead(sys: Sys, net: Net, l: Ledger, c: nat)
    requires sys.Ok() && Inv(sys, net, l) && 0 < c < sys.N() && net.down[c] != []
    ensures Asked(sys, l[c], l[sys.parent[c]], net.down[c], net.up[c])
    ensures CanHandle(sys.Cfg(c), net.down[c][0])
    ensures l[c].started + 1 <= sys.maxIteration
  {
    var p := sys.parent[c];
    assert LinkOk(sys, net, l, c);
    ChildMeansKids(sys, p, c, sys.N());
    assert NodeOk(sys, net, l, p);
  }

  lemma ReplyOuts(size: nat, v: seq<Word>, k: nat)
    requires 0 < k
    ensures var outs := [Requests(size), Reply(v)];
            RequestFrames(outs) == [Request(size)] && Vectors(outs) == [v] && Declared(outs) == [] &&
            SplitAll(Vectors(outs), k) == Split(v, k)
  {
    OutsTwo(Requests(size), Reply(v));
    OutsOne(Requests(size));
    OutsOne(Reply(v));
    SplitOne(v, k);
  }

  lemma EmitChildless(sys: Sys, net: Net, n: nat, s: State, outs: seq<Output>)
    requires 0 < sys.k && net.Shape(sys.N(), sys.k) && n < sys.N() && sys.Kids(n) == 0
    ensures Emit(sys, net, n, s, outs).down == net.down
    ensures Emit(sys, net, n, s, outs).asked == net.asked
  {
    forall d | 0 <= d < sys.N()
      ensures !sys.IsChild(d, n)
    {
      if sys.IsChild(d, n) {
        ChildMeansKids(sys, n, d, sys.N());
      }
    }
  }

  /** A producer answers at once, with the vector it draws. */
  lemma LeafAnswers(sys: Sys, net: Net, l: Ledger, c: nat)
    requires sys.Ok() && Inv(sys, net, l) && 0 < c < sys.N() && net.down[c] != []
    requires Enabled(sys, net, Down(c)) && sys.Kids(c) == 0
    ensures var net' := Next(sys, net, Down(c));
            && net'.nodes == net.nodes[c := net'.nodes[c]]
            && !net'.nodes[c].asEnd && net'.nodes[c].drawn == net.nodes[c].drawn + 1
            && net'.down == net.down[c := []]
            && net'.up == net.up[c := Split(TreeVector(sys, c, l[c].started), sys.k)]
            && net'.asked == net.asked && net'.results == net.results
            && net'.handled == net.handled[c := net.handled[c] + 1]
            && net'.answered == net.answered[c := net.answered[c] + 1]
  {
    DownHead(sys, net, l, c);
    assert NodeOk(sys, net, l, c);
    var v := RandomVector(sys.Cfg(c), net.nodes[c].drawn, sys.size);
    assert v == TreeVector(sys, c, l[c].started);
    var outs := Handle(sys.Cfg(c), net.nodes[c], net.down[c][0]).1;
    ReplyOuts(sys.size, v, sys.k);
    assert outs == [Requests(sys.size), Reply(v)];
    var got := net.(down := net.down[c := net.down[c][1..]],
                    handled := net.handled[c := net.handled[c] + 1]);
    assert net.up[c] + SplitAll(Vectors(outs), sys.k) == Split(v, sys.k);
    assert net.results[c] + Declared(outs) == net.results[c];
    EmitChildless(sys, got, c, Handle(sys.Cfg(c), net.nodes[c], net.down[c][0]).0, outs);
  }

  lemma LeafDownLink(sys: Sys, net: Net, l: Ledger, c: nat, d: nat)
    requires sys.Ok() && Inv(sys, net, l) && 0 < c < sys.N() && net.down[c] != []
    requires Enabled(sys, net, Down(c)) && sys.Kids(c) == 0 && 0 < d < sys.N()
    ensures LinkOk(sys, Next(sys, net, Down(c)), l[c := Entry(l[c].started + 1, l[c].done + 1, 0)], d)
  {
    hide ChunkHolds, CountAbove, TreeAvg, Next, CanHandle, TreeVector;
    DownHead(sys, net, l, c);
    LeafAnswers(sys, net, l, c);
    assert LinkOk(sys, net, l, d);
    if d == c {
      var net' := Next(sys, net, Down(c));
      assert net'.up[c] == net'.up[c][0..];
    } else if sys.IsChild(d, c) {
      ChildMeansKids(sys, c, d, sys.N());
    }
  }

  lemma LeafDown(sys: Sys, net: Net, l: Ledger, c: nat) returns (l': Ledger)
    requires sys.Ok() && Inv(sys, net, l) && 0 < c < sys.N() && net.down[c] != []
    requires Enabled(sys, net, Down(c)) && sys.Kids(c) == 0
    ensures Inv(sys, Next(sys, net, Down(c)), l')
  {
    DownHead(sys, net, l, c);
    LeafAnswers(sys, net, l, c);
    var net' := Next(sys, net, Down(c));
    l' := l[c := Entry(l[c].started + 1, l[c].done + 1, 0)];
    forall d | 0 < d < sys.N()
      ensures LinkOk(sys, net', l', d)
    {
      LeafDownLink(sys, net, l, c, d);
    }
    forall n | 0 <= n < sys.N()
      ensures NodeOk(sys, net', l', n)
    {
      assert NodeOk(sys, net, l, n);
      if n != c {
        NodeUntouched(sys, net, net', l, l', n);
      }
    }
  }

  /** The network as node c sees it while it handles the request at the head of its link. */
  function Popped(net: Net, c: nat): Net
    requires c < |net.down| && c < |net.handled| && net.down[c] != []
  {
    net.(down := net.down[c := net.down[c][1..]], handled := net.handled[c := net.handled[c] + 1])
  }

  /** An inner node passes the request on and waits. */
  lemma InnerAsks(sys: Sys, net: Net, l: Ledger, c: nat)
    requires sys.Ok() && Inv(sys, net, l) && 0 < c < sys.N() && net.down[c] != []
    requires Enabled(sys, net, Down(c)) && sys.Kids(c) > 0
    ensures var net' := Next(sys, net, Down(c));
            && net'.nodes == net.nodes[c := net.nodes[c].(vsize := sys.size, avg := Zeros(sys.size))]
            && net'.up == net.up && net'.answered == net.answered && net'.results == net.results
            && net'.handled == net.handled[c := net.handled[c] + 1]
            && |net'.down| == |net'.asked| == sys.N()
            && net'.down[c] == [] && net'.asked[c] == net.asked[c]
            && (forall d :: 0 <= d < sys.N() && d != c ==>
                  net'.down[d] == (if sys.IsChild(d, c) then net.down[d] + [Request(sys.size)] else net.down[d]))
            && (forall d :: 0 <= d < sys.N() && d != c ==>
                  net'.asked[d] == net.asked[d] + (if sys.IsChild(d, c) then 1 else 0))
  {
    hide Zeros, Sys.KidsBelow, NodeOk, LinkOk;
    DownHead(sys, net, l, c);
    assert !sys.IsChild(c, c);
    var s := net.nodes[c].(vsize := sys.size, avg := Zeros(sys.size));
    assert Handle(sys.Cfg(c), net.nodes[c], net.down[c][0]) == (s, [Requests(sys.size)]);
    hide Handle, Inv;
    EmitAsks(sys, Popped(net, c), c, s, sys.size);
  }

  lemma InnerDown(sys: Sys, net: Net, l: Ledger, c: nat) returns (l': Ledger)
    requires sys.Ok() && Inv(sys, net, l) && 0 < c < sys.N() && net.down[c] != []
    requires Enabled(sys, net, Down(c)) && sys.Kids(c) > 0
    ensures Inv(sys, Next(sys, net, Down(c)), l')
  {
    hide ChunkHolds, CountAbove, TreeVector, Sys.KidsBelow, Next, Between;
    DownHead(sys, net, l, c);
    InnerAsks(sys, net, l, c);
    var net' := Next(sys, net, Down(c));
    assert NodeOk(sys, net, l, c) && LinkOk(sys, net, l, c);
    l' := l[c := Entry(l[c].started + 1, l[c].done, 0)];
    assert forall d :: 0 < d < sys.N() && sys.IsChild(d, c) ==> d != c;
    RestIsBetween(sys, net, l, c);
    RoundOpens(sys, net, net', l, l', c);
    assert LinkOk(sys, net', l', c);
    OpeningKeeps(sys, net, net', l, l', c);
  }

  // ---- a block comes up ----------------------------------------------------------------------

  lemma UpHead(sys: Sys, net: Net, l: Ledger, c: nat)
    requires sys.Ok() && Inv(sys, net, l) && 0 < c < sys.N() && net.up[c] != []
    ensures var p := sys.parent[c];
            && p < c && sys.Kids(p) > 0
            && Answering(sys, c, l[c], l[p], net.down[c], net.up[c])
            && l[c].got < sys.Blocks()
            && net.up[c][0] == ChunkFrame(TreeVector(sys, c, l[p].done), sys.k, l[c].got)
            && net.up[c][1..] == Split(TreeVector(sys, c, l[p].done), sys.k)[l[c].got + 1..]
            && CanHandle(sys.Cfg(p), net.up[c][0])
  {
    assert LinkOk(sys, net, l, c);
    ChildMeansKids(sys, sys.parent[c], c, sys.N());
  }

  /** Nothing gets stuck on an assertion: the frame at the head of a link can always be handled. */
  lemma HeadsCanBeHandled(sys: Sys, net: Net, l: Ledger, c: nat)
    requires sys.Ok() && Inv(sys, net, l) && 0 < c < sys.N()
    ensures net.down[c] != [] ==> Enabled(sys, net, Down(c))
    ensures net.up[c] != [] ==> Enabled(sys, net, Up(c))
  {
    if net.down[c] != [] {
      DownHead(sys, net, l, c);
    }
    if net.up[c] != [] {
      UpHead(sys, net, l, c);
    }
  }

  lemma ElementGains(sys: Sys, l: Ledger, l': Ledger, p: nat, c: nat, was: nat, count: nat, block: Word, at: nat)
    requires sys.Ok() && p < sys.N() == |l| == |l'| && sys.Kids(p) > 0
    requires c < sys.N() && sys.IsChild(c, p)
    requires l' == l[c := l'[c]] && l'[c].got == l[c].got + 1
    requires block == TreeAvg(sys, c, l[p].done, at) && count < sys.Kids(p)
    requires was == Level(SumAbove(sys, l, p, l[p].done, l[c].got, at, sys.N()), count, sys.Kids(p))
    ensures var sum := (was + block) % WORD;
      Level(SumAbove(sys, l', p, l[p].done, l[c].got, at, sys.N()), count + 1, sys.Kids(p)) ==
        if count + 1 == sys.Kids(p) then sum / sys.Kids(p) else sum
  {
    hide CountAbove, SumAbove, TreeAvg, KidSum, Sys.KidsBelow, Level;
    SumsGain(sys, l, l', p, l[p].done, l[c].got, at, c, sys.N());
    LevelGains(SumAbove(sys, l, p, l[p].done, l[c].got, at, sys.N()), block, count, sys.Kids(p));
  }

  lemma ChunkGains(sys: Sys, l: Ledger, l': Ledger, p: nat, c: nat, old': Chunk)
    requires sys.Ok() && p < sys.N() == |l| == |l'| && sys.Kids(p) > 0
    requires c < sys.N() && sys.IsChild(c, p) && l[c].got < sys.Blocks()
    requires l' == l[c := l'[c]] && l'[c].got == l[c].got + 1
    requires ChunkHolds(sys, l, p, l[p].done, l[c].got, old')
    ensures ChunkHolds(sys, l', p, l[p].done, l[c].got,
                       Bumped(old', Block(TreeVector(sys, c, l[p].done), sys.k, l[c].got), sys.Kids(p)))
  {
    hide CountAbove, SumAbove, TreeAvg, KidSum, Sys.KidsBelow, Bumped, Level;
    var i, r, n := l[c].got, l[p].done, sys.N();
    SumsGain(sys, l, l', p, r, i, 0, c, n);
    var block := Block(TreeVector(sys, c, r), sys.k, i);
    SliceFits(sys.size, sys.k, i);
    BumpedAt(old', block, sys.Kids(p), 0);
    forall j | 0 <= j < sys.k
      ensures Bumped(old', block, sys.Kids(p)).data[j] ==
              Level(SumAbove(sys, l', p, r, i, i * sys.k + j, n), old'.count + 1, sys.Kids(p))
    {
      assert block[j] == TreeAvg(sys, c, r, i * sys.k + j);
      ElementGains(sys, l, l', p, c, old'.data[j], old'.count, block[j], i * sys.k + j);
      BumpedAt(old', block, sys.Kids(p), j);
    }
  }

  /** The chunk table of p once it has taken the block at the head of the link from c. */
  ghost function TableAfter(sys: Sys, net: Net, l: Ledger, c: nat): map<nat, Chunk>
    requires sys.Ok() && Inv(sys, net, l) && 0 < c < sys.N() && net.up[c] != []
  {
    UpHead(sys, net, l, c);
    var p, i := sys.parent[c], l[c].got;
    var s := net.nodes[p];
    s.chunks[i * sys.k := Bumped(ChunkAt(s.chunks, sys.k, i * sys.k),
                                 Block(TreeVector(sys, c, l[p].done), sys.k, i), sys.Kids(p))]
  }

  ghost function TakenFrom(l: Ledger, c: nat): Ledger
    requires c < |l|
  {
    l[c := l[c].(got := l[c].got + 1)]
  }

  lemma TableHolds(sys: Sys, net: Net, l: Ledger, c: nat)
    requires sys.Ok() && Inv(sys, net, l) && 0 < c < sys.N() && net.up[c] != []
    ensures var p := sys.parent[c];
            p < sys.N() && sys.Kids(p) > 0 &&
            forall i :: 0 <= i < sys.Blocks() ==>
              ChunkHolds(sys, TakenFrom(l, c), p, l[p].done, i, ChunkAt(TableAfter(sys, net, l, c), sys.k, i * sys.k))
  {
    hide ChunkHolds, CountAbove, Bumped, TreeVector;
    UpHead(sys, net, l, c);
    var p := sys.parent[c];
    var l' := TakenFrom(l, c);
    assert NodeOk(sys, net, l, p);
    forall i | 0 <= i < sys.Blocks()
      ensures ChunkHolds(sys, l', p, l[p].done, i, ChunkAt(TableAfter(sys, net, l, c), sys.k, i * sys.k))
    {
      var was := ChunkAt(net.nodes[p].chunks, sys.k, i * sys.k);
      assert ChunkHolds(sys, l, p, l[p].done, i, was);
      if i == l[c].got {
        ChunkGains(sys, l, l', p, c, was);
      } else {
        DivMod(i, sys.k, 0);
        DivMod(l[c].got, sys.k, 0);
        ChunkFrameRule(sys, l, l', p, l[p].done, i, was);
      }
    }
  }

  /** Every child of n has delivered all its blocks. */
  ghost predicate AllDelivered(sys: Sys, l: Ledger, n: nat)
    requires 0 < sys.k && |l| == sys.N()
  {
    forall c :: 0 <= c < sys.N() && sys.IsChild(c, n) ==> l[c].got >= sys.Blocks()
  }

  lemma BlockFull(sys: Sys, l: Ledger, n: nat, r: nat, i: nat, c: Chunk)
    requires sys.Ok() && n < sys.N() == |l| && sys.Kids(n) > 0 && i < sys.Blocks() && ChunkHolds(sys, l, n, r, i, c)
    ensures AllDelivered(sys, l, n) ==> c.count == sys.Kids(n)
    ensures i == sys.Blocks() - 1 && c.count == sys.Kids(n) ==> AllDelivered(sys, l, n)
    ensures c.count == CountAbove(sys, l, n, i, sys.N())
  {
    SumsAll(sys, l, n, r, i, 0, sys.N());
  }

  /** The completeness test of AvgEnd sees exactly whether every child has delivered everything. */
  lemma CompleteIffAllDelivered(sys: Sys, l: Ledger, n: nat, r: nat, chunks: map<nat, Chunk>)
    requires sys.Ok() && n < sys.N() == |l| && sys.Kids(n) > 0 && sys.Blocks() > 0
    requires forall i :: 0 <= i < sys.Blocks() ==> ChunkHolds(sys, l, n, r, i, ChunkAt(chunks, sys.k, i * sys.k))
    ensures Complete(sys.Cfg(n), chunks, sys.size) <==> AllDelivered(sys, l, n)
    ensures AllDelivered(sys, l, n) <==> CountAbove(sys, l, n, sys.Blocks() - 1, sys.N()) == sys.Kids(n)
  {
    hide ChunkHolds, CountAbove, AllDelivered, Sys.KidsBelow;
    var last := sys.Blocks() - 1;
    BlockFull(sys, l, n, r, last, ChunkAt(chunks, sys.k, last * sys.k));
    forall i | 0 <= i < sys.Blocks()
      ensures AllDelivered(sys, l, n) ==> i * sys.k in chunks && chunks[i * sys.k].count == sys.Kids(n)
    {
      BlockFull(sys, l, n, r, i, ChunkAt(chunks, sys.k, i * sys.k));
    }
  }

  lemma FullChunkAt(sys: Sys, l: Ledger, n: nat, r: nat, c: Chunk, i: nat, j: nat)
    requires sys.Ok() && n < sys.N() == |l| && sys.Kids(n) > 0 && i < sys.Blocks() && j < sys.k
    requires AllDelivered(sys, l, n) && ChunkHolds(sys, l, n, r, i, c)
    ensures c.data[j] == TreeAvg(sys, n, r, i * sys.k + j)
  {
    SumsAll(sys, l, n, r, i, i * sys.k + j, sys.N());
  }

  /** What is assembled from a full table is the average of the tree. */
  lemma AssembledIsTree(sys: Sys, l: Ledger, n: nat, r: nat, chunks: map<nat, Chunk>, into: seq<Word>)
    requires sys.Ok() && n < sys.N() == |l| && sys.Kids(n) > 0 && |into| == sys.size
    requires forall off :: off in chunks ==> |chunks[off].data| == sys.k
    requires forall i :: 0 <= i < sys.Blocks() ==> ChunkHolds(sys, l, n, r, i, ChunkAt(chunks, sys.k, i * sys.k))
    requires AllDelivered(sys, l, n)
    ensures Assembled(into, sys.k, chunks) == TreeVector(sys, n, r)
  {
    var out, tree := Assembled(into, sys.k, chunks), TreeVector(sys, n, r);
    forall p | 0 <= p < sys.size
      ensures out[p] == tree[p]
    {
      var i, j := AssembledAt(into, sys.k, chunks, p);
      FullChunkAt(sys, l, n, r, ChunkAt(chunks, sys.k, i * sys.k), i, j);
    }
  }

  /** The state of p with the block taken in, before AvgEnd looks at it. */
  ghost function Absorbed(sys: Sys, net: Net, l: Ledger, c: nat): State
    requires sys.Ok() && Inv(sys, net, l) && 0 < c < sys.N() && net.up[c] != []
  {
    UpHead(sys, net, l, c);
    net.nodes[sys.parent[c]].(chunks := TableAfter(sys, net, l, c))
  }

  lemma AbsorbedFacts(sys: Sys, net: Net, l: Ledger, c: nat)
    requires sys.Ok() && Inv(sys, net, l) && 0 < c < sys.N() && net.up[c] != []
    requires Enabled(sys, net, Up(c))
    ensures sys.parent[c] < sys.N() && Absorbed(sys, net, l, c).Ok(sys.k)
    ensures var p := sys.parent[c];
            var s := Absorbed(sys, net, l, c);
            && !s.asEnd && s.vsize == |s.avg| == sys.size && s.curIter == l[p].done < sys.maxIteration
            && (Complete(sys.Cfg(p), s.chunks, s.vsize) <==> AllDelivered(sys, TakenFrom(l, c), p))
            && (Handle(sys.Cfg(p), net.nodes[p], net.up[c][0]) == AvgEnd(sys.Cfg(p), s)
                || (Handle(sys.Cfg(p), net.nodes[p], net.up[c][0]) == (s, []) &&
                    !AllDelivered(sys, TakenFrom(l, c), p)))
  {
    hide SumAbove, TreeAvg, TreeVector, CountAbove, Sys.KidsBelow;
    UpHead(sys, net, l, c);
    var p, i := sys.parent[c], l[c].got;
    var table := TableAfter(sys, net, l, c);
    var l' := TakenFrom(l, c);
    assert NodeOk(sys, net, l, p);
    TableHolds(sys, net, l, c);
    CompleteIffAllDelivered(sys, l', p, l[p].done, table);
    SumsAll(sys, l', p, l[p].done, i, 0, sys.N());
    assert ChunkHolds(sys, l', p, l[p].done, i, ChunkAt(table, sys.k, i * sys.k));
    assert AllDelivered(sys, l', p) ==> table[i * sys.k].count == sys.Kids(p);
  }

  /** Taking a block either only changes the table, or completes the round with the tree's average. */
  lemma ResponseMeaning(sys: Sys, net: Net, l: Ledger, c: nat)
    requires sys.Ok() && Inv(sys, net, l) && 0 < c < sys.N() && net.up[c] != []
    requires Enabled(sys, net, Up(c))
    ensures sys.parent[c] < sys.N()
    ensures var p := sys.parent[c];
            var s := Absorbed(sys, net, l, c);
            var last := p > 0 || l[p].done + 1 >= sys.maxIteration;
            var avg := TreeVector(sys, p, l[p].done);
            Handle(sys.Cfg(p), net.nodes[p], net.up[c][0]) ==
              if AllDelivered(sys, TakenFrom(l, c), p) then
                (s.(curIter := s.curIter + 1, avg := avg, chunks := Cleared(s.chunks, sys.k)),
                 [Responses(avg), if last then Stop else Requests(sys.size)])
              else (s, [])
  {
    var p := sys.parent[c];
    AbsorbedFacts(sys, net, l, c);
    var s := Absorbed(sys, net, l, c);
    AvgEndCases(sys.Cfg(p), s);
    if AllDelivered(sys, TakenFrom(l, c), p) {
      TableHolds(sys, net, l, c);
      AssembledIsTree(sys, TakenFrom(l, c), p, l[p].done, s.chunks, s.avg);
    }
  }

  /** A block that does not complete the round. */
  lemma UpPartKeeps(sys: Sys, net: Net, l: Ledger, c: nat) returns (l': Ledger)
    requires sys.Ok() && Inv(sys, net, l) && 0 < c < sys.N() && net.up[c] != []
    requires Enabled(sys, net, Up(c)) && !AllDelivered(sys, TakenFrom(l, c), sys.parent[c])
    ensures Inv(sys, Next(sys, net, Up(c)), l')
  {
    hide ChunkHolds, CountAbove, TreeVector, Handle, TableAfter, Sys.KidsBelow;
    UpHead(sys, net, l, c);
    ResponseMeaning(sys, net, l, c);
    var p := sys.parent[c];
    var net' := Next(sys, net, Up(c));
    EmitSilent(sys, net.(up := net.up[c := net.up[c][1..]]), p, Absorbed(sys, net, l, c), []);
    l' := TakenFrom(l, c);
    TableHolds(sys, net, l, c);
    CompleteIffAllDelivered(sys, l', p, l[p].done, net'.nodes[p].chunks);
    forall d | 0 < d < sys.N()
      ensures LinkOk(sys, net', l', d)
    {
      assert LinkOk(sys, net, l, d);
    }
    forall n | 0 <= n < sys.N()
      ensures NodeOk(sys, net', l', n)
    {
      assert NodeOk(sys, net, l, n);
      if n != p {
        NodeUntouched(sys, net, net', l, l', n);
      }
    }
  }

  /** Bookkeeping when n finishes its round: nothing is outstanding below it any more. */
  ghost function Finished(sys: Sys, l: Ledger, n: nat): (l': Ledger)
    requires |l| == sys.N()
    ensures |l'| == |l|
  {
    seq(|l|, d requires 0 <= d < |l| =>
      if sys.IsChild(d, n) then l[d].(got := 0)
      else if d == n then l[d].(done := l[d].done + 1) else l[d])
  }

  lemma AbsorbedOk(sys: Sys, net: Net, l: Ledger, c: nat)
    requires sys.Ok() && Inv(sys, net, l) && 0 < c < sys.N() && net.up[c] != []
    ensures sys.parent[c] < sys.N()
    ensures Absorbed(sys, net, l, c).Ok(sys.k)
    ensures Absorbed(sys, net, l, c).vsize == sys.size
    ensures Absorbed(sys, net, l, c).curIter + 1 < 0x1_0000
  {
    UpHead(sys, net, l, c);
    HeadsCanBeHandled(sys, net, l, c);
    AbsorbedFacts(sys, net, l, c);
  }

  /** The state in which n has closed its round and answered, but not yet opened another. */
  ghost function Closed(sys: Sys, net: Net, l: Ledger, c: nat): (net': Net)
    requires sys.Ok() && Inv(sys, net, l) && 0 < c < sys.N() && net.up[c] != []
    ensures net'.Shape(sys.N(), sys.k)
  {
    UpHead(sys, net, l, c);
    AbsorbedOk(sys, net, l, c);
    var p := sys.parent[c];
    var s := Absorbed(sys, net, l, c);
    var avg := TreeVector(sys, p, l[p].done);
    var s' := s.(curIter := s.curIter + 1, avg := avg, chunks := Cleared(s.chunks, sys.k));
    var up := net.up[c := net.up[c][1..]];
    net.(nodes := net.nodes[p := s'],
         up := if p == 0 then up else up[p := Split(avg, sys.k)],
         answered := net.answered[p := net.answered[p] + if p == 0 then 0 else 1],
         results := net.results[p := net.results[p] + [avg]])
  }

  /** Below a node whose children have all delivered, every link is empty and every child is done. */
  lemma DeliveredMeansRested(sys: Sys, net: Net, l: Ledger, c: nat, d: nat)
    requires sys.Ok() && Inv(sys, net, l) && 0 < c < sys.N() && net.up[c] != []
    requires AllDelivered(sys, TakenFrom(l, c), sys.parent[c])
    requires d < sys.N() && sys.IsChild(d, sys.parent[c])
    ensures var p := sys.parent[c];
            var net' := Closed(sys, net, l, c);
            var l' := Finished(sys, l, p);
            LinkOk(sys, net', l', d) && Resting(l'[d], l'[p], net'.down[d], net'.up[d])
  {
    UpHead(sys, net, l, c);
    assert LinkOk(sys, net, l, d);
    var p := sys.parent[c];
    assert TakenFrom(l, c)[d].got >= sys.Blocks() > 0;
    assert Answering(sys, d, l[d], l[p], net.down[d], net.up[d]);
    assert p < d;
  }

  lemma ClearedHolds(sys: Sys, l: Ledger, n: nat, r: nat, i: nat, chunks: map<nat, Chunk>)
    requires sys.Ok() && n < sys.N() == |l| && sys.Kids(n) > 0
    requires forall d :: 0 <= d < sys.N() && sys.IsChild(d, n) ==> l[d].got == 0
    ensures ChunkHolds(sys, l, n, r, i, ChunkAt(Cleared(chunks, sys.k), sys.k, i * sys.k))
  {
    NothingDelivered(sys, l, n, r, i);
  }

  lemma ClosedIsBetween(sys: Sys, net: Net, l: Ledger, c: nat)
    requires sys.Ok() && Inv(sys, net, l) && 0 < c < sys.N() && net.up[c] != []
    requires AllDelivered(sys, TakenFrom(l, c), sys.parent[c])
    ensures sys.parent[c] < sys.N() && sys.Kids(sys.parent[c]) > 0
    ensures Between(sys, Closed(sys, net, l, c), Finished(sys, l, sys.parent[c]), sys.parent[c])
  {
    hide ChunkHolds, CountAbove, LinkOk, Resting, Sys.KidsBelow, TableAfter, Cleared;
    UpHead(sys, net, l, c);
    var p := sys.parent[c];
    var net', l' := Closed(sys, net, l, c), Finished(sys, l, p);
    assert NodeOk(sys, net, l, p);
    forall d | 0 <= d < sys.N() && sys.IsChild(d, p)
      ensures LinkOk(sys, net', l', d) && Resting(l'[d], l'[p], net'.down[d], net'.up[d])
    {
      DeliveredMeansRested(sys, net, l, c, d);
    }
    forall i | 0 <= i < sys.Blocks()
      ensures ChunkHolds(sys, l', p, l'[p].done, i, ChunkAt(net'.nodes[p].chunks, sys.k, i * sys.k))
    {
      ClearedHolds(sys, l', p, l'[p].done, i, Absorbed(sys, net, l, c).chunks);
    }
  }

  /** Closing a round at p touches nothing above the link to its parent and nothing further below. */
  lemma ClosedElsewhere(sys: Sys, net: Net, l: Ledger, c: nat)
    requires sys.Ok() && Inv(sys, net, l) && 0 < c < sys.N() && net.up[c] != []
    requires AllDelivered(sys, TakenFrom(l, c), sys.parent[c])
    ensures var p := sys.parent[c];
            var net' := Closed(sys, net, l, c);
            var l' := Finished(sys, l, p);
            && (forall d :: 0 < d < sys.N() && !sys.IsChild(d, p) ==> LinkOk(sys, net', l', d))
            && (forall n :: 0 <= n < sys.N() && n != p ==> NodeOk(sys, net', l', n))
  {
    hide ChunkHolds, CountAbove, Sys.KidsBelow, TableAfter, Cleared;
    UpHead(sys, net, l, c);
    var p := sys.parent[c];
    var net', l' := Closed(sys, net, l, c), Finished(sys, l, p);
    forall d | 0 < d < sys.N() && !sys.IsChild(d, p)
      ensures LinkOk(sys, net', l', d)
    {
      assert LinkOk(sys, net, l, d);
      if d == p {
        assert Working(l[p], l[sys.parent[p]], net.down[p], net.up[p]);
        assert net'.up[p] == net'.up[p][0..];
        assert Answering(sys, p, l'[p], l'[sys.parent[p]], net'.down[p], net'.up[p]);
      }
    }
    forall n | 0 <= n < sys.N() && n != p
      ensures NodeOk(sys, net', l', n)
    {
      assert NodeOk(sys, net, l, n);
      NodeUntouched(sys, net, net', l, l', n);
    }
  }

  /** A node that will not open another round is settled once it has closed this one. */
  lemma ClosedKeeps(sys: Sys, net: Net, l: Ledger, c: nat)
    requires sys.Ok() && Inv(sys, net, l) && 0 < c < sys.N() && net.up[c] != []
    requires AllDelivered(sys, TakenFrom(l, c), sys.parent[c])
    requires sys.parent[c] > 0 || l[0].done + 1 >= sys.maxIteration
    ensures Inv(sys, Closed(sys, net, l, c), Finished(sys, l, sys.parent[c]))
  {
    UpHead(sys, net, l, c);
    var p := sys.parent[c];
    var net', l' := Closed(sys, net, l, c), Finished(sys, l, p);
    assert NodeOk(sys, net, l, p);
    AbsorbedOk(sys, net, l, c);
    ClosedIsBetween(sys, net, l, c);
    ClosedElsewhere(sys, net, l, c);
    assert NodeOk(sys, net', l', p);
  }

  lemma FinishOuts(avg: seq<Word>, b: Output, k: nat)
    requires 0 < k && (b.Stop? || b.Requests?)
    ensures RequestFrames([Responses(avg), b]) == if b.Requests? then [Request(b.size)] else []
    ensures Vectors([Responses(avg), b]) == [avg] && Declared([Responses(avg), b]) == [avg]
    ensures SplitAll([avg], k) == Split(avg, k)
  {
    OutsTwo(Responses(avg), b);
    OutsOne(Responses(avg));
    OutsOne(b);
    SplitOne(avg, k);
  }

  /** The network once p has become s and sent avg up, and nothing else. */
  function Answered(sys: Sys, net: Net, p: nat, s: State, avg: seq<Word>): Net
    requires 0 < sys.k && net.Shape(sys.N(), sys.k) && p < sys.N()
  {
    net.(nodes := net.nodes[p := s],
         up := if p == 0 then net.up else net.up[p := Split(avg, sys.k)],
         answered := net.answered[p := net.answered[p] + if p == 0 then 0 else 1],
         results := net.results[p := net.results[p] + [avg]])
  }

  lemma EmitStop(sys: Sys, net: Net, p: nat, s: State, avg: seq<Word>)
    requires 0 < sys.k && net.Shape(sys.N(), sys.k) && p < sys.N() && (p > 0 ==> net.up[p] == [])
    ensures Emit(sys, net, p, s, [Responses(avg), Stop]) == Answered(sys, net, p, s, avg)
  {
    FinishOuts(avg, Stop, sys.k);
    EmitAsksNobody(sys, net, p, s, [Responses(avg), Stop]);
    var a, b := Emit(sys, net, p, s, [Responses(avg), Stop]), Answered(sys, net, p, s, avg);
    assert a.up == b.up by {
      assert p > 0 ==> net.up[p] + Split(avg, sys.k) == Split(avg, sys.k);
      assert p == 0 ==> net.up[p] + [] == net.up[p];
    }
  }

  lemma EmitNextRound(sys: Sys, net: Net, s: State, avg: seq<Word>, size: nat)
    requires 0 < sys.k && net.Shape(sys.N(), sys.k) && 0 < sys.N() && s.Ok(sys.k)
    ensures Emit(sys, net, 0, s, [Responses(avg), Requests(size)]) ==
            Emit(sys, Answered(sys, net, 0, s, avg), 0, s, [Requests(size)])
  {
    hide Split, SplitAll, Vectors, RequestFrames, Declared;
    FinishOuts(avg, Requests(size), sys.k);
    OutsOne(Requests(size));
    var mid := Answered(sys, net, 0, s, avg);
    var a, b := Emit(sys, net, 0, s, [Responses(avg), Requests(size)]), Emit(sys, mid, 0, s, [Requests(size)]);
    assert a.down == b.down;
    assert a.asked == b.asked;
    assert a.results == b.results by {
      assert mid.results[0] + [] == mid.results[0];
    }
  }

  /** What the last block does to the network: the round closes, and the consumer may open the next. */
  lemma LastBlock(sys: Sys, net: Net, l: Ledger, c: nat)
    requires sys.Ok() && Inv(sys, net, l) && 0 < c < sys.N() && net.up[c] != []
    requires Enabled(sys, net, Up(c)) && AllDelivered(sys, TakenFrom(l, c), sys.parent[c])
    ensures var p := sys.parent[c];
            var mid := Closed(sys, net, l, c);
            Next(sys, net, Up(c)) ==
              if p > 0 || l[p].done + 1 >= sys.maxIteration then mid
              else Emit(sys, mid, p, mid.nodes[p], [Requests(sys.size)])
  {
    hide ChunkHolds, CountAbove, Sys.KidsBelow, TableAfter, Cleared, Split, TreeVector, AllDelivered, Handle, CanHandle;
    UpHead(sys, net, l, c);
    ResponseMeaning(sys, net, l, c);
    var p := sys.parent[c];
    var mid := Closed(sys, net, l, c);
    var avg := TreeVector(sys, p, l[p].done);
    var popped := net.(up := net.up[c := net.up[c][1..]]);
    assert mid == Answered(sys, popped, p, mid.nodes[p], avg);
    assert p > 0 ==> popped.up[p] == [] by {
      assert NodeOk(sys, net, l, p) && (p > 0 ==> LinkOk(sys, net, l, p));
    }
    if p > 0 || l[p].done + 1 >= sys.maxIteration {
      EmitStop(sys, popped, p, mid.nodes[p], avg);
    } else {
      EmitNextRound(sys, popped, mid.nodes[p], avg, sys.size);
    }
  }

  /** The consumer asks again once everything below it is at rest. */
  lemma NextRoundOpens(sys: Sys, mid: Net, rest: Ledger) returns (l': Ledger)
    requires sys.Ok() && mid.Shape(sys.N(), sys.k) && |rest| == sys.N() && sys.Kids(0) > 0
    requires Between(sys, mid, rest, 0) && rest[0].done < sys.maxIteration
    requires mid.nodes[0].vsize == sys.size && !mid.nodes[0].asEnd
    requires forall c :: 0 < c < sys.N() && !sys.IsChild(c, 0) ==> LinkOk(sys, mid, rest, c)
    requires forall m :: 0 < m < sys.N() ==> NodeOk(sys, mid, rest, m)
    ensures Inv(sys, Emit(sys, mid, 0, mid.nodes[0], [Requests(sys.size)]), l')
  {
    var net' := Emit(sys, mid, 0, mid.nodes[0], [Requests(sys.size)]);
    EmitAsks(sys, mid, 0, mid.nodes[0], sys.size);
    l' := rest[0 := Entry(rest[0].started + 1, rest[0].done, rest[0].got)];
    RoundOpens(sys, mid, net', rest, l', 0);
    OpeningKeeps(sys, mid, net', rest, l', 0);
  }

  /** The consumer closes a round and opens the next in the same step. */
  lemma ReopenKeeps(sys: Sys, net: Net, l: Ledger, c: nat) returns (l': Ledger)
    requires sys.Ok() && Inv(sys, net, l) && 0 < c < sys.N() && net.up[c] != []
    requires AllDelivered(sys, TakenFrom(l, c), sys.parent[c])
    requires sys.parent[c] == 0 && l[0].done + 1 < sys.maxIteration
    ensures var mid := Closed(sys, net, l, c);
            Inv(sys, Emit(sys, mid, 0, mid.nodes[0], [Requests(sys.size)]), l')
  {
    UpHead(sys, net, l, c);
    AbsorbedOk(sys, net, l, c);
    ClosedIsBetween(sys, net, l, c);
    ClosedElsewhere(sys, net, l, c);
    var mid, rest := Closed(sys, net, l, c), Finished(sys, l, 0);
    assert NodeOk(sys, net, l, 0);
    l' := NextRoundOpens(sys, mid, rest);
  }

  lemma UpLastKeeps(sys: Sys, net: Net, l: Ledger, c: nat) returns (l': Ledger)
    requires sys.Ok() && Inv(sys, net, l) && 0 < c < sys.N() && net.up[c] != []
    requires Enabled(sys, net, Up(c)) && AllDelivered(sys, TakenFrom(l, c), sys.parent[c])
    ensures Inv(sys, Next(sys, net, Up(c)), l')
  {
    UpHead(sys, net, l, c);
    LastBlock(sys, net, l, c);
    var p := sys.parent[c];
    var mid := Closed(sys, net, l, c);
    l' := Finished(sys, l, p);
    if p > 0 || l[p].done + 1 >= sys.maxIteration {
      ClosedKeeps(sys, net, l, c);
    } else {
      l' := ReopenKeeps(sys, net, l, c);
    }
  }

  // ---- every step, every run -----------------------------------------------------------------

  lemma StepKeeps(sys: Sys, net: Net, l: Ledger, e: Event) returns (l': Ledger)
    requires sys.Ok() && Inv(sys, net, l) && Enabled(sys, net, e)
    ensures Inv(sys, Next(sys, net, e), l')
  {
    match e
    case Start =>
      l' := StartKeeps(sys, net, l);
    case Down(c) =>
      if sys.Kids(c) == 0 {
        l' := LeafDown(sys, net, l, c);
      } else {
        l' := InnerDown(sys, net, l, c);
      }
    case Up(c) =>
      if AllDelivered(sys, TakenFrom(l, c), sys.parent[c]) {
        l' := UpLastKeeps(sys, net, l, c);
      } else {
        l' := UpPartKeeps(sys, net, l, c);
      }
  }
}
