/** The bound on the vector length is exact: one block more than fits, and some run overruns the ring. */
module Overflow {
  import opened Bytes
  import opened Ring
  import opened Codec
  import opened Node
  import opened Network
  import opened Lockstep
  import opened Stream
  import opened ByteNetwork
  import opened Guarantees
  import opened Buffers

  lemma ArriveDownSound(sys: Sys, w: World, net: Net, l: Ledger, c: nat, n: nat)
    requires sys.Ok() && Sound(sys, w, net, l) && Possible(sys, w, ArriveDown(c, n))
    ensures Sound(sys, After(sys, w, ArriveDown(c, n)), net, l)
  {
    ArriveKeepsBytes(w.down[c], n);
  }

  lemma BeginSound(sys: Sys, w: World, net: Net, l: Ledger) returns (l': Ledger)
    requires sys.Ok() && Sound(sys, w, net, l)
    ensures Sound(sys, After(sys, w, Begin), Next(sys, net, Start), l')
  {
    BeginRefines(sys, w, net);
    l' := StepKeeps(sys, net, l, Start);
  }

  lemma TakeDownSound(sys: Sys, w: World, net: Net, l: Ledger, c: nat) returns (l': Ledger)
    requires sys.Ok() && Sound(sys, w, net, l) && Possible(sys, w, TakeDown(c))
    ensures Enabled(sys, net, Down(c))
    ensures Sound(sys, After(sys, w, TakeDown(c)), Next(sys, net, Down(c)), l')
  {
    TakeDownRefines(sys, w, net, c);
    l' := StepKeeps(sys, net, l, Down(c));
  }

  /** A run whose last state has a request on the link down to c stands for net and l. */
  ghost predicate AsksAt(sys: Sys, ws: seq<World>, net: Net, l: Ledger, c: nat)
    requires sys.Ok() && 0 < c < sys.N()
  {
    IsRun(sys, ws) && Sound(sys, ws[|ws| - 1], net, l) && net.down[c] == [Request(sys.size)]
  }

  /** A request that has arrived whole can be taken. */
  lemma WholeRequest(sys: Sys, w: World, net: Net, l: Ledger, c: nat)
    requires sys.Ok() && 0 < c < sys.N() && Sound(sys, w, net, l) && net.down[c] == [Request(sys.size)]
    requires w.down[c].flight == []
    ensures Possible(sys, w, TakeDown(c))
  {
    assert Carries(w.down[c], net.down[c], REQUEST_STRIDE);
    assert w.down[c].Bytes() == w.down[c].ring.contents;
    OneRequestLength(sys);
    TakeSeesFirstFrame(w.down[c], net.down[c], REQUEST_STRIDE);
    hide Inv, WireAll, Carries;
    PassCannotFail(sys, w, net, l, c);
  }

  /** Let the rest of the request arrive. */
  lemma RequestArrives(sys: Sys, ws: seq<World>, net: Net, l: Ledger, c: nat) returns (vs: seq<World>)
    requires sys.Ok() && 0 < c < sys.N() && AsksAt(sys, ws, net, l, c)
    ensures AsksAt(sys, vs, net, l, c) && Possible(sys, vs[|vs| - 1], TakeDown(c))
  {
    vs := ws;
    var w := ws[|ws| - 1];
    assert Carries(w.down[c], net.down[c], REQUEST_STRIDE);
    hide Inv, WireAll;
    OneRequestLength(sys);
    var n := |w.down[c].flight|;
    if n > 0 {
      ArriveDownSound(sys, w, net, l, c, n);
      RunExtends(sys, ws, ArriveDown(c, n));
      vs := ws + [After(sys, w, ArriveDown(c, n))];
    }
    WholeRequest(sys, vs[|vs| - 1], net, l, c);
  }

  lemma FirstRequest(sys: Sys, c: nat)
    requires sys.Ok() && sys.maxIteration > 0 && 0 < c < sys.N() && sys.parent[c] == 0
    ensures Next(sys, Initial(sys), Start).down[c] == [Request(sys.size)]
  {
    hide Zeros, Fill;
    EmitAsks(sys, Initial(sys), 0, Next(sys, Initial(sys), Start).nodes[0], sys.size);
  }

  lemma WakeTop(sys: Sys, c: nat) returns (ws: seq<World>, net: Net, l: Ledger)
    requires sys.Ok() && sys.maxIteration > 0 && 0 < c < sys.N() && sys.parent[c] == 0
    ensures AsksAt(sys, ws, net, l, c)
  {
    hide Inv, Refines;
    var w := InitialWorld(sys);
    InitialSound(sys);
    assert IsRun(sys, [w]);
    l := BeginSound(sys, w, Initial(sys), NoRounds(sys));
    RunExtends(sys, [w], Begin);
    ws := [w] + [After(sys, w, Begin)];
    net := Next(sys, Initial(sys), Start);
    FirstRequest(sys, c);
  }

  /** An inner node that takes its request asks each of its children, whose links were empty. */
  lemma PassedOn(sys: Sys, net: Net, l: Ledger, p: nat, c: nat)
    requires sys.Ok() && Inv(sys, net, l) && 0 < p < sys.N() && 0 < c < sys.N() && sys.parent[c] == p
    requires net.down[p] != [] && Enabled(sys, net, Down(p))
    ensures Next(sys, net, Down(p)).down[c] == [Request(sys.size)]
  {
    DownHead(sys, net, l, p);
    ChildMeansKids(sys, p, c, sys.N());
    InnerAsks(sys, net, l, p);
    RestBelow(sys, net, l, p);
  }

  /** Some run brings a first request to c. */
  lemma {:induction false} Wake(sys: Sys, c: nat) returns (ws: seq<World>, net: Net, l: Ledger)
    requires sys.Ok() && sys.maxIteration > 0 && 0 < c < sys.N()
    ensures AsksAt(sys, ws, net, l, c)
    decreases c
  {
    var p := sys.parent[c];
    if p == 0 {
      ws, net, l := WakeTop(sys, c);
    } else {
      var ws0, net0, l0 := Wake(sys, p);
      var ws1 := RequestArrives(sys, ws0, net0, l0, p);
      var w := ws1[|ws1| - 1];
      l := TakeDownSound(sys, w, net0, l0, p);
      RunExtends(sys, ws1, TakeDown(p));
      ws := ws1 + [After(sys, w, TakeDown(p))];
      net := Next(sys, net0, Down(p));
      PassedOn(sys, net0, l0, p, c);
    }
  }

  lemma {:induction false} LastIsLeaf(sys: Sys, hi: nat)
    requires sys.Ok() && hi <= sys.N()
    ensures sys.KidsBelow(sys.N() - 1, hi) == 0
  {
    if hi == 0 {
    } else {
      LastIsLeaf(sys, hi - 1);
    }
  }

  lemma RingUntouched(sys: Sys, w: World, c: nat)
    requires sys.Ok() && w.Shape(sys.N(), sys.k) && Possible(sys, w, TakeDown(c))
    ensures After(sys, w, TakeDown(c)).up[c].ring == w.up[c].ring
  {
  }

  /** A producer that takes its request puts its whole answer on the link, over an empty ring. */
  lemma WholeAnswer(sys: Sys, w: World, net: Net, l: Ledger, c: nat)
    requires sys.Ok() && Sound(sys, w, net, l) && 0 < c < sys.N() && sys.Kids(c) == 0
    requires net.down[c] != [] && Possible(sys, w, TakeDown(c))
    ensures var link := After(sys, w, TakeDown(c)).up[c];
            |link.flight| == ResponseBytes(sys) && link.ring.contents == [] && link.ring.capacity == CAPACITY
  {
    DownHead(sys, net, l, c);
    var w' := After(sys, w, TakeDown(c));
    TakeDownRefines(sys, w, net, c);
    LeafAnswers(sys, net, l, c);
    var net' := Next(sys, net, Down(c));
    assert Carries(w.up[c], net.up[c], RESPONSE_STRIDE) && Carries(w'.up[c], net'.up[c], RESPONSE_STRIDE);
    assert WireAll([]) == [];
    RingUntouched(sys, w, c);
    TailLength(sys, c, l[c].started, 0);
    assert net'.up[c] == Tail(sys, c, l[c].started, 0);
  }

  /** Some run reaches such a state. */
  lemma Answer(sys: Sys) returns (ws: seq<World>, c: nat)
    requires sys.Ok() && sys.maxIteration > 0
    ensures IsRun(sys, ws) && 0 < c < sys.N()
    ensures var link := ws[|ws| - 1].up[c];
            |link.flight| == ResponseBytes(sys) && link.ring.contents == [] && link.ring.capacity == CAPACITY
  {
    c := sys.N() - 1;
    LastIsLeaf(sys, sys.N());
    var ws0, net0, l0 := Wake(sys, c);
    var ws1 := RequestArrives(sys, ws0, net0, l0, c);
    WholeAnswer(sys, ws1[|ws1| - 1], net0, l0, c);
    RunExtends(sys, ws1, TakeDown(c));
    ws := ws1 + [After(sys, ws1[|ws1| - 1], TakeDown(c))];
  }

  /** The run ends where a segment of n bytes can arrive at a ring of c's link that cannot take it. */
  ghost predicate EndsInOverrun(sys: Sys, ws: seq<World>, c: nat, n: nat)
    requires sys.Ok()
  {
    && IsRun(sys, ws) && 0 < c < sys.N()
    && (Overruns(ws[|ws| - 1].up[c], n) || Overruns(ws[|ws| - 1].down[c], n))
  }

  lemma OverrunRun(sys: Sys)
    requires sys.Ok() && sys.maxIteration > 0 && ResponseBytes(sys) > CAPACITY
    ensures exists ws, c, n :: EndsInOverrun(sys, ws, c, n)
  {
    var ws, c := Answer(sys);
    RunExtends(sys, ws, ArriveUp(c, SEGMENT));
    var vs := ws + [After(sys, ws[|ws| - 1], ArriveUp(c, SEGMENT))];
    var rest := |vs[|vs| - 1].up[c].flight|;
    assert EndsInOverrun(sys, vs, c, if rest < SEGMENT then rest else SEGMENT);
  }

  /** The write assertion can fail in some run exactly when one response does not fit an empty ring. */
  lemma OverflowIff(sys: Sys)
    requires sys.Ok() && sys.maxIteration > 0
    ensures (exists ws, c, n :: EndsInOverrun(sys, ws, c, n)) <==> ResponseBytes(sys) > CAPACITY
  {
    if ResponseBytes(sys) > CAPACITY {
      OverrunRun(sys);
    }
    forall ws, c, n | EndsInOverrun(sys, ws, c, n)
      ensures ResponseBytes(sys) > CAPACITY
    {
      ReceiveBufferNeverOverflows(sys, ws, |ws| - 1, c, n);
    }
  }
}
