/** The same tree on byte streams: segments arrive in any sizes, receive buffers are polled at any time. */
module ByteNetwork {
  import opened Bytes
  import opened Codec
  import opened Node
  import opened Network
  import opened Lockstep
  import opened Stream

  datatype World = World(
    nodes: seq<State>, down: seq<Link>, up: seq<Link>,
    asked: seq<nat>, handled: seq<nat>, answered: seq<nat>, results: seq<seq<seq<Word>>>)
  {
    predicate Shape(n: nat, k: nat)
      requires 0 < k
    {
      && |nodes| == |down| == |up| == |asked| == |handled| == |answered| == |results| == n
      && (forall i :: 0 <= i < n ==> nodes[i].Ok(k))
      && (forall i :: 0 <= i < n ==> down[i].ring.Ok() && up[i].ring.Ok())
    }
  }

  datatype Happening =
    | Begin                        // the consumer's first AVG
    | ArriveDown(c: nat, n: nat)   // n bytes reach the ring of c from its parent
    | ArriveUp(c: nat, n: nat)     // n bytes reach the ring of the parent of c
    | TakeDown(c: nat)             // one pass of the receive loop of c on its parent's socket
    | TakeUp(c: nat)               // one pass of the receive loop of the parent on the socket of c

  function InitialWorld(sys: Sys): World
    requires 0 < sys.N()
  {
    var n := sys.N();
    var net := Initial(sys);
    World(net.nodes, Fill(n, EMPTY_LINK), Fill(n, EMPTY_LINK),
          net.asked, net.handled, net.answered, net.results)
  }

  function EmitBytes(sys: Sys, w: World, n: nat, s: State, outs: seq<Output>): World
    requires 0 < sys.k && w.Shape(sys.N(), sys.k) && n < sys.N()
  {
    var rs := RequestFrames(outs);
    var vs := Vectors(outs);
    w.(nodes := w.nodes[n := s],
       down := seq(sys.N(), c requires 0 <= c < sys.N() =>
                 if sys.IsChild(c, n) then w.down[c].Send(WireAll(rs)) else w.down[c]),
       asked := seq(sys.N(), c requires 0 <= c < sys.N() =>
                 if sys.IsChild(c, n) then w.asked[c] + |rs| else w.asked[c]),
       up := w.up[n := if n == 0 then w.up[n] else w.up[n].Send(WireAll(SplitAll(vs, sys.k)))],
       answered := w.answered[n := w.answered[n] + if n == 0 then 0 else |vs|],
       results := w.results[n := w.results[n] + Declared(outs)])
  }

  /** The assertions on the way from the socket to the handler. */
  ghost predicate TakeOk(cfg: Config, link: Link)
    requires 0 < cfg.k
  {
    && link.HasFrame()
    && link.ring.PeekInBounds()
    && (Decode(link.FrameBytes()).Some? ==> CanHandle(cfg, Decode(link.FrameBytes()).value))
  }

  ghost predicate Possible(sys: Sys, w: World, h: Happening)
    requires sys.Ok() && w.Shape(sys.N(), sys.k)
  {
    match h
    case Begin => true
    case ArriveDown(c, n) => 0 < c < sys.N() && 0 < n <= |w.down[c].flight| && n <= SEGMENT && w.down[c].ring.Fits(n)
    case ArriveUp(c, n) => 0 < c < sys.N() && 0 < n <= |w.up[c].flight| && n <= SEGMENT && w.up[c].ring.Fits(n)
    case TakeDown(c) => 0 < c < sys.N() && TakeOk(sys.Cfg(c), w.down[c])
    case TakeUp(c) => 0 < c < sys.N() && TakeOk(sys.Cfg(sys.parent[c]), w.up[c])
  }

  /** Read a frame off the link and dispatch it at node n; an unknown command is dropped. */
  function Dispatch(sys: Sys, w: World, n: nat, bytes: seq<Byte>): (w': World)
    requires 0 < sys.k && sys.Cfg(n).Ok() && w.Shape(sys.N(), sys.k) && n < sys.N()
    requires Decode(bytes).Some? ==> CanHandle(sys.Cfg(n), Decode(bytes).value)
    ensures w'.Shape(sys.N(), sys.k)
  {
    match Decode(bytes)
    case None => w
    case Some(f) =>
      var (s, outs) := Handle(sys.Cfg(n), w.nodes[n], f);
      EmitBytes(sys, w, n, s, outs)
  }

  /** One pass of the receive loop of c on the socket to its parent. */
  ghost function TakenDown(sys: Sys, w: World, c: nat): (w': World)
    requires sys.Ok() && w.Shape(sys.N(), sys.k) && Possible(sys, w, TakeDown(c))
    ensures w'.Shape(sys.N(), sys.k)
  {
    var bytes := w.down[c].FrameBytes();
    var known := w.handled[c] + if Decode(bytes).Some? then 1 else 0;
    var popped := w.(down := w.down[c := w.down[c].Take(|bytes|)], handled := w.handled[c := known]);
    Dispatch(sys, popped, c, bytes)
  }

  /** One pass of the receive loop of the parent of c on the socket to c. */
  ghost function TakenUp(sys: Sys, w: World, c: nat): (w': World)
    requires sys.Ok() && w.Shape(sys.N(), sys.k) && Possible(sys, w, TakeUp(c))
    ensures w'.Shape(sys.N(), sys.k)
  {
    var bytes := w.up[c].FrameBytes();
    Dispatch(sys, w.(up := w.up[c := w.up[c].Take(|bytes|)]), sys.parent[c], bytes)
  }

  ghost function After(sys: Sys, w: World, h: Happening): (w': World)
    requires sys.Ok() && w.Shape(sys.N(), sys.k) && Possible(sys, w, h)
    ensures w'.Shape(sys.N(), sys.k)
  {
    match h
    case Begin =>
      var (s, outs) := Avg(sys.Cfg(0), w.nodes[0]);
      EmitBytes(sys, w, 0, s, outs)
    case ArriveDown(c, n) => w.(down := w.down[c := w.down[c].Arrive(n)])
    case ArriveUp(c, n) => w.(up := w.up[c := w.up[c].Arrive(n)])
    case TakeDown(c) => TakenDown(sys, w, c)
    case TakeUp(c) => TakenUp(sys, w, c)
  }

  ghost predicate Follows(sys: Sys, w: World, w': World)
    requires sys.Ok() && w.Shape(sys.N(), sys.k)
  {
    exists h :: Possible(sys, w, h) && w' == After(sys, w, h)
  }

  /** A run: every state follows from the one before by something that can happen in it. */
  ghost predicate IsRun(sys: Sys, ws: seq<World>)
    requires sys.Ok()
  {
    && |ws| > 0
    && ws[0] == InitialWorld(sys)
    && (forall i :: 0 <= i < |ws| ==> ws[i].Shape(sys.N(), sys.k))
    && forall i :: 0 < i < |ws| ==> Follows(sys, ws[i - 1], ws[i])
  }

  // ---- bytes refine frames ---------------------------------------------------------------------

  ghost predicate Refines(sys: Sys, w: World, net: Net)
    requires sys.Ok()
  {
    && w.Shape(sys.N(), sys.k) && net.Shape(sys.N(), sys.k)
    && w.nodes == net.nodes && w.asked == net.asked && w.handled == net.handled
    && w.answered == net.answered && w.results == net.results
    && forall c :: 0 < c < sys.N() ==>
         Carries(w.down[c], net.down[c], REQUEST_STRIDE) && Carries(w.up[c], net.up[c], RESPONSE_STRIDE)
  }

  /** What is handed to the sockets fits the 16-bit fields of the format. */
  predicate OutOk(o: Output) {
    match o
    case Requests(size) => size < 0x1_0000
    case Responses(v) => |v| < 0x1_0000
    case Reply(v) => |v| < 0x1_0000
    case Stop => true
  }

  lemma AvgOutsOk(cfg: Config, s: State)
    requires cfg.Ok() && s.Ok(cfg.k)
    ensures forall o :: o in Avg(cfg, s).1 ==> OutOk(o)
  {
  }

  lemma HandleOutsOk(cfg: Config, s: State, f: Frame)
    requires cfg.Ok() && s.Ok(cfg.k) && CanHandle(cfg, f)
    ensures forall o :: o in Handle(cfg, s, f).1 ==> OutOk(o)
  {
    if f.Response? {
      var c := Bumped(ChunkAt(s.chunks, cfg.k, f.offset), f.data, cfg.children);
      if c.count == cfg.children {
        var s1 := s.(chunks := s.chunks[f.offset := c]);
        var done := Complete(cfg, s1.chunks, s1.vsize);
        AvgOutsOk(cfg, s1.(asEnd := done, curIter := if done then (s1.curIter + 1) % 0x1_0000 else s1.curIter));
      }
    }
  }

  lemma {:induction false} RequestFramesOk(outs: seq<Output>)
    requires forall o :: o in outs ==> OutOk(o)
    ensures forall f :: f in RequestFrames(outs) ==> Representable(f) && |Wire(f)| % REQUEST_STRIDE == 0
  {
    if outs == [] {
    } else {
      assert outs[0] in outs;
      assert forall o :: o in outs[1..] ==> o in outs;
      RequestFramesOk(outs[1..]);
    }
  }

  lemma {:induction false} VectorsOk(outs: seq<Output>)
    requires forall o :: o in outs ==> OutOk(o)
    ensures forall v :: v in Vectors(outs) ==> |v| < 0x1_0000
  {
    if outs == [] {
    } else {
      assert outs[0] in outs;
      assert forall o :: o in outs[1..] ==> o in outs;
      VectorsOk(outs[1..]);
    }
  }

  lemma ChunkRepresentable(v: seq<Word>, k: nat, i: nat)
    requires 0 < k <= 254 && |v| < 0x1_0000 && i < |v| / k
    ensures Representable(ChunkFrame(v, k, i))
  {
    SliceFits(|v|, k, i);
  }

  lemma SplitOk(v: seq<Word>, k: nat)
    requires 0 < k <= 254 && |v| < 0x1_0000
    ensures forall f :: f in Split(v, k) ==> Representable(f) && |Wire(f)| % RESPONSE_STRIDE == 0
  {
    hide Wire, Representable, ChunkFrame;
    forall f | f in Split(v, k)
      ensures Representable(f) && |Wire(f)| % RESPONSE_STRIDE == 0
    {
      var i :| 0 <= i < |Split(v, k)| && f == Split(v, k)[i];
      ChunkRepresentable(v, k, i);
      SplitFrameLength(v, k, f);
      assert |Wire(f)| == 2 * (7 + 4 * k);
    }
  }

  lemma {:induction false} SplitAllOk(vs: seq<seq<Word>>, k: nat)
    requires 0 < k <= 254
    requires forall v :: v in vs ==> |v| < 0x1_0000
    ensures forall f :: f in SplitAll(vs, k) ==> Representable(f) && |Wire(f)| % RESPONSE_STRIDE == 0
  {
    if vs == [] {
    } else {
      assert vs[0] in vs;
      assert forall v :: v in vs[1..] ==> v in vs;
      SplitOk(vs[0], k);
      SplitAllOk(vs[1..], k);
    }
  }

  lemma EmitDownCarries(sys: Sys, w: World, net: Net, n: nat, s: State, outs: seq<Output>, c: nat)
    requires sys.Ok() && Refines(sys, w, net) && n < sys.N() && s.Ok(sys.k) && 0 < c < sys.N()
    requires forall o :: o in outs ==> OutOk(o)
    ensures Carries(EmitBytes(sys, w, n, s, outs).down[c], Emit(sys, net, n, s, outs).down[c], REQUEST_STRIDE)
  {
    RequestFramesOk(outs);
    SendCarries(w.down[c], net.down[c], RequestFrames(outs), REQUEST_STRIDE);
  }

  lemma EmitUpCarries(sys: Sys, w: World, net: Net, n: nat, s: State, outs: seq<Output>, c: nat)
    requires sys.Ok() && Refines(sys, w, net) && n < sys.N() && s.Ok(sys.k) && 0 < c < sys.N()
    requires forall o :: o in outs ==> OutOk(o)
    ensures Carries(EmitBytes(sys, w, n, s, outs).up[c], Emit(sys, net, n, s, outs).up[c], RESPONSE_STRIDE)
  {
    VectorsOk(outs);
    SplitAllOk(Vectors(outs), sys.k);
    SendCarries(w.up[c], net.up[c], SplitAll(Vectors(outs), sys.k), RESPONSE_STRIDE);
  }

  lemma EmitRecords(sys: Sys, w: World, net: Net, n: nat, s: State, outs: seq<Output>)
    requires sys.Ok() && Refines(sys, w, net) && n < sys.N() && s.Ok(sys.k)
    ensures EmitBytes(sys, w, n, s, outs).Shape(sys.N(), sys.k) && Emit(sys, net, n, s, outs).Shape(sys.N(), sys.k)
    ensures EmitBytes(sys, w, n, s, outs).nodes == Emit(sys, net, n, s, outs).nodes
    ensures EmitBytes(sys, w, n, s, outs).asked == Emit(sys, net, n, s, outs).asked
    ensures EmitBytes(sys, w, n, s, outs).handled == Emit(sys, net, n, s, outs).handled
    ensures EmitBytes(sys, w, n, s, outs).answered == Emit(sys, net, n, s, outs).answered
    ensures EmitBytes(sys, w, n, s, outs).results == Emit(sys, net, n, s, outs).results
  {
    hide WireAll, SplitAll, RequestFrames, Vectors, Declared;
    assert EmitBytes(sys, w, n, s, outs).asked == Emit(sys, net, n, s, outs).asked;
  }

  /** Handing the same outputs to bytes and to frames keeps the two in step. */
  lemma EmitRefines(sys: Sys, w: World, net: Net, n: nat, s: State, outs: seq<Output>)
    requires sys.Ok() && Refines(sys, w, net) && n < sys.N() && s.Ok(sys.k)
    requires forall o :: o in outs ==> OutOk(o)
    ensures Refines(sys, EmitBytes(sys, w, n, s, outs), Emit(sys, net, n, s, outs))
  {
    forall c | 0 < c < sys.N()
      ensures Carries(EmitBytes(sys, w, n, s, outs).down[c], Emit(sys, net, n, s, outs).down[c], REQUEST_STRIDE)
      ensures Carries(EmitBytes(sys, w, n, s, outs).up[c], Emit(sys, net, n, s, outs).up[c], RESPONSE_STRIDE)
    {
      EmitDownCarries(sys, w, net, n, s, outs, c);
      EmitUpCarries(sys, w, net, n, s, outs, c);
    }
    EmitRecords(sys, w, net, n, s, outs);
  }

  lemma BeginRefines(sys: Sys, w: World, net: Net)
    requires sys.Ok() && Refines(sys, w, net)
    ensures Refines(sys, After(sys, w, Begin), Next(sys, net, Start))
  {
    AvgOutsOk(sys.Cfg(0), w.nodes[0]);
    var (s, outs) := Avg(sys.Cfg(0), w.nodes[0]);
    EmitRefines(sys, w, net, 0, s, outs);
  }

  function PoppedDown(w: World, c: nat): World
    requires c < |w.down| && c < |w.handled| && w.down[c].ring.Ok() && w.down[c].HasFrame()
  {
    w.(down := w.down[c := w.down[c].Take(|w.down[c].FrameBytes()|)],
       handled := w.handled[c := w.handled[c] + 1])
  }

  lemma PopDownRefines(sys: Sys, w: World, net: Net, c: nat)
    requires sys.Ok() && Refines(sys, w, net) && 0 < c < sys.N() && w.down[c].HasFrame()
    ensures net.down[c] != [] && Refines(sys, PoppedDown(w, c), Popped(net, c))
  {
    TakeCarriesRest(w.down[c], net.down[c], REQUEST_STRIDE);
  }

  lemma TakenDownIs(sys: Sys, w: World, c: nat, f: Frame)
    requires sys.Ok() && w.Shape(sys.N(), sys.k) && Possible(sys, w, TakeDown(c))
    requires Decode(w.down[c].FrameBytes()) == Some(f)
    ensures PoppedDown(w, c).Shape(sys.N(), sys.k)
    ensures var r := Handle(sys.Cfg(c), w.nodes[c], f);
            After(sys, w, TakeDown(c)) == EmitBytes(sys, PoppedDown(w, c), c, r.0, r.1)
  {
    hide Decode, Handle, EmitBytes, CanHandle;
  }

  lemma NextDownIs(sys: Sys, net: Net, c: nat)
    requires sys.Ok() && net.Shape(sys.N(), sys.k) && Enabled(sys, net, Down(c))
    ensures var r := Handle(sys.Cfg(c), net.nodes[c], net.down[c][0]);
            Next(sys, net, Down(c)) == Emit(sys, Popped(net, c), c, r.0, r.1)
  {
  }

  lemma TakeDownRefines(sys: Sys, w: World, net: Net, c: nat)
    requires sys.Ok() && Refines(sys, w, net) && Possible(sys, w, TakeDown(c))
    ensures Enabled(sys, net, Down(c))
    ensures Refines(sys, After(sys, w, TakeDown(c)), Next(sys, net, Down(c)))
  {
    hide Decode, Handle, EmitBytes, Emit, Link.FrameBytes, Link.Take, CanHandle, PoppedDown, Next, After, OutOk;
    TakeSeesFirstFrame(w.down[c], net.down[c], REQUEST_STRIDE);
    PopDownRefines(sys, w, net, c);
    var f := net.down[c][0];
    HandleOutsOk(sys.Cfg(c), w.nodes[c], f);
    var (s, outs) := Handle(sys.Cfg(c), w.nodes[c], f);
    TakenDownIs(sys, w, c, f);
    NextDownIs(sys, net, c);
    EmitRefines(sys, PoppedDown(w, c), Popped(net, c), c, s, outs);
  }

  function PoppedUp(w: World, c: nat): World
    requires c < |w.up| && w.up[c].ring.Ok() && w.up[c].HasFrame()
  {
    w.(up := w.up[c := w.up[c].Take(|w.up[c].FrameBytes()|)])
  }

  lemma PopUpRefines(sys: Sys, w: World, net: Net, c: nat)
    requires sys.Ok() && Refines(sys, w, net) && 0 < c < sys.N() && w.up[c].HasFrame()
    ensures net.up[c] != [] && Refines(sys, PoppedUp(w, c), net.(up := net.up[c := net.up[c][1..]]))
  {
    TakeCarriesRest(w.up[c], net.up[c], RESPONSE_STRIDE);
  }

  lemma TakenUpIs(sys: Sys, w: World, c: nat, f: Frame)
    requires sys.Ok() && w.Shape(sys.N(), sys.k) && Possible(sys, w, TakeUp(c))
    requires Decode(w.up[c].FrameBytes()) == Some(f)
    ensures sys.parent[c] < sys.N() && PoppedUp(w, c).Shape(sys.N(), sys.k)
    ensures var p := sys.parent[c];
            var r := Handle(sys.Cfg(p), w.nodes[p], f);
            After(sys, w, TakeUp(c)) == EmitBytes(sys, PoppedUp(w, c), p, r.0, r.1)
  {
    hide Decode, Handle, EmitBytes, CanHandle;
  }

  lemma NextUpIs(sys: Sys, net: Net, c: nat)
    requires sys.Ok() && net.Shape(sys.N(), sys.k) && Enabled(sys, net, Up(c))
    ensures sys.parent[c] < sys.N()
    ensures var p := sys.parent[c];
            var r := Handle(sys.Cfg(p), net.nodes[p], net.up[c][0]);
            Next(sys, net, Up(c)) == Emit(sys, net.(up := net.up[c := net.up[c][1..]]), p, r.0, r.1)
  {
    hide Handle, CanHandle, Emit;
  }

  lemma TakeUpRefines(sys: Sys, w: World, net: Net, c: nat)
    requires sys.Ok() && Refines(sys, w, net) && Possible(sys, w, TakeUp(c))
    ensures Enabled(sys, net, Up(c))
    ensures Refines(sys, After(sys, w, TakeUp(c)), Next(sys, net, Up(c)))
  {
    hide Decode, Handle, EmitBytes, Emit, Link.FrameBytes, Link.Take, CanHandle, PoppedUp, Next, After, OutOk;
    TakeSeesFirstFrame(w.up[c], net.up[c], RESPONSE_STRIDE);
    PopUpRefines(sys, w, net, c);
    var f := net.up[c][0];
    TakenUpIs(sys, w, c, f);
    var p := sys.parent[c];
    HandleOutsOk(sys.Cfg(p), w.nodes[p], f);
    var (s, outs) := Handle(sys.Cfg(p), w.nodes[p], f);
    NextUpIs(sys, net, c);
    EmitRefines(sys, PoppedUp(w, c), net.(up := net.up[c := net.up[c][1..]]), p, s, outs);
  }

  /** A byte state, the frame state it stands for, and the ledger behind it. */
  ghost predicate Sound(sys: Sys, w: World, net: Net, l: Ledger)
    requires sys.Ok()
  {
    Refines(sys, w, net) && Inv(sys, net, l)
  }

  lemma HappeningKeeps(sys: Sys, w: World, net: Net, l: Ledger, h: Happening) returns (net': Net, l': Ledger)
    requires sys.Ok() && Sound(sys, w, net, l) && Possible(sys, w, h)
    ensures Sound(sys, After(sys, w, h), net', l')
  {
    net', l' := net, l;
    match h
    case Begin =>
      BeginRefines(sys, w, net);
      l' := StepKeeps(sys, net, l, Start);
      net' := Next(sys, net, Start);
    case ArriveDown(c, n) =>
      ArriveKeepsBytes(w.down[c], n);
    case ArriveUp(c, n) =>
      ArriveKeepsBytes(w.up[c], n);
    case TakeDown(c) =>
      TakeDownRefines(sys, w, net, c);
      l' := StepKeeps(sys, net, l, Down(c));
      net' := Next(sys, net, Down(c));
    case TakeUp(c) =>
      TakeUpRefines(sys, w, net, c);
      l' := StepKeeps(sys, net, l, Up(c));
      net' := Next(sys, net, Up(c));
  }

  lemma InitialSound(sys: Sys)
    requires sys.Ok()
    ensures Sound(sys, InitialWorld(sys), Initial(sys), NoRounds(sys))
  {
    InitialInv(sys);
  }

  /** Every state of every run stands for a lockstep state of the frame protocol. */
  lemma {:induction false} RunIsSound(sys: Sys, ws: seq<World>, i: nat) returns (net: Net, l: Ledger)
    requires sys.Ok() && IsRun(sys, ws) && i < |ws|
    ensures Sound(sys, ws[i], net, l)
    decreases i
  {
    if i == 0 {
      InitialSound(sys);
      net, l := Initial(sys), NoRounds(sys);
    } else {
      var net0, l0 := RunIsSound(sys, ws, i - 1);
      assert Follows(sys, ws[i - 1], ws[i]);
      var h :| Possible(sys, ws[i - 1], h) && ws[i] == After(sys, ws[i - 1], h);
      net, l := HappeningKeeps(sys, ws[i - 1], net0, l0, h);
    }
  }
}
