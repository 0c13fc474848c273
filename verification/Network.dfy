/** A tree of participants joined by reliable first-in first-out links, one frame at a time. */
module Network {
  import opened Bytes
  import opened Codec
  import opened Node

  /** Node 0 is the consumer; every other node is numbered after its parent. Aggregators and
      producers are set up with no iterations of their own. draw(n, i, j) is the randomness of node n. */
  datatype Sys = Sys(parent: seq<nat>, k: nat, size: nat, maxIteration: nat, draw: (nat, nat, nat) -> nat)
  {
    function N(): nat { |parent| }

    predicate IsChild(c: nat, n: nat) {
      0 < c < N() && parent[c] == n
    }

    /** Children of n numbered below hi. */
    function KidsBelow(n: nat, hi: nat): nat {
      if hi == 0 then 0 else KidsBelow(n, hi - 1) + if IsChild(hi - 1, n) then 1 else 0
    }

    function Kids(n: nat): nat { KidsBelow(n, N()) }

    function Blocks(): nat
      requires 0 < k
    {
      size / k
    }

    function Cfg(n: nat): Config {
      Config(k, if n == 0 then maxIteration else 0, Kids(n), (i, j) => draw(n, i, j))
    }

    ghost predicate Ok() {
      && 2 <= N()
      && (forall c :: 0 < c < N() ==> parent[c] < c)
      && (forall n :: 0 <= n < N() ==> Kids(n) <= 255)
      && 0 < k <= 254
      && size < 0x1_0000 && size % k == 0 && size / k <= 255
      && maxIteration < 0x1_0000
    }
  }

  // ---- the reference: a recursive average --------------------------------------------------

  /** Element j of the average of the tree below n in round r: a producer gives what it drew, an
      inner node the 64-bit sum of its children's averages divided by their number. */
  ghost function TreeAvg(sys: Sys, n: nat, r: nat, j: nat): (v: nat)
    requires sys.Ok() && n < sys.N()
    ensures v < WORD
    decreases sys.N() - n, 1, 0
  {
    if sys.Kids(n) == 0 then sys.draw(n, r, j) % WORD
    else KidSum(sys, n, r, j, sys.N()) % WORD / sys.Kids(n)
  }

  /** Exact sum of the averages of the children of n numbered below hi. */
  ghost function KidSum(sys: Sys, n: nat, r: nat, j: nat, hi: nat): nat
    requires sys.Ok() && n < sys.N() && hi <= sys.N()
    decreases sys.N() - n, 0, hi
  {
    if hi == 0 then 0
    else KidSum(sys, n, r, j, hi - 1) + if sys.IsChild(hi - 1, n) then TreeAvg(sys, hi - 1, r, j) else 0
  }

  ghost function TreeVector(sys: Sys, n: nat, r: nat): (v: seq<Word>)
    requires sys.Ok() && n < sys.N()
    ensures |v| == sys.size
    ensures forall j :: 0 <= j < sys.size ==> v[j] == TreeAvg(sys, n, r, j)
  {
    seq(sys.size, j requires 0 <= j < sys.size => TreeAvg(sys, n, r, j))
  }

  // ---- states and steps --------------------------------------------------------------------

  /** down[c] and up[c] are the frames under way from the parent of c and to it. The other four
      fields only record: requests sent to c, requests handled by c, vectors sent up by c, and the
      averages each node has declared complete. */
  datatype Net = Net(
    nodes: seq<State>, down: seq<seq<Frame>>, up: seq<seq<Frame>>,
    asked: seq<nat>, handled: seq<nat>, answered: seq<nat>, results: seq<seq<seq<Word>>>)
  {
    predicate Shape(n: nat, k: nat)
      requires 0 < k
    {
      && |nodes| == |down| == |up| == |asked| == |handled| == |answered| == |results| == n
      && forall i :: 0 <= i < n ==> nodes[i].Ok(k)
    }
  }

  datatype Event = Start | Down(c: nat) | Up(c: nat)

  function Initial(sys: Sys): Net
    requires 0 < sys.N()
  {
    var n := sys.N();
    var idle := State(false, 0, 0, [], map[], 0);
    var consumer := State(true, 0, sys.size, Zeros(sys.size), map[], 0);
    Net(Fill(n, idle)[0 := consumer], Fill(n, []), Fill(n, []), Fill(n, 0), Fill(n, 0), Fill(n, 0), Fill(n, []))
  }

  function RequestFrames(outs: seq<Output>): seq<Frame> {
    if outs == [] then [] else
      (if outs[0].Requests? then [Request(outs[0].size)] else []) + RequestFrames(outs[1..])
  }

  /** The vectors handed to the link towards the parent. */
  function Vectors(outs: seq<Output>): seq<seq<Word>> {
    if outs == [] then [] else
      (match outs[0]
       case Responses(v) => [v]
       case Reply(v) => [v]
       case _ => []) + Vectors(outs[1..])
  }

  /** The averages declared complete. */
  function Declared(outs: seq<Output>): seq<seq<Word>> {
    if outs == [] then [] else
      (if outs[0].Responses? then [outs[0].vec] else []) + Declared(outs[1..])
  }

  function SplitAll(vs: seq<seq<Word>>, k: nat): seq<Frame>
    requires 0 < k
  {
    if vs == [] then [] else Split(vs[0], k) + SplitAll(vs[1..], k)
  }

  /** Node n has become s and hands outs to its sockets; the consumer has no parent to send to. */
  function Emit(sys: Sys, net: Net, n: nat, s: State, outs: seq<Output>): Net
    requires 0 < sys.k && net.Shape(sys.N(), sys.k) && n < sys.N()
  {
    var rs := RequestFrames(outs);
    var vs := Vectors(outs);
    net.(nodes := net.nodes[n := s],
         down := seq(sys.N(), c requires 0 <= c < sys.N() =>
                   if sys.IsChild(c, n) then net.down[c] + rs else net.down[c]),
         asked := seq(sys.N(), c requires 0 <= c < sys.N() =>
                   if sys.IsChild(c, n) then net.asked[c] + |rs| else net.asked[c]),
         up := net.up[n := net.up[n] + if n == 0 then [] else SplitAll(vs, sys.k)],
         answered := net.answered[n := net.answered[n] + if n == 0 then 0 else |vs|],
         results := net.results[n := net.results[n] + Declared(outs)])
  }

  ghost predicate Enabled(sys: Sys, net: Net, e: Event)
    requires sys.Ok() && net.Shape(sys.N(), sys.k)
  {
    match e
    case Start => true
    case Down(c) => 0 < c < sys.N() && net.down[c] != [] && CanHandle(sys.Cfg(c), net.down[c][0])
    case Up(c) => 0 < c < sys.N() && net.up[c] != [] && CanHandle(sys.Cfg(sys.parent[c]), net.up[c][0])
  }

  ghost function Next(sys: Sys, net: Net, e: Event): (net': Net)
    requires sys.Ok() && net.Shape(sys.N(), sys.k) && Enabled(sys, net, e)
    ensures net'.Shape(sys.N(), sys.k)
  {
    match e
    case Start =>
      var (s, outs) := Avg(sys.Cfg(0), net.nodes[0]);
      Emit(sys, net, 0, s, outs)
    case Down(c) =>
      var (s, outs) := Handle(sys.Cfg(c), net.nodes[c], net.down[c][0]);
      var got := net.(down := net.down[c := net.down[c][1..]],
                      handled := net.handled[c := net.handled[c] + 1]);
      Emit(sys, got, c, s, outs)
    case Up(c) =>
      var p := sys.parent[c];
      var (s, outs) := Handle(sys.Cfg(p), net.nodes[p], net.up[c][0]);
      Emit(sys, net.(up := net.up[c := net.up[c][1..]]), p, s, outs)
  }
}
