/** One participant of the averaging tree as a transition function:
    innetwork-train/model/simple-MPI/simpleMPI.cc. */
module Node {
  import opened Arithmetic
  import opened Bytes
  import opened Codec

  /** The per-offset accumulator, MyChunk. */
  datatype Chunk = Chunk(count: nat, data: seq<Word>)

  /** What SetupMPI fixes. draw(i, j) modulo 2^64 is element j of the i-th random
      vector the node generates. */
  datatype Config = Config(k: nat, maxIteration: nat, children: nat, draw: (nat, nat) -> nat)
  {
    /** k words and the head fit the 2048-byte send buffer; the group sizes fit 8-bit counters. */
    predicate Ok() {
      0 < k <= 254 && children <= 255 && maxIteration < 0x1_0000
    }
  }

  datatype State = State(asEnd: bool, curIter: nat, vsize: nat, avg: seq<Word>,
                         chunks: map<nat, Chunk>, drawn: nat)
  {
    predicate Ok(k: nat)
      requires 0 < k
    {
      && vsize == |avg| < 0x1_0000
      && vsize % k == 0 && vsize / k <= 255
      && curIter < 0x1_0000
      && (forall off :: off in chunks ==> |chunks[off].data| == k && chunks[off].count < 0x100)
    }
  }

  /** What a handler hands to the sockets, in order. */
  datatype Output =
    | Requests(size: nat)          // one request to every child
    | Responses(vec: seq<Word>)    // the vector, in chunks, to every parent
    | Reply(reply: seq<Word>)      // the vector, in chunks, to the sender of the request
    | Stop                         // ask the simulator to stop

  function Zeros(n: nat): (z: seq<Word>)
    ensures |z| == n
  {
    seq(n, _ => 0)
  }

  lemma SliceFits(n: nat, k: nat, i: nat)
    requires 0 < k && i < n / k
    ensures i * k + k <= n
  {
    assert (i + 1) * k <= (n / k) * k;
  }

  /** The i-th block of k elements. */
  function Block(vec: seq<Word>, k: nat, i: nat): (b: seq<Word>)
    requires 0 < k && i < |vec| / k
    ensures |b| == k
  {
    SliceFits(|vec|, k, i);
    vec[i * k..i * k + k]
  }

  /** Position p of a vector of whole blocks lies in block p / k, at p % k. */
  lemma BlockOf(n: nat, k: nat, p: nat)
    requires 0 < k && n % k == 0 && p < n
    ensures p / k < n / k && p == p / k * k + p % k
  {
    MulMono(n / k, p / k, k);
  }

  lemma SliceAt<T>(s: seq<T>, a: nat, n: nat, j: nat)
    requires a + n <= |s| && j < n
    ensures s[a..a + n][j] == s[a + j]
  {
  }

  function ChunkFrame(vec: seq<Word>, k: nat, i: nat): Frame
    requires 0 < k && i < |vec| / k
  {
    Response(i * k, Block(vec, k, i))
  }

  /** The frames a vector is cut into. */
  function Split(vec: seq<Word>, k: nat): (fs: seq<Frame>)
    requires 0 < k
    ensures |fs| == |vec| / k
    ensures forall i :: 0 <= i < |fs| ==> fs[i] == ChunkFrame(vec, k, i)
  {
    seq(|vec| / k, i requires 0 <= i < |vec| / k => ChunkFrame(vec, k, i))
  }

  /** Every frame of a vector has 14 bytes of head and k words. */
  lemma SplitFrameLength(vec: seq<Word>, k: nat, f: Frame)
    requires 0 < k && f in Split(vec, k)
    ensures |Wire(f)| == 14 + 8 * k
  {
    var i :| 0 <= i < |vec| / k && f == ChunkFrame(vec, k, i);
    SliceFits(|vec|, k, i);
  }

  function AddWords(a: seq<Word>, b: seq<Word>): (r: seq<Word>)
    requires |a| == |b|
    ensures |r| == |a|
    ensures forall i :: 0 <= i < |a| ==> r[i] == (a[i] + b[i]) % WORD
  {
    seq(|a|, i requires 0 <= i < |a| => (a[i] + b[i]) % WORD)
  }

  function DivideWords(a: seq<Word>, n: nat): (r: seq<Word>)
    requires n > 0
    ensures |r| == |a|
    ensures forall i :: 0 <= i < |a| ==> r[i] == a[i] / n
  {
    seq(|a|, i requires 0 <= i < |a| => a[i] / n)
  }

  /** operator[] of the chunk table: a missing chunk is created empty. */
  function ChunkAt(chunks: map<nat, Chunk>, k: nat, off: nat): Chunk {
    if off in chunks then chunks[off] else Chunk(0, Zeros(k))
  }

  function Cleared(chunks: map<nat, Chunk>, k: nat): map<nat, Chunk> {
    map off | off in chunks :: Chunk(0, Zeros(k))
  }

  /** Number of chunks of a vector, as an 8-bit value. */
  function Range(size: nat, k: nat): nat
    requires 0 < k
  {
    (size / k + if size % k != 0 then 1 else 0) % 0x100
  }

  predicate Complete(cfg: Config, chunks: map<nat, Chunk>, size: nat)
    requires 0 < cfg.k
  {
    forall i :: 0 <= i < Range(size, cfg.k) ==>
      i * cfg.k in chunks && chunks[i * cfg.k].count == cfg.children % 0x100
  }

  /** Element p of a vector is element p mod k of the chunk that p lies in. */
  function ElementOf(chunks: map<nat, Chunk>, k: nat, p: nat): Word
    requires 0 < k && forall off :: off in chunks ==> |chunks[off].data| == k
  {
    ChunkAt(chunks, k, p / k * k).data[p % k]
  }

  /** The vector assembled from the chunks by offset. */
  function Assembled(vec: seq<Word>, k: nat, chunks: map<nat, Chunk>): (r: seq<Word>)
    requires 0 < k && |vec| % k == 0
    requires forall off :: off in chunks ==> |chunks[off].data| == k
    ensures |r| == |vec|
    ensures forall p :: 0 <= p < |vec| ==> r[p] == ElementOf(chunks, k, p)
  {
    seq(|vec|, p requires 0 <= p < |vec| => ElementOf(chunks, k, p))
  }

  lemma AssembledAt(vec: seq<Word>, k: nat, chunks: map<nat, Chunk>, p: nat) returns (i: nat, j: nat)
    requires 0 < k && |vec| % k == 0 && p < |vec|
    requires forall off :: off in chunks ==> |chunks[off].data| == k
    ensures i < |vec| / k && j < k && p == i * k + j
    ensures Assembled(vec, k, chunks)[p] == ChunkAt(chunks, k, i * k).data[j]
  {
    i, j := p / k, p % k;
    BlockOf(|vec|, k, p);
  }

  function Avg(cfg: Config, s: State): (r: (State, seq<Output>))
    requires cfg.Ok() && s.Ok(cfg.k)
    ensures r.0.Ok(cfg.k) && !r.0.asEnd && r.0.curIter == s.curIter
  {
    if !s.asEnd then (s, []) else
      var last := s.curIter >= cfg.maxIteration;
      var next := if last then [Stop] else [Requests(s.vsize)];
      if s.curIter == 0 then (s.(asEnd := false), next) else
        var avg := Assembled(s.avg, cfg.k, s.chunks);
        (s.(asEnd := false, avg := avg, chunks := Cleared(s.chunks, cfg.k)), [Responses(avg)] + next)
  }

  function AvgEnd(cfg: Config, s: State): (r: (State, seq<Output>))
    requires cfg.Ok() && s.Ok(cfg.k)
    ensures r.0.Ok(cfg.k) && !r.0.asEnd
  {
    var done := Complete(cfg, s.chunks, s.vsize);
    Avg(cfg, s.(asEnd := done, curIter := if done then (s.curIter + 1) % 0x1_0000 else s.curIter))
  }

  /** A round ends exactly when the table is complete; then the table is written out and cleared, except
      that a round counter that wraps to zero looks like a start. */
  lemma AvgEndCases(cfg: Config, s: State)
    requires cfg.Ok() && s.Ok(cfg.k) && !s.asEnd
    ensures AvgEnd(cfg, s) ==
      if Complete(cfg, s.chunks, s.vsize) then
        var iter := (s.curIter + 1) % 0x1_0000;
        var next := if iter >= cfg.maxIteration then Stop else Requests(s.vsize);
        if iter == 0 then (s.(curIter := 0), [next])
        else
          var avg := Assembled(s.avg, cfg.k, s.chunks);
          (s.(curIter := iter, avg := avg, chunks := Cleared(s.chunks, cfg.k)), [Responses(avg), next])
      else (s, [])
  {
    if Complete(cfg, s.chunks, s.vsize) {
      var iter := (s.curIter + 1) % 0x1_0000;
      var next := if iter >= cfg.maxIteration then Stop else Requests(s.vsize);
      var avg := Assembled(s.avg, cfg.k, s.chunks);
      assert [Responses(avg)] + [next] == [Responses(avg), next];
    }
  }

  /** A table entry after one more block has been added in, counted, and divided if it is the last. */
  function Bumped(c: Chunk, block: seq<Word>, kids: nat): (r: Chunk)
    requires |c.data| == |block| && kids > 0
    ensures |r.data| == |block|
  {
    var count := (c.count + 1) % 0x100;
    var sum := AddWords(c.data, block);
    Chunk(count, if count == kids then DivideWords(sum, kids) else sum)
  }

  /** A running sum modulo 2^64, divided once the last child has delivered. */
  ghost function Level(sum: nat, count: nat, kids: nat): nat
    requires kids > 0
  {
    if count == kids then sum % WORD / kids else sum % WORD
  }

  /** One element of a running sum: the sum of those delivered, plus the new one, divided if it is the last. */
  lemma LevelGains(was: nat, more: Word, count: nat, kids: nat)
    requires count < kids <= 255
    ensures var sum := (Level(was, count, kids) + more) % WORD;
      Level(was + more, count + 1, kids) == if count + 1 == kids then sum / kids else sum
  {
    AddReduced(was, more, WORD);
  }

  lemma BumpedAt(c: Chunk, block: seq<Word>, kids: nat, j: nat)
    requires |c.data| == |block| && 0 < kids <= 255 && c.count < kids && j < |block|
    ensures Bumped(c, block, kids).count == c.count + 1 && |Bumped(c, block, kids).data| == |block|
    ensures var sum := (c.data[j] + block[j]) % WORD;
      Bumped(c, block, kids).data[j] == if c.count + 1 == kids then sum / kids else sum
  {
  }

  function OnResponse(cfg: Config, s: State, off: nat, vec: seq<Word>): (r: (State, seq<Output>))
    requires cfg.Ok() && cfg.children > 0 && s.Ok(cfg.k) && |vec| == cfg.k
    ensures r.0.Ok(cfg.k)
  {
    var c := Bumped(ChunkAt(s.chunks, cfg.k, off), vec, cfg.children);
    var s' := s.(chunks := s.chunks[off := c]);
    if c.count == cfg.children then AvgEnd(cfg, s') else (s', [])
  }

  function RandomVector(cfg: Config, index: nat, size: nat): (v: seq<Word>)
    ensures |v| == size
  {
    seq(size, j requires 0 <= j < size => cfg.draw(index, j) % WORD)
  }

  function OnRequest(cfg: Config, s: State, size: nat): (r: (State, seq<Output>))
    requires cfg.Ok() && s.Ok(cfg.k)
    requires size < 0x1_0000 && size % cfg.k == 0 && size / cfg.k <= 255
    ensures r.0.Ok(cfg.k)
  {
    var s' := s.(vsize := size, avg := Zeros(size));
    if cfg.children > 0 then (s', [Requests(size)])
    else (s'.(drawn := s.drawn + 1), [Requests(size), Reply(RandomVector(cfg, s.drawn, size))])
  }

  /** What the handlers assert about a frame before they use it. */
  predicate CanHandle(cfg: Config, f: Frame)
    requires 0 < cfg.k
  {
    match f
    case Request(size) => size < 0x1_0000 && size % cfg.k == 0 && size / cfg.k <= 255
    case Response(offset, data) => |data| == cfg.k && cfg.children > 0
  }

  /** Dispatch by command name, func_map. */
  function Handle(cfg: Config, s: State, f: Frame): (r: (State, seq<Output>))
    requires cfg.Ok() && s.Ok(cfg.k) && CanHandle(cfg, f)
    ensures r.0.Ok(cfg.k)
  {
    match f
    case Request(size) => OnRequest(cfg, s, size)
    case Response(offset, data) => OnResponse(cfg, s, offset, data)
  }
}
