/** One round at one node whatever the order in which its children's chunks come in:
    innetwork-train/model/simple-MPI/simpleMPI.cc:137-174 and 304-401. */
module Gathering {
  import opened Arithmetic
  import opened Bytes
  import opened Codec
  import opened Node
  import opened Mpi
  import opened Reassembly

  // ---- sums over frames --------------------------------------------------------------------------------

  function Total(weight: Frame -> nat, fs: seq<Frame>): nat {
    if fs == [] then 0 else Total(weight, fs[..|fs| - 1]) + weight(fs[|fs| - 1])
  }

  lemma {:induction false} TotalAppend(weight: Frame -> nat, a: seq<Frame>, b: seq<Frame>)
    ensures Total(weight, a + b) == Total(weight, a) + Total(weight, b)
  {
    if b == [] {
      assert a + b == a;
    } else {
      TotalAppend(weight, a, b[..|b| - 1]);
      assert (a + b)[..|a + b| - 1] == a + b[..|b| - 1];
    }
  }

  lemma TotalOne(weight: Frame -> nat, f: Frame)
    ensures Total(weight, [f]) == weight(f)
  {
    assert [f][..0] == [];
  }

  lemma TotalWithout(weight: Frame -> nat, fs: seq<Frame>, i: nat)
    requires i < |fs|
    ensures Total(weight, fs) == Total(weight, fs[..i] + fs[i + 1..]) + weight(fs[i])
  {
    hide Total;
    var before, after := fs[..i], fs[i + 1..];
    assert fs == before + [fs[i]] + after;
    TotalOne(weight, fs[i]);
    TotalAppend(weight, before, after);
    TotalAppend(weight, before, [fs[i]]);
    TotalAppend(weight, before + [fs[i]], after);
  }

  lemma TakenOut(fs: seq<Frame>, i: nat)
    requires i < |fs|
    ensures multiset(fs) == multiset(fs[..i] + fs[i + 1..]) + multiset{fs[i]}
  {
    assert fs == fs[..i] + [fs[i]] + fs[i + 1..];
  }

  lemma CancelOne(a: multiset<Frame>, b: multiset<Frame>, f: Frame)
    requires a + multiset{f} == b + multiset{f}
    ensures a == b
  {
    assert a == a + multiset{f} - multiset{f};
  }

  /** A sum does not depend on the order. */
  lemma {:induction false} TotalPermutes(weight: Frame -> nat, fs: seq<Frame>, gs: seq<Frame>)
    requires multiset(fs) == multiset(gs)
    ensures Total(weight, fs) == Total(weight, gs)
  {
    if fs == [] {
      assert |multiset(gs)| == 0;
    } else {
      var before, f := fs[..|fs| - 1], fs[|fs| - 1];
      assert fs == before + [f];
      assert f in multiset(gs);
      var i :| 0 <= i < |gs| && gs[i] == f;
      TakenOut(gs, i);
      CancelOne(multiset(before), multiset(gs[..i] + gs[i + 1..]), f);
      TotalPermutes(weight, before, gs[..i] + gs[i + 1..]);
      TotalWithout(weight, gs, i);
    }
  }

  lemma {:induction false} TotalZero(weight: Frame -> nat, fs: seq<Frame>)
    requires forall f :: f in fs ==> weight(f) == 0
    ensures Total(weight, fs) == 0
  {
    if fs == [] {
    } else {
      assert fs[|fs| - 1] in fs;
      TotalZero(weight, fs[..|fs| - 1]);
    }
  }

  /** How often an entry is hit, and by how much its j-th word grows. */
  function Hits(off: nat): Frame -> nat {
    (f: Frame) => if f.Response? && f.offset == off then 1 else 0
  }

  function Gains(off: nat, j: nat): Frame -> nat {
    (f: Frame) => if f.Response? && f.offset == off && j < |f.data| then f.data[j] else 0
  }

  // ---- what an entry holds -----------------------------------------------------------------------------

  /** The entry has taken in so many frames, and so much in element j. */
  ghost predicate Holds(c: Chunk, k: nat, j: nat, kids: nat, hits: nat, sum: nat)
    requires 0 < kids && j < k
  {
    c.count == hits && |c.data| == k && c.data[j] == Level(sum, hits, kids)
  }

  lemma BumpHolds(c: Chunk, k: nat, j: nat, kids: nat, hits: nat, sum: nat, block: seq<Word>)
    requires |block| == k && hits < kids <= 255 && j < k && Holds(c, k, j, kids, hits, sum)
    ensures Holds(Bumped(c, block, kids), k, j, kids, hits + 1, sum + block[j])
  {
    LevelGains(sum, block[j], hits, kids);
    BumpedAt(c, block, kids, j);
    hide Level, Bumped;
  }

  lemma OneTaken(chunks: map<nat, Chunk>, k: nat, fs: seq<Frame>, kids: nat, off: nat)
    requires 0 < kids && Wide(chunks, k) && Blocks(fs, k) && fs != []
    ensures var before, f := fs[..|fs| - 1], fs[|fs| - 1];
      && f.Response? && |f.data| == k && Blocks(before, k)
      && ChunkAt(TakenIn(chunks, k, fs, kids), k, off) ==
           var c := ChunkAt(TakenIn(chunks, k, before, kids), k, off);
           if f.offset == off then Bumped(c, f.data, kids) else c
  {
    assert fs[|fs| - 1] in fs;
    hide Bumped;
  }

  /** An entry counts its frames and holds their sum, divided once every child is in. */
  lemma {:induction false} EntryHolds(chunks: map<nat, Chunk>, k: nat, fs: seq<Frame>, kids: nat, off: nat, j: nat)
    requires Empty(chunks, k) && Blocks(fs, k) && Total(Hits(off), fs) <= kids && 0 < kids <= 255 && j < k
    ensures Wide(chunks, k)
    ensures Holds(ChunkAt(TakenIn(chunks, k, fs, kids), k, off), k, j, kids,
                  Total(Hits(off), fs), Total(Gains(off, j), fs))
  {
    hide Bumped;
    if fs == [] {
    } else {
      var before, f := fs[..|fs| - 1], fs[|fs| - 1];
      OneTaken(chunks, k, fs, kids, off);
      hide TakenIn, Blocks, Wide, Empty, Holds, ChunkAt;
      EntryHolds(chunks, k, before, kids, off, j);
      if f.offset == off {
        BumpHolds(ChunkAt(TakenIn(chunks, k, before, kids), k, off), k, j, kids,
                  Total(Hits(off), before), Total(Gains(off, j), before), f.data);
      }
    }
  }

  lemma BumpCounts(c: Chunk, block: seq<Word>, kids: nat, hits: nat)
    requires |c.data| == |block| && kids > 0 && c.count == hits % 0x100
    ensures Bumped(c, block, kids).count == (hits + 1) % 0x100
  {
  }

  /** The count is an 8-bit number: it is what is left of the number of frames, however many have come. */
  lemma {:induction false} CountWraps(chunks: map<nat, Chunk>, k: nat, fs: seq<Frame>, kids: nat, off: nat)
    requires Empty(chunks, k) && Blocks(fs, k) && 0 < kids
    ensures Wide(chunks, k)
    ensures ChunkAt(TakenIn(chunks, k, fs, kids), k, off).count == Total(Hits(off), fs) % 0x100
  {
    if fs == [] {
    } else {
      var before, f := fs[..|fs| - 1], fs[|fs| - 1];
      OneTaken(chunks, k, fs, kids, off);
      hide TakenIn, Blocks, Wide, Empty, ChunkAt, Bumped;
      CountWraps(chunks, k, before, kids, off);
      if f.offset == off {
        BumpCounts(ChunkAt(TakenIn(chunks, k, before, kids), k, off), f.data, kids, Total(Hits(off), before));
      }
    }
  }

  // ---- all frames of all children ----------------------------------------------------------------------

  function AllFrames(vecs: seq<seq<Word>>, k: nat): seq<Frame>
    requires 0 < k
  {
    if vecs == [] then [] else AllFrames(vecs[..|vecs| - 1], k) + Split(vecs[|vecs| - 1], k)
  }

  /** Sum of the p-th elements. */
  function Column(vecs: seq<seq<Word>>, p: nat): nat
    requires forall v :: v in vecs ==> p < |v|
  {
    if vecs == [] then 0
    else
      assert vecs[|vecs| - 1] in vecs;
      Column(vecs[..|vecs| - 1], p) + vecs[|vecs| - 1][p]
  }

  function MeanAt(vecs: seq<seq<Word>>, p: nat): Word
    requires vecs != [] && forall v :: v in vecs ==> p < |v|
  {
    QuotientShrinks(Column(vecs, p) % WORD, 1, |vecs|);
    Column(vecs, p) % WORD / |vecs|
  }

  /** Element by element the 64-bit sum over the children, divided by their number. */
  function Means(vecs: seq<seq<Word>>, size: nat): (r: seq<Word>)
    requires vecs != [] && forall v :: v in vecs ==> |v| == size
    ensures |r| == size
  {
    seq(size, p requires 0 <= p < size => MeanAt(vecs, p))
  }

  /** Silent about every entry but the one at off. */
  ghost predicate Only(weight: Frame -> nat, off: nat) {
    forall f: Frame :: f.Response? && f.offset != off ==> weight(f) == 0
  }

  lemma OthersElsewhere(vec: seq<Word>, k: nat, b: nat, i: nat)
    requires 0 < k && b < |vec| / k && i < |vec| / k && i != b
    ensures Split(vec, k)[i].Response? && Split(vec, k)[i].offset != b * k
  {
    DivMod(i, k, 0);
    DivMod(b, k, 0);
  }

  lemma FrameAt(vec: seq<Word>, k: nat, b: nat) returns (f: Frame)
    requires 0 < k && b < |vec| / k
    ensures f == Split(vec, k)[b] && f.Response? && f.offset == b * k && |f.data| == k && f.offset + k <= |vec|
    ensures forall j :: 0 <= j < k ==> f.data[j] == vec[f.offset + j]
  {
    SliceFits(|vec|, k, b);
    f := ChunkFrame(vec, k, b);
  }

  /** Only one frame of a vector goes to an entry. */
  lemma PlaceOf(vec: seq<Word>, k: nat, off: nat) returns (b: nat)
    requires 0 < k && Starts(|vec|, k, off)
    ensures b < |Split(vec, k)| && off + k <= |vec|
    ensures var f := Split(vec, k)[b];
      f.Response? && f.offset == off && |f.data| == k && forall j :: 0 <= j < k ==> f.data[j] == vec[off + j]
    ensures forall i :: 0 <= i < |Split(vec, k)| && i != b ==>
      Split(vec, k)[i].Response? && Split(vec, k)[i].offset != off
  {
    b :| b < |vec| / k && off == b * k;
    var f := FrameAt(vec, k, b);
    forall i | 0 <= i < |Split(vec, k)| && i != b
      ensures Split(vec, k)[i].Response? && Split(vec, k)[i].offset != off
    {
      OthersElsewhere(vec, k, b, i);
    }
  }

  lemma OneOfSplit(vec: seq<Word>, k: nat, off: nat, weight: Frame -> nat) returns (f: Frame)
    requires 0 < k && Starts(|vec|, k, off) && Only(weight, off)
    ensures f.Response? && f.offset == off && |f.data| == k && off + k <= |vec|
    ensures forall j :: 0 <= j < k ==> f.data[j] == vec[off + j]
    ensures Total(weight, Split(vec, k)) == weight(f)
  {
    hide Split, Starts, Total;
    var b := PlaceOf(vec, k, off);
    var fs := Split(vec, k);
    f := fs[b];
    var others := fs[..b] + fs[b + 1..];
    forall g | g in others
      ensures weight(g) == 0
    {
      var i :| 0 <= i < |fs| && i != b && fs[i] == g;
    }
    TotalWithout(weight, fs, b);
    TotalZero(weight, others);
  }

  /** One more vector brings one more frame to the entry, that of its own block. */
  lemma OneMoreVector(vecs: seq<seq<Word>>, k: nat, size: nat, off: nat, weight: Frame -> nat) returns (f: Frame)
    requires 0 < k && vecs != [] && Starts(size, k, off) && Only(weight, off)
    requires forall v :: v in vecs ==> |v| == size
    ensures |vecs[|vecs| - 1]| == size && forall v :: v in vecs[..|vecs| - 1] ==> |v| == size
    ensures f.Response? && f.offset == off && |f.data| == k && off + k <= size
    ensures forall j :: 0 <= j < k ==> f.data[j] == vecs[|vecs| - 1][off + j]
    ensures Total(weight, AllFrames(vecs, k)) == Total(weight, AllFrames(vecs[..|vecs| - 1], k)) + weight(f)
  {
    var vec := vecs[|vecs| - 1];
    assert vec in vecs;
    hide Split, Only, Starts, Total;
    TotalAppend(weight, AllFrames(vecs[..|vecs| - 1], k), Split(vec, k));
    f := OneOfSplit(vec, k, off, weight);
  }

  lemma {:induction false} HitsOfAll(vecs: seq<seq<Word>>, k: nat, size: nat, off: nat)
    requires 0 < k && Starts(size, k, off) && forall v :: v in vecs ==> |v| == size
    ensures Total(Hits(off), AllFrames(vecs, k)) == |vecs|
  {
    if vecs == [] {
    } else {
      assert Only(Hits(off), off);
      hide Total, AllFrames, Only, Starts;
      var f := OneMoreVector(vecs, k, size, off, Hits(off));
      HitsOfAll(vecs[..|vecs| - 1], k, size, off);
    }
  }

  lemma {:induction false} GainsOfAll(vecs: seq<seq<Word>>, k: nat, size: nat, off: nat, j: nat)
    requires 0 < k && Starts(size, k, off) && j < k && off + j < size
    requires forall v :: v in vecs ==> |v| == size
    ensures Total(Gains(off, j), AllFrames(vecs, k)) == Column(vecs, off + j)
  {
    if vecs == [] {
    } else {
      assert Only(Gains(off, j), off);
      hide Total, AllFrames, Only, Starts;
      var f := OneMoreVector(vecs, k, size, off, Gains(off, j));
      GainsOfAll(vecs[..|vecs| - 1], k, size, off, j);
    }
  }

  lemma {:induction false} FrameOfAll(vecs: seq<seq<Word>>, k: nat, size: nat, f: Frame)
    requires 0 < k && f in AllFrames(vecs, k) && forall v :: v in vecs ==> |v| == size
    ensures f.Response? && |f.data| == k && Starts(size, k, f.offset)
  {
    var vec := vecs[|vecs| - 1];
    assert vec in vecs;
    if f in Split(vec, k) {
      var b :| 0 <= b < |vec| / k && f == ChunkFrame(vec, k, b);
    } else {
      FrameOfAll(vecs[..|vecs| - 1], k, size, f);
    }
  }

  // ---- a round -----------------------------------------------------------------------------------------

  /** A node waits for its children with an empty table, and fs are the frames of their vectors in any
      order, from whichever child. */
  ghost predicate Waits(cfg: Config, s: State, vecs: seq<seq<Word>>, fs: seq<Frame>) {
    && cfg.Ok() && s.Ok(cfg.k) && Empty(s.chunks, cfg.k) && !s.asEnd && s.vsize > 0
    && cfg.children == |vecs| > 0 && (forall v :: v in vecs ==> |v| == s.vsize)
    && multiset(fs) == multiset(AllFrames(vecs, cfg.k))
  }

  lemma AllBlocks(cfg: Config, s: State, vecs: seq<seq<Word>>, fs: seq<Frame>)
    requires Waits(cfg, s, vecs, fs)
    ensures 0 < cfg.k && cfg.Ok() && s.Ok(cfg.k) && cfg.children > 0 && !s.asEnd
    ensures vecs != [] && forall v :: v in vecs ==> |v| == s.vsize
    ensures Blocks(fs, cfg.k) && Wide(s.chunks, cfg.k)
    ensures forall f :: f in fs ==> CanHandle(cfg, f)
  {
    forall f | f in fs
      ensures f.Response? && |f.data| == cfg.k
    {
      assert f in multiset(fs) && f in AllFrames(vecs, cfg.k);
      FrameOfAll(vecs, cfg.k, s.vsize, f);
    }
  }

  /** As many frames go to every entry as there are children. */
  lemma HitsInAll(cfg: Config, s: State, vecs: seq<seq<Word>>, fs: seq<Frame>, off: nat)
    requires Waits(cfg, s, vecs, fs) && Starts(s.vsize, cfg.k, off)
    ensures Total(Hits(off), fs) == cfg.children
  {
    TotalPermutes(Hits(off), fs, AllFrames(vecs, cfg.k));
    HitsOfAll(vecs, cfg.k, s.vsize, off);
  }

  lemma CompleteMeansFull(cfg: Config, s: State, chunks: map<nat, Chunk>, off: nat)
    requires cfg.Ok() && s.Ok(cfg.k) && Complete(cfg, chunks, s.vsize) && Starts(s.vsize, cfg.k, off)
    ensures off in chunks && chunks[off].count == cfg.children
  {
  }

  /** While the frame n is still to come, its entry is not full. */
  lemma NotYet(cfg: Config, s: State, vecs: seq<seq<Word>>, fs: seq<Frame>, n: nat)
    requires Waits(cfg, s, vecs, fs) && n < |fs|
    ensures Blocks(fs[..n], cfg.k) && Wide(s.chunks, cfg.k)
    ensures !Complete(cfg, TakenIn(s.chunks, cfg.k, fs[..n], cfg.children), s.vsize)
  {
    AllBlocks(cfg, s, vecs, fs);
    assert fs[n] in multiset(fs);
    FrameOfAll(vecs, cfg.k, s.vsize, fs[n]);
    var off := fs[n].offset;
    HitsInAll(cfg, s, vecs, fs, off);
    TotalWithout(Hits(off), fs, n);
    TotalAppend(Hits(off), fs[..n], fs[n + 1..]);
    var chunks := TakenIn(s.chunks, cfg.k, fs[..n], cfg.children);
    hide Total, AllFrames, Starts, Complete, TakenIn;
    EntryHolds(s.chunks, cfg.k, fs[..n], cfg.children, off, 0);
    if Complete(cfg, chunks, s.vsize) {
      CompleteMeansFull(cfg, s, chunks, off);
    }
  }

  lemma EntryIsFull(cfg: Config, s: State, vecs: seq<seq<Word>>, fs: seq<Frame>, off: nat, j: nat)
    requires Waits(cfg, s, vecs, fs) && Starts(s.vsize, cfg.k, off) && j < cfg.k && off + j < s.vsize
    ensures Blocks(fs, cfg.k) && Wide(s.chunks, cfg.k)
    ensures var chunks := TakenIn(s.chunks, cfg.k, fs, cfg.children);
      && off in chunks && chunks[off].count == cfg.children
      && chunks[off].data[j] == MeanAt(vecs, off + j)
  {
    AllBlocks(cfg, s, vecs, fs);
    HitsInAll(cfg, s, vecs, fs, off);
    TotalPermutes(Gains(off, j), fs, AllFrames(vecs, cfg.k));
    GainsOfAll(vecs, cfg.k, s.vsize, off, j);
    hide Total, AllFrames, Starts, TakenIn;
    EntryHolds(s.chunks, cfg.k, fs, cfg.children, off, j);
  }

  lemma EntryInRange(cfg: Config, s: State, i: nat, off: nat)
    requires cfg.Ok() && s.Ok(cfg.k) && i < Range(s.vsize, cfg.k) && off == i * cfg.k
    ensures Starts(s.vsize, cfg.k, off) && off < s.vsize
  {
    SliceFits(s.vsize, cfg.k, i);
  }

  predicate FullAt(chunks: map<nat, Chunk>, off: nat, kids: nat) {
    off in chunks && chunks[off].count == kids
  }

  lemma EntryCounts(cfg: Config, s: State, vecs: seq<seq<Word>>, fs: seq<Frame>, i: nat, off: nat)
    requires Waits(cfg, s, vecs, fs) && i < Range(s.vsize, cfg.k) && off == i * cfg.k
    ensures Blocks(fs, cfg.k) && Wide(s.chunks, cfg.k)
    ensures FullAt(TakenIn(s.chunks, cfg.k, fs, cfg.children), off, cfg.children)
  {
    EntryInRange(cfg, s, i, off);
    hide Starts, Range, TakenIn, Total;
    EntryIsFull(cfg, s, vecs, fs, off, 0);
  }

  lemma CompleteIfFull(cfg: Config, s: State, chunks: map<nat, Chunk>)
    requires cfg.Ok() && forall i :: 0 <= i < Range(s.vsize, cfg.k) ==> FullAt(chunks, i * cfg.k, cfg.children)
    ensures Complete(cfg, chunks, s.vsize)
  {
    hide Range;
    forall i | 0 <= i < Range(s.vsize, cfg.k)
      ensures i * cfg.k in chunks && chunks[i * cfg.k].count == cfg.children % 0x100
    {
      assert FullAt(chunks, i * cfg.k, cfg.children);
    }
  }

  lemma TableIsComplete(cfg: Config, s: State, vecs: seq<seq<Word>>, fs: seq<Frame>)
    requires Waits(cfg, s, vecs, fs)
    ensures Blocks(fs, cfg.k) && Wide(s.chunks, cfg.k)
    ensures Complete(cfg, TakenIn(s.chunks, cfg.k, fs, cfg.children), s.vsize)
  {
    hide *;
    AllBlocks(cfg, s, vecs, fs);
    var chunks := TakenIn(s.chunks, cfg.k, fs, cfg.children);
    forall i | 0 <= i < Range(s.vsize, cfg.k)
      ensures FullAt(chunks, i * cfg.k, cfg.children)
    {
      EntryCounts(cfg, s, vecs, fs, i, i * cfg.k);
    }
    CompleteIfFull(cfg, s, chunks);
  }

  lemma SizesAgree(cfg: Config, s: State)
    requires 0 < cfg.k && s.Ok(cfg.k)
    ensures |s.avg| == s.vsize && s.vsize % cfg.k == 0
  {
  }

  lemma ElementIsMean(cfg: Config, s: State, vecs: seq<seq<Word>>, fs: seq<Frame>, p: nat)
    requires Waits(cfg, s, vecs, fs) && p < s.vsize
    ensures Blocks(fs, cfg.k) && Wide(s.chunks, cfg.k)
    ensures Assembled(s.avg, cfg.k, TakenIn(s.chunks, cfg.k, fs, cfg.children))[p] == MeanAt(vecs, p)
  {
    hide *;
    AllBlocks(cfg, s, vecs, fs);
    var chunks := TakenIn(s.chunks, cfg.k, fs, cfg.children);
    WideTable(chunks, cfg.k);
    SizesAgree(cfg, s);
    var off, j := ElementFrom(s.avg, cfg.k, chunks, p);
    EntryIsFull(cfg, s, vecs, fs, off, j);
  }

  /** With the last frame every entry is full and holds the means. */
  lemma TableIsFull(cfg: Config, s: State, vecs: seq<seq<Word>>, fs: seq<Frame>)
    requires Waits(cfg, s, vecs, fs)
    ensures Blocks(fs, cfg.k) && Wide(s.chunks, cfg.k)
    ensures var chunks := TakenIn(s.chunks, cfg.k, fs, cfg.children);
      Complete(cfg, chunks, s.vsize) && Assembled(s.avg, cfg.k, chunks) == Means(vecs, s.vsize)
  {
    TableIsComplete(cfg, s, vecs, fs);
    hide TakenIn, Complete, MeanAt, Assembled;
    var out := Assembled(s.avg, cfg.k, TakenIn(s.chunks, cfg.k, fs, cfg.children));
    forall p | 0 <= p < s.vsize
      ensures out[p] == Means(vecs, s.vsize)[p]
    {
      ElementIsMean(cfg, s, vecs, fs, p);
    }
  }

  lemma FirstStarts(size: nat, k: nat)
    requires 0 < k && size > 0 && size % k == 0
    ensures Starts(size, k, 0)
  {
    assert size == size / k * k;
    assert 0 < size / k && 0 == 0 * k;
  }

  lemma SomeFrame(cfg: Config, s: State, vecs: seq<seq<Word>>, fs: seq<Frame>)
    requires Waits(cfg, s, vecs, fs)
    ensures fs != []
  {
    FirstStarts(s.vsize, cfg.k);
    HitsInAll(cfg, s, vecs, fs, 0);
    hide Waits, Starts, AllFrames;
  }

  lemma LastFills(cfg: Config, s: State, vecs: seq<seq<Word>>, fs: seq<Frame>)
    requires Waits(cfg, s, vecs, fs) && fs != []
    ensures Blocks(fs, cfg.k) && Wide(s.chunks, cfg.k)
    ensures var off, chunks := fs[|fs| - 1].offset, TakenIn(s.chunks, cfg.k, fs, cfg.children);
      off in chunks && chunks[off].count == cfg.children
  {
    AllBlocks(cfg, s, vecs, fs);
    TableIsComplete(cfg, s, vecs, fs);
    assert fs[|fs| - 1] in multiset(fs);
    FrameOfAll(vecs, cfg.k, s.vsize, fs[|fs| - 1]);
    CompleteMeansFull(cfg, s, TakenIn(s.chunks, cfg.k, fs, cfg.children), fs[|fs| - 1].offset);
  }

  /** OnResponse in terms of the tables before and after. */
  lemma Responded(cfg: Config, s: State, f: Frame, chunks: map<nat, Chunk>, chunks': map<nat, Chunk>)
    requires cfg.Ok() && s.Ok(cfg.k) && CanHandle(cfg, f) && f.Response? && s.chunks == chunks
    requires chunks' == chunks[f.offset := Bumped(ChunkAt(chunks, cfg.k, f.offset), f.data, cfg.children)]
    ensures var s' := s.(chunks := chunks');
      s'.Ok(cfg.k) && Handle(cfg, s, f) == if chunks'[f.offset].count == cfg.children then AvgEnd(cfg, s') else (s', [])
  {
    hide AvgEnd, ChunkAt;
  }

  lemma TakenOne(chunks: map<nat, Chunk>, k: nat, fs: seq<Frame>, kids: nat, n: nat)
    requires 0 < kids && Wide(chunks, k) && Blocks(fs, k) && n < |fs|
    ensures fs[n].Response? && |fs[n].data| == k && Blocks(fs[..n], k) && Blocks(fs[..n + 1], k)
    ensures var was := TakenIn(chunks, k, fs[..n], kids);
      TakenIn(chunks, k, fs[..n + 1], kids) ==
      was[fs[n].offset := Bumped(ChunkAt(was, k, fs[n].offset), fs[n].data, kids)]
  {
    assert fs[n] in fs && fs[..n + 1][..n] == fs[..n];
    assert forall f :: f in fs[..n + 1] ==> f in fs;
    hide Bumped, ChunkAt;
  }

  lemma Quiet(cfg: Config, s: State)
    requires cfg.Ok() && s.Ok(cfg.k) && !s.asEnd && !Complete(cfg, s.chunks, s.vsize)
    ensures AvgEnd(cfg, s) == (s, [])
  {
    hide Complete, AvgEnd;
    AvgEndCases(cfg, s);
  }

  /** What the handler makes of frame n. */
  lemma FrameIn(cfg: Config, s: State, vecs: seq<seq<Word>>, fs: seq<Frame>, n: nat)
    requires Waits(cfg, s, vecs, fs) && n < |fs|
    ensures CanHandle(cfg, fs[n]) && Wide(s.chunks, cfg.k)
    ensures Blocks(fs[..n], cfg.k) && Blocks(fs[..n + 1], cfg.k)
    ensures var before := s.(chunks := TakenIn(s.chunks, cfg.k, fs[..n], cfg.children));
      var after := s.(chunks := TakenIn(s.chunks, cfg.k, fs[..n + 1], cfg.children));
      before.Ok(cfg.k) ==>
        && after.Ok(cfg.k)
        && Handle(cfg, before, fs[n]) == if n + 1 < |fs| then (after, []) else AvgEnd(cfg, after)
  {
    hide *;
    AllBlocks(cfg, s, vecs, fs);
    assert fs[n] in fs;
    TakenOne(s.chunks, cfg.k, fs, cfg.children, n);
    var before := s.(chunks := TakenIn(s.chunks, cfg.k, fs[..n], cfg.children));
    var after := s.(chunks := TakenIn(s.chunks, cfg.k, fs[..n + 1], cfg.children));
    if before.Ok(cfg.k) {
      Responded(cfg, before, fs[n], before.chunks, after.chunks);
      if n + 1 < |fs| {
        NotYet(cfg, s, vecs, fs, n + 1);
        Quiet(cfg, after);
      } else {
        assert fs[..n + 1] == fs;
        LastFills(cfg, s, vecs, fs);
      }
    }
  }

  /** Until the last frame nothing happens but that the table fills. */
  lemma {:induction false} TableFills(cfg: Config, s: State, vecs: seq<seq<Word>>, fs: seq<Frame>, n: nat)
    requires Waits(cfg, s, vecs, fs) && n < |fs|
    ensures Blocks(fs[..n], cfg.k) && Wide(s.chunks, cfg.k)
    ensures forall f :: f in fs[..n] ==> CanHandle(cfg, f)
    ensures HandleAll(cfg, s, fs[..n]) == s.(chunks := TakenIn(s.chunks, cfg.k, fs[..n], cfg.children))
  {
    AllBlocks(cfg, s, vecs, fs);
    if n == 0 {
    } else {
      TableFills(cfg, s, vecs, fs, n - 1);
      assert fs[..n][..n - 1] == fs[..n - 1];
      assert forall f :: f in fs[..n] ==> f in fs;
      hide TakenIn, Handle, CanHandle, AvgEnd;
      FrameIn(cfg, s, vecs, fs, n - 1);
    }
  }

  /** The round is over: the average stands in avg and the table is empty; but with a round counter that
      wraps to zero the table stays full and nothing is written. */
  ghost predicate Closed(cfg: Config, s: State, vecs: seq<seq<Word>>, now: State)
    requires vecs != [] && forall v :: v in vecs ==> |v| == s.vsize
  {
    if s.curIter == 0xFFFF then now == s.(curIter := 0, chunks := now.chunks)
    else
      && now == s.(avg := Means(vecs, s.vsize), curIter := s.curIter + 1, chunks := now.chunks)
      && Empty(now.chunks, cfg.k)
  }

  /** What the end of a round hands to the sockets. */
  function Announced(cfg: Config, s: State, now: State): seq<Output> {
    (if now.curIter == 0 then [] else [Responses(now.avg)]) +
    [if now.curIter >= cfg.maxIteration then Stop else Requests(s.vsize)]
  }

  lemma FullCloses(cfg: Config, s: State, vecs: seq<seq<Word>>, full: State)
    requires cfg.Ok() && full.Ok(cfg.k) && full == s.(chunks := full.chunks) && !s.asEnd
    requires vecs != [] && (forall v :: v in vecs ==> |v| == s.vsize) && |s.avg| == s.vsize && s.vsize % cfg.k == 0
    requires Complete(cfg, full.chunks, s.vsize) && Assembled(s.avg, cfg.k, full.chunks) == Means(vecs, s.vsize)
    ensures var (now, out) := AvgEnd(cfg, full);
      Closed(cfg, s, vecs, now) && out == Announced(cfg, s, now)
  {
    hide Complete, AvgEnd, Means, Assembled;
    AvgEndCases(cfg, full);
  }

  lemma LastCloses(cfg: Config, s: State, vecs: seq<seq<Word>>, fs: seq<Frame>)
    requires Waits(cfg, s, vecs, fs)
    ensures Blocks(fs, cfg.k) && Wide(s.chunks, cfg.k)
    ensures var full := s.(chunks := TakenIn(s.chunks, cfg.k, fs, cfg.children));
      full.Ok(cfg.k) ==>
        var (now, out) := AvgEnd(cfg, full);
        Closed(cfg, s, vecs, now) && out == Announced(cfg, s, now)
  {
    hide *;
    AllBlocks(cfg, s, vecs, fs);
    TableIsFull(cfg, s, vecs, fs);
    var full := s.(chunks := TakenIn(s.chunks, cfg.k, fs, cfg.children));
    if full.Ok(cfg.k) {
      SizesAgree(cfg, s);
      FullCloses(cfg, s, vecs, full);
    }
  }

  /** Frame n of a round, the frames of all children in any order: all but the last only go into the
      table, and the last one closes the round with the average of the children's vectors, which is handed
      to the parents. */
  lemma RoundInAnyOrder(cfg: Config, s: State, vecs: seq<seq<Word>>, fs: seq<Frame>, n: nat)
    requires Waits(cfg, s, vecs, fs) && n < |fs|
    ensures CanHandle(cfg, fs[n]) && forall f :: f in fs[..n] ==> CanHandle(cfg, f)
    ensures var (now, out) := Handle(cfg, HandleAll(cfg, s, fs[..n]), fs[n]);
      if n + 1 < |fs| then now == s.(chunks := now.chunks) && out == []
      else Closed(cfg, s, vecs, now) && out == Announced(cfg, s, now)
  {
    TableFills(cfg, s, vecs, fs, n);
    FrameIn(cfg, s, vecs, fs, n);
    hide *;
    if n + 1 == |fs| {
      assert fs[..n + 1] == fs;
      LastCloses(cfg, s, vecs, fs);
    }
  }

  lemma LastHandled(cfg: Config, s: State, fs: seq<Frame>)
    requires cfg.Ok() && s.Ok(cfg.k) && fs != [] && forall f :: f in fs ==> CanHandle(cfg, f)
    ensures fs[|fs| - 1] in fs && forall f :: f in fs[..|fs| - 1] ==> f in fs
    ensures HandleAll(cfg, s, fs) == Handle(cfg, HandleAll(cfg, s, fs[..|fs| - 1]), fs[|fs| - 1]).0
  {
    hide Handle;
  }

  /** So whatever the order, the node ends the round with the average, ready for the next one. */
  lemma RoundCloses(cfg: Config, s: State, vecs: seq<seq<Word>>, fs: seq<Frame>)
    requires Waits(cfg, s, vecs, fs)
    ensures forall f :: f in fs ==> CanHandle(cfg, f)
    ensures Closed(cfg, s, vecs, HandleAll(cfg, s, fs))
  {
    hide *;
    AllBlocks(cfg, s, vecs, fs);
    SomeFrame(cfg, s, vecs, fs);
    LastHandled(cfg, s, fs);
    RoundInAnyOrder(cfg, s, vecs, fs, |fs| - 1);
  }

  lemma SameFrames(block: seq<Word>, k: nat)
    requires 0 < k == |block|
    ensures AllFrames([block, block], k) == [Response(0, block), Response(0, block)]
  {
    DivMod(1, k, 0);
    assert Block(block, k, 0) == block;
    assert Split(block, k) == [ChunkFrame(block, k, 0)];
    assert [block, block][..1] == [block] && [block][..0] == [];
    assert AllFrames([block], k) == [] + Split(block, k);
  }

  lemma MeansOfTwo(block: seq<Word>)
    ensures Means([block, block], |block|) == DivideWords(AddWords(block, block), 2)
  {
    var means := Means([block, block], |block|);
    assert [block, block][..1] == [block] && [block][..0] == [];
    forall p | 0 <= p < |block|
      ensures means[p] == (block[p] + block[p]) % WORD / 2
    {
      assert Column([block], p) == Column([], p) + block[p];
      assert Column([block, block], p) == Column([block], p) + block[p];
    }
  }

  lemma WaitsForSame(cfg: Config, s: State, block: seq<Word>)
    requires cfg.Ok() && s.Ok(cfg.k) && cfg.children == 2 && s.vsize == cfg.k == |block|
    requires s.chunks == map[] && !s.asEnd
    ensures Waits(cfg, s, [block, block], [Response(0, block), Response(0, block)])
  {
    SameFrames(block, cfg.k);
    hide AllFrames, Zeros;
  }

  /** At a node with two children a block that comes twice from one of them closes the round without the
      other: the average is that of the block with itself. */
  lemma RepeatedFrameSpoils(cfg: Config, s: State, block: seq<Word>)
    requires cfg.Ok() && s.Ok(cfg.k) && cfg.children == 2 && s.vsize == cfg.k == |block|
    requires s.chunks == map[] && !s.asEnd && s.curIter < 0xFFFF
    ensures forall f :: f in [Response(0, block), Response(0, block)] ==> CanHandle(cfg, f)
    ensures var r := HandleAll(cfg, s, [Response(0, block), Response(0, block)]);
      r.avg == DivideWords(AddWords(block, block), 2) && r.curIter == s.curIter + 1
  {
    hide Waits, HandleAll, Means, CanHandle, Empty, AddWords, DivideWords;
    WaitsForSame(cfg, s, block);
    RoundCloses(cfg, s, [block, block], [Response(0, block), Response(0, block)]);
    MeansOfTwo(block);
  }
}
