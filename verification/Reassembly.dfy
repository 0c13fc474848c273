/** Cutting a vector up, sending it, and putting it together again:
    innetwork-train/model/simple-MPI/simpleMPI.cc:137-174, 264-291 and 388-401. */
module Reassembly {
  import opened Arithmetic
  import opened Bytes
  import opened Codec
  import opened Node

  /** Responses of one block each. */
  predicate Blocks(fs: seq<Frame>, k: nat) {
    forall f :: f in fs ==> f.Response? && |f.data| == k
  }

  predicate Wide(chunks: map<nat, Chunk>, k: nat) {
    forall off :: off in chunks ==> |chunks[off].data| == k
  }

  /** The chunk table of a node with so many children once it has taken in the frames, one by one: each
      is added to its entry, counted, and divided with the last child's. */
  function TakenIn(chunks: map<nat, Chunk>, k: nat, fs: seq<Frame>, kids: nat): (r: map<nat, Chunk>)
    requires kids > 0 && Wide(chunks, k) && Blocks(fs, k)
    ensures Wide(r, k)
  {
    if fs == [] then chunks
    else
      var f := fs[|fs| - 1];
      assert f in fs;
      var rest := TakenIn(chunks, k, fs[..|fs| - 1], kids);
      rest[f.offset := Bumped(ChunkAt(rest, k, f.offset), f.data, kids)]
  }

  lemma {:induction false} Untouched(chunks: map<nat, Chunk>, k: nat, fs: seq<Frame>, kids: nat, off: nat)
    requires kids > 0 && Wide(chunks, k) && Blocks(fs, k) && forall f :: f in fs ==> f.offset != off
    ensures ChunkAt(TakenIn(chunks, k, fs, kids), k, off) == ChunkAt(chunks, k, off)
  {
    if fs == [] {
    } else {
      assert fs[|fs| - 1] in fs;
      Untouched(chunks, k, fs[..|fs| - 1], kids, off);
    }
  }

  /** An entry that one frame goes to is bumped once, whatever other frames come before and after. */
  lemma {:induction false} BumpedOnce(chunks: map<nat, Chunk>, k: nat, fs: seq<Frame>, kids: nat, i: nat)
    requires kids > 0 && Wide(chunks, k) && Blocks(fs, k) && i < |fs|
    requires forall j :: 0 <= j < |fs| && j != i ==> fs[j].offset != fs[i].offset
    ensures fs[i].offset in TakenIn(chunks, k, fs, kids)
    ensures TakenIn(chunks, k, fs, kids)[fs[i].offset] == Bumped(ChunkAt(chunks, k, fs[i].offset), fs[i].data, kids)
  {
    hide Bumped;
    var before := fs[..|fs| - 1];
    if i == |fs| - 1 {
      Untouched(chunks, k, before, kids, fs[i].offset);
    } else {
      assert before[i] == fs[i];
      BumpedOnce(chunks, k, before, kids, i);
    }
  }

  /** The first frame of an only child gives its entry the block itself. */
  lemma FirstOfOne(k: nat, block: seq<Word>)
    requires |block| == k
    ensures Bumped(Chunk(0, Zeros(k)), block, 1) == Chunk(1, block)
  {
    assert AddWords(Zeros(k), block) == block;
    assert DivideWords(block, 1) == block;
  }

  /** A frame that is taken in twice is counted and added twice. */
  lemma RepeatedFrame(k: nat, f: Frame)
    requires 0 < k && f.Response? && |f.data| == k
    ensures TakenIn(map[], k, [f, f], 1) == map[f.offset := Chunk(2, AddWords(f.data, f.data))]
  {
    FirstOfOne(k, f.data);
    assert [f, f][..1] == [f] && [f][..0] == [];
    assert TakenIn(map[], k, [f], 1) == map[f.offset := Chunk(1, f.data)];
  }

  /** All of these, each once, in some order. */
  ghost predicate EachOnce<T(!new)>(these: seq<T>, all: seq<T>) {
    && (forall x :: x in these <==> x in all)
    && forall i, j :: 0 <= i < j < |these| ==> these[i] != these[j]
  }

  /** Different frames of a vector have different offsets. */
  lemma OffsetsDiffer(vec: seq<Word>, k: nat, f: Frame, g: Frame)
    requires 0 < k && f in Split(vec, k) && g in Split(vec, k) && f != g
    ensures f.offset != g.offset
  {
    var i :| 0 <= i < |vec| / k && f == ChunkFrame(vec, k, i);
    var j :| 0 <= j < |vec| / k && g == ChunkFrame(vec, k, j);
    DivMod(i, k, 0);
    DivMod(j, k, 0);
  }

  /** No entry holds or counts anything: the table at the start, and after ClearChunkMap. */
  predicate Empty(chunks: map<nat, Chunk>, k: nat) {
    forall off :: off in chunks ==> chunks[off] == Chunk(0, Zeros(k))
  }

  /** A block of a vector of this size starts at off. */
  predicate Starts(size: nat, k: nat, off: nat) {
    exists b: nat :: 0 < k && b < size / k && off == b * k
  }

  lemma FrameAtOffset(vec: seq<Word>, k: nat, off: nat) returns (f: Frame)
    requires 0 < k && Starts(|vec|, k, off)
    ensures f in Split(vec, k) && off + k <= |vec| && f == Response(off, vec[off..off + k])
  {
    var b: nat :| b < |vec| / k && off == b * k;
    SliceFits(|vec|, k, b);
    f := Split(vec, k)[b];
  }

  lemma BlocksOfEach(vec: seq<Word>, k: nat, fs: seq<Frame>, chunks: map<nat, Chunk>)
    requires 0 < k && EachOnce(fs, Split(vec, k)) && Empty(chunks, k)
    ensures Blocks(fs, k) && Wide(chunks, k)
  {
  }

  lemma EntryIsBlock(vec: seq<Word>, k: nat, fs: seq<Frame>, chunks: map<nat, Chunk>, off: nat)
    requires 0 < k && Starts(|vec|, k, off) && EachOnce(fs, Split(vec, k)) && Empty(chunks, k)
    ensures Blocks(fs, k) && Wide(chunks, k) && off + k <= |vec|
    ensures off in TakenIn(chunks, k, fs, 1) && TakenIn(chunks, k, fs, 1)[off] == Chunk(1, vec[off..off + k])
  {
    BlocksOfEach(vec, k, fs, chunks);
    var f := FrameAtOffset(vec, k, off);
    var i :| 0 <= i < |fs| && fs[i] == f;
    hide Split, Bumped, Starts;
    forall j | 0 <= j < |fs| && j != i
      ensures fs[j].offset != off
    {
      assert fs[j] in fs && fs[i] in fs;
      OffsetsDiffer(vec, k, fs[j], fs[i]);
    }
    BumpedOnce(chunks, k, fs, 1, i);
    FirstOfOne(k, f.data);
  }

  lemma WideTable(chunks: map<nat, Chunk>, k: nat)
    requires Wide(chunks, k)
    ensures forall off :: off in chunks ==> |chunks[off].data| == k
  {
  }

  lemma ElementFrom(vec: seq<Word>, k: nat, chunks: map<nat, Chunk>, p: nat) returns (off: nat, j: nat)
    requires 0 < k && |vec| % k == 0 && p < |vec|
    requires forall off :: off in chunks ==> |chunks[off].data| == k
    ensures Starts(|vec|, k, off) && j < k && p == off + j
    ensures off in chunks ==> Assembled(vec, k, chunks)[p] == chunks[off].data[j]
  {
    var i;
    i, j := AssembledAt(vec, k, chunks, p);
    off := i * k;
  }

  lemma ElementComesBack(vec: seq<Word>, k: nat, fs: seq<Frame>, chunks: map<nat, Chunk>, into: seq<Word>, p: nat)
    requires 0 < k && |vec| % k == 0 && |into| == |vec| && EachOnce(fs, Split(vec, k)) && Empty(chunks, k)
    requires p < |vec|
    ensures Blocks(fs, k) && Wide(chunks, k)
    ensures Assembled(into, k, TakenIn(chunks, k, fs, 1))[p] == vec[p]
  {
    hide *;
    BlocksOfEach(vec, k, fs, chunks);
    var taken := TakenIn(chunks, k, fs, 1);
    WideTable(taken, k);
    var off, j := ElementFrom(into, k, taken, p);
    EntryIsBlock(vec, k, fs, chunks, off);
    SliceAt(vec, off, k, j);
  }

  /** The frames of a vector, taken in once each in any order into an empty table, give the vector back. */
  lemma FramesGiveVectorBack(vec: seq<Word>, k: nat, fs: seq<Frame>, chunks: map<nat, Chunk>, into: seq<Word>)
    requires 0 < k && |vec| % k == 0 && |into| == |vec| && EachOnce(fs, Split(vec, k)) && Empty(chunks, k)
    ensures Blocks(fs, k) && Wide(chunks, k)
    ensures Assembled(into, k, TakenIn(chunks, k, fs, 1)) == vec
  {
    hide *;
    BlocksOfEach(vec, k, fs, chunks);
    WideTable(TakenIn(chunks, k, fs, 1), k);
    var out := Assembled(into, k, TakenIn(chunks, k, fs, 1));
    forall p | 0 <= p < |vec|
      ensures out[p] == vec[p]
    {
      ElementComesBack(vec, k, fs, chunks, into, p);
    }
  }

  // ---- as bytes ------------------------------------------------------------------------------------

  /** What the receiver makes of byte strings that are all frames. */
  function Frames(bs: seq<seq<Byte>>): (fs: seq<Frame>)
    requires forall b :: b in bs ==> Decode(b).Some?
    ensures |fs| == |bs| && forall i :: 0 <= i < |bs| ==> fs[i] == Decode(bs[i]).value
  {
    seq(|bs|, i requires 0 <= i < |bs| => assert bs[i] in bs; Decode(bs[i]).value)
  }

  /** The byte strings a vector is sent as decode to its frames. */
  lemma ImagesDecode(vec: seq<Word>, k: nat, b: seq<Byte>)
    requires 0 < k <= 254 && |vec| < 0x1_0000 && b in Images(Split(vec, k))
    ensures Decode(b).Some? && Decode(b).value in Split(vec, k) && Wire(Decode(b).value) == b
  {
    var i :| 0 <= i < |Images(Split(vec, k))| && Images(Split(vec, k))[i] == b;
    SliceFits(|vec|, k, i);
    DecodeWire(Split(vec, k)[i]);
  }

  lemma FrameArrives(vec: seq<Word>, k: nat, bs: seq<seq<Byte>>, i: nat)
    requires 0 < k <= 254 && |vec| < 0x1_0000 && i < |vec| / k && EachOnce(bs, Images(Split(vec, k)))
    requires forall b :: b in bs ==> Decode(b).Some?
    ensures Split(vec, k)[i] in Frames(bs)
  {
    SliceFits(|vec|, k, i);
    DecodeWire(Split(vec, k)[i]);
    assert Images(Split(vec, k))[i] in bs;
    hide Decode, Wire;
    var j :| 0 <= j < |bs| && bs[j] == Images(Split(vec, k))[i];
    assert Frames(bs)[j] == Split(vec, k)[i];
  }

  lemma FramesEachOnce(vec: seq<Word>, k: nat, bs: seq<seq<Byte>>)
    requires 0 < k <= 254 && |vec| < 0x1_0000 && EachOnce(bs, Images(Split(vec, k)))
    ensures forall b :: b in bs ==> Decode(b).Some?
    ensures EachOnce(Frames(bs), Split(vec, k))
  {
    hide Decode, Wire, ChunkFrame;
    forall b | b in bs
      ensures Decode(b).Some? && Decode(b).value in Split(vec, k) && Wire(Decode(b).value) == b
    {
      ImagesDecode(vec, k, b);
    }
    var fs := Frames(bs);
    forall i, j | 0 <= i < j < |fs|
      ensures fs[i] != fs[j]
    {
      assert bs[i] in bs && bs[j] in bs;
    }
    forall f | f in Split(vec, k)
      ensures f in fs
    {
      var i :| 0 <= i < |Split(vec, k)| && Split(vec, k)[i] == f;
      FrameArrives(vec, k, bs, i);
    }
    forall f | f in fs
      ensures f in Split(vec, k)
    {
      var i :| 0 <= i < |fs| && fs[i] == f;
      assert bs[i] in bs;
    }
  }

  /** The byte strings SendResponseVTo sends for a vector, received once each in any order, decoded and
      taken in by a node with one child, are written out as the vector. */
  lemma ReassembleAnyOrder(vec: seq<Word>, k: nat, bs: seq<seq<Byte>>, chunks: map<nat, Chunk>, into: seq<Word>)
    requires 0 < k <= 254 && |vec| % k == 0 && |into| == |vec| < 0x1_0000
    requires EachOnce(bs, Images(Split(vec, k))) && Empty(chunks, k)
    ensures forall b :: b in bs ==> Decode(b).Some?
    ensures Blocks(Frames(bs), k) && Wide(chunks, k)
    ensures Assembled(into, k, TakenIn(chunks, k, Frames(bs), 1)) == vec
  {
    FramesEachOnce(vec, k, bs);
    hide Decode, Images, EachOnce;
    FramesGiveVectorBack(vec, k, Frames(bs), chunks, into);
  }
}
