/** Element-wise vector arithmetic on 64-bit words: innetwork-train/utils/vectorop.cc. */
module VectorOp {
  import opened Bytes

  /** The index is 8 bits wide, and so is the bound it is compared with: only the first size mod 256
      elements are touched. */
  method SumVector(sum: seq<Word>, vec1: seq<Word>, vec2: seq<Word>) returns (r: seq<Word>)
    requires |sum| % 256 <= |vec1| && |sum| % 256 <= |vec2|
    ensures |r| == |sum|
    ensures forall i :: 0 <= i < |sum| % 256 ==> r[i] == (vec1[i] + vec2[i]) % WORD
    ensures r[|sum| % 256..] == sum[|sum| % 256..]
  {
    r := sum;
    var i := 0;
    while i < |sum| % 256
      invariant 0 <= i <= |sum| % 256 && |r| == |sum|
      invariant forall j :: 0 <= j < i ==> r[j] == (vec1[j] + vec2[j]) % WORD
      invariant r[i..] == sum[i..]
    {
      r := r[i := (vec1[i] + vec2[i]) % WORD];
      i := i + 1;
    }
  }

  /** An 8-bit index never reaches a length of 256 or more, so the loop ends only below that. */
  method AvgVector(sum: seq<Word>, count: nat) returns (r: seq<Word>)
    requires 0 < count && |sum| < 256
    ensures |r| == |sum|
    ensures forall i :: 0 <= i < |sum| ==> r[i] == sum[i] / count
  {
    r := sum;
    var i := 0;
    while i < |sum|
      invariant 0 <= i <= |sum| && |r| == |sum|
      invariant forall j :: 0 <= j < i ==> r[j] == sum[j] / count
      invariant r[i..] == sum[i..]
    {
      r := r[i := r[i] / count];
      i := i + 1;
    }
  }
}
