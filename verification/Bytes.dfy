/** Bytes, machine words and the little-endian images that memcpy moves in and out of buffers. */
module Bytes {
  import opened Arithmetic

  datatype Option<+T> = None | Some(value: T)

  type Byte = b: int | 0 <= b < 256

  const WORD: nat := 0x1_0000_0000_0000_0000
  type Word = w: int | 0 <= w < WORD

  function Pow256(n: nat): (p: nat)
    ensures p > 0
  {
    if n == 0 then 1 else 256 * Pow256(n - 1)
  }

  lemma Pow256Facts()
    ensures Pow256(2) == 0x1_0000 && Pow256(8) == WORD
  {
    assert Pow256(4) == 0x1_0000_0000;
    assert Pow256(6) == 0x1_0000_0000_0000;
  }

  /** The n low-order bytes of v, least significant first. */
  function Le(v: nat, n: nat): (s: seq<Byte>)
    ensures |s| == n
  {
    if n == 0 then [] else [v % 256] + Le(v / 256, n - 1)
  }

  function FromLe(s: seq<Byte>): (v: nat)
    ensures v < Pow256(|s|)
  {
    if s == [] then 0 else s[0] + 256 * FromLe(s[1..])
  }

  lemma {:induction false} LeRoundTrip(v: nat, n: nat)
    requires v < Pow256(n)
    ensures FromLe(Le(v, n)) == v
  {
    if n == 0 {
    } else {
      LeRoundTrip(v / 256, n - 1);
      assert Le(v, n)[1..] == Le(v / 256, n - 1);
    }
  }

  /** Byte i is digit i in base 256, the least significant first. */
  lemma {:induction false} LeDigit(v: nat, n: nat, i: nat)
    requires i < n
    ensures Le(v, n)[i] == v / Pow256(i) % 256
  {
    if i == 0 {
    } else {
      LeDigit(v / 256, n - 1, i - 1);
      QuotientTwice(v, 256, Pow256(i - 1));
    }
  }

  /** Vectors of 64-bit words as one byte string. */
  function WordsLe(d: seq<Word>): (s: seq<Byte>)
    ensures |s| == 8 * |d|
  {
    if d == [] then [] else WordsLe(d[..|d| - 1]) + Le(d[|d| - 1], 8)
  }

  lemma {:induction false} WordsLeAt(d: seq<Word>, i: nat)
    requires i < |d|
    ensures WordsLe(d)[8 * i..8 * i + 8] == Le(d[i], 8)
  {
    if i == |d| - 1 {
    } else {
      WordsLeAt(d[..|d| - 1], i);
      assert WordsLe(d)[8 * i..8 * i + 8] == WordsLe(d[..|d| - 1])[8 * i..8 * i + 8];
    }
  }

  lemma WordAt(d: seq<Word>, i: nat)
    requires i < |d|
    ensures FromLe(WordsLe(d)[8 * i..8 * i + 8]) == d[i]
  {
    WordsLeAt(d, i);
    Pow256Facts();
    LeRoundTrip(d[i], 8);
  }

  lemma U16RoundTrip(v: nat)
    requires v < 0x1_0000
    ensures FromLe(Le(v, 2)) == v
  {
    Pow256Facts();
    LeRoundTrip(v, 2);
  }

  lemma WordsLeSnoc(vec: seq<Word>, at: nat, i: nat)
    requires at + i < |vec|
    ensures WordsLe(vec[at..at + i + 1]) == WordsLe(vec[at..at + i]) + Le(vec[at + i], 8)
  {
    assert vec[at..at + i + 1][..i] == vec[at..at + i];
  }

  function Fill<T>(n: nat, v: T): (s: seq<T>)
    ensures |s| == n
    ensures forall i :: 0 <= i < n ==> s[i] == v
  {
    seq(n, _ => v)
  }

  lemma Associative<T>(a: seq<T>, b: seq<T>, c: seq<T>)
    ensures a + (b + c) == (a + b) + c
  {
  }

  function Flatten<T>(ss: seq<seq<T>>): seq<T> {
    if ss == [] then [] else ss[0] + Flatten(ss[1..])
  }

  lemma {:induction false} FlattenAppend<T>(a: seq<seq<T>>, b: seq<seq<T>>)
    ensures Flatten(a + b) == Flatten(a) + Flatten(b)
  {
    if a == [] {
      assert a + b == b;
    } else {
      FlattenAppend(a[1..], b);
      assert (a + b)[1..] == a[1..] + b;
      Associative(a[0], Flatten(a[1..]), Flatten(b));
    }
  }

  lemma DropTwice<T>(s: seq<T>, a: nat, b: nat)
    requires a + b <= |s|
    ensures s[a..][b..] == s[a + b..]
  {
  }

  lemma SubSlice<T>(s: seq<T>, a: nat, b: nat, c: nat, d: nat)
    requires a <= b <= |s| && c <= d <= b - a
    ensures s[a..b][c..d] == s[a + c..a + d]
  {
    var l, r := s[a..b][c..d], s[a + c..a + d];
    assert forall i :: 0 <= i < d - c ==> l[i] == r[i];
  }

  /** b with src laid over it from at on. */
  function Patch(b: seq<Byte>, at: nat, src: seq<Byte>): (r: seq<Byte>)
    requires at + |src| <= |b|
    ensures |r| == |b|
    ensures forall i :: 0 <= i < |b| ==> r[i] == if at <= i < at + |src| then src[i - at] else b[i]
  {
    b[..at] + src + b[at + |src|..]
  }

  /** A patch inside lo..hi leaves what is outside, and continues what lies before it. */
  lemma PatchSlices(b: seq<Byte>, at: nat, src: seq<Byte>, lo: nat, hi: nat)
    requires lo <= at && at + |src| <= hi <= |b|
    ensures var r := Patch(b, at, src);
      r[..lo] == b[..lo] && r[lo..at + |src|] == b[lo..at] + src && r[hi..] == b[hi..]
  {
  }

  /** memcpy of a byte string into a caller's buffer. */
  method CopyInto(dst: array<Byte>, at: nat, src: seq<Byte>)
    requires at + |src| <= dst.Length
    modifies dst
    ensures dst[..] == Patch(old(dst[..]), at, src)
  {
    forall i | 0 <= i < |src| {
      dst[at + i] := src[i];
    }
  }
}
