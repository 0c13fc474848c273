/** The packet tag and its base-128 integers: quic/model/ns3-quic-tag.cc. */
module Tag {
  import opened Arithmetic
  import opened Bytes

  const INT64_RANGE: nat := 0x8000_0000_0000_0000

  // ---- the format ----------------------------------------------------------------------------------

  /** Seven bits a byte, least significant first, the top bit set on all but the last; nothing for 0. */
  function Encode(v: nat): (b: seq<Byte>) {
    if v == 0 then [] else if v < 128 then [v] else [v % 128 + 128] + Encode(v / 128)
  }

  /** The number a run of bytes spells out in base 128. */
  function Value(b: seq<Byte>): nat {
    if b == [] then 0 else b[0] % 128 + 128 * Value(b[1..])
  }

  /** Bytes up to and including the first without its top bit. */
  function Stop(b: seq<Byte>): (n: Option<nat>)
    ensures n.Some? ==> 0 < n.value <= |b| && b[n.value - 1] < 128
    ensures n.Some? ==> forall i :: 0 <= i < n.value - 1 ==> b[i] >= 128
    ensures n.None? ==> forall i :: 0 <= i < |b| ==> b[i] >= 128
  {
    if b == [] then None
    else if b[0] < 128 then Some(1)
    else match Stop(b[1..])
      case None => None
      case Some(n) => Some(n + 1)
  }

  /** Value and number of bytes read; None when the bytes run out. */
  function Decode(b: seq<Byte>): Option<(nat, nat)> {
    match Stop(b)
    case None => None
    case Some(n) => Some((Value(b[..n]) % WORD, n))
  }

  function Digits(v: nat): (n: nat)
    ensures v > 0 ==> n > 0
  {
    if v == 0 then 0 else 1 + Digits(v / 128)
  }

  /** varint_length: the argument is looked at as a signed 64-bit number. */
  function VarintLength(v: nat): nat
    requires v < WORD
  {
    if v == 0 then 0 else if v < INT64_RANGE then Digits(v) else 1
  }

  lemma EncodeStep(v: nat)
    requires v > 0
    ensures Encode(v) == [if v / 128 > 0 then v % 128 + 128 else v % 128] + Encode(v / 128)
  {
  }

  lemma LowDigit(v: nat)
    ensures (v % 128 + 128) % 128 == v % 128 && v % 128 + 128 * (v / 128) == v
  {
  }

  /** One more byte in front of a run. */
  lemma LongerRun(x: Byte, run: seq<Byte>, rest: seq<Byte>)
    requires x >= 128 && Stop(run + rest).Some?
    ensures Value([x] + run) == x % 128 + 128 * Value(run)
    ensures Stop([x] + run + rest) == Some(1 + Stop(run + rest).value)
  {
    assert ([x] + run)[1..] == run && ([x] + run + rest)[1..] == run + rest;
  }

  lemma LastByte(x: Byte, rest: seq<Byte>)
    requires x < 128
    ensures Value([x]) == x && Stop([x] + rest) == Some(1)
  {
    assert [x][1..] == [];
  }

  lemma {:induction false} EncodeSpells(v: nat, rest: seq<Byte>)
    requires v > 0
    ensures Value(Encode(v)) == v && |Encode(v)| > 0
    ensures Stop(Encode(v) + rest) == Some(|Encode(v)|)
  {
    if v < 128 {
      LastByte(v, rest);
    } else {
      EncodeStep(v);
      LowDigit(v);
      hide Encode, Value, Stop;
      EncodeSpells(v / 128, rest);
      LongerRun(v % 128 + 128, Encode(v / 128), rest);
    }
  }

  /** For every number but 0, decoding inverts encoding and stops where it should, whatever follows. */
  lemma VarintRoundTrip(v: nat, rest: seq<Byte>)
    requires 0 < v < WORD
    ensures Decode(Encode(v) + rest) == Some((v, |Encode(v)|))
  {
    EncodeSpells(v, rest);
    assert (Encode(v) + rest)[..|Encode(v)|] == Encode(v);
  }

  function Pow128(n: nat): (p: nat)
    ensures p > 0
  {
    if n == 0 then 1 else 128 * Pow128(n - 1)
  }

  /** Byte i is digit i in base 128, the least significant first, with the top bit on all but the last
      byte; and there are no more digits. */
  lemma {:induction false} EncodeDigit(v: nat, i: nat)
    requires i < |Encode(v)|
    ensures Encode(v)[i] == v / Pow128(i) % 128 + if i + 1 < |Encode(v)| then 128 else 0
    ensures i + 1 == |Encode(v)| <==> v / Pow128(i) < 128
  {
    if i == 0 {
      assert v / Pow128(0) == v;
    } else {
      EncodeStep(v);
      EncodeDigit(v / 128, i - 1);
      QuotientTwice(v, 128, Pow128(i - 1));
    }
  }

  lemma {:induction false} DigitsAreBytes(v: nat)
    ensures Digits(v) == |Encode(v)|
  {
    if v < 128 {
    } else {
      DigitsAreBytes(v / 128);
    }
  }

  /** The announced length is the written length exactly for numbers below 2^63. */
  lemma LengthAgreesIff(v: nat)
    requires v < WORD
    ensures VarintLength(v) == |Encode(v)| <==> v < INT64_RANGE
    ensures v >= INT64_RANGE ==> VarintLength(v) == 1 < |Encode(v)|
  {
    DigitsAreBytes(v);
    if v >= INT64_RANGE {
      DigitsAreBytes(v / 128);
      assert |Encode(v)| == 1 + Digits(v / 128) && Digits(v / 128) > 0;
    }
  }

  // ---- the tag -------------------------------------------------------------------------------------

  function Image(s: nat, t: nat): seq<Byte> {
    Encode(s) + Encode(t)
  }

  function SerializedSize(s: nat, t: nat): nat
    requires s < WORD && t < WORD
  {
    VarintLength(s) + VarintLength(t)
  }

  /** Both fields and the bytes read. */
  function Parse(b: seq<Byte>): Option<(nat, nat, nat)> {
    match Decode(b)
    case None => None
    case Some((s, n)) =>
      match Decode(b[n..])
      case None => None
      case Some((t, m)) => Some((s, t, n + m))
  }

  lemma TagRoundTrip(s: nat, t: nat, rest: seq<Byte>)
    requires 0 < s < WORD && 0 < t < WORD
    ensures Parse(Image(s, t) + rest) == Some((s, t, |Image(s, t)|))
  {
    hide Encode, Decode;
    Associative(Encode(s), Encode(t), rest);
    VarintRoundTrip(s, Encode(t) + rest);
    VarintRoundTrip(t, rest);
    assert (Image(s, t) + rest)[|Encode(s)|..] == Encode(t) + rest;
  }

  lemma ReadsOn(v: nat)
    requires 0 < v < WORD
    ensures Parse(Encode(v) + [0, 0]) == Some((v, 0, |Encode(v)| + 1))
  {
    VarintRoundTrip(v, [0, 0]);
    assert (Encode(v) + [0, 0])[|Encode(v)|..] == [0, 0];
    assert [0, 0][..1] == [0];
    assert Decode([0, 0]) == Some((0, 1));
  }

  /** A zero field leaves no byte, so the reader takes its neighbour's bytes or those behind the tag. */
  lemma ZeroFieldReadsOn(s: nat, t: nat)
    requires s < WORD && t < WORD && (s == 0 || t == 0)
    ensures var r := Parse(Image(s, t) + [0, 0]);
            r.Some? && r.value.2 > |Image(s, t)|
  {
    if s == 0 && t == 0 {
      assert Image(s, t) + [0, 0] == [0, 0];
      assert [0, 0][..1] == [0] && [0, 0][1..] == [0] && [0][..1] == [0];
    } else {
      ReadsOn(if s == 0 then t else s);
      assert Image(s, t) == Encode(if s == 0 then t else s);
    }
  }

  /** Deserialize returns what Serialize wrote, and reads exactly the announced size, whatever follows. */
  ghost predicate Faithful(s: nat, t: nat)
    requires s < WORD && t < WORD
  {
    forall rest: seq<Byte> :: Parse(Image(s, t) + rest) == Some((s, t, SerializedSize(s, t)))
  }

  lemma FaithfulIffSized(s: nat, t: nat)
    requires 0 < s < WORD && 0 < t < WORD
    ensures Faithful(s, t) <==> SerializedSize(s, t) == |Image(s, t)|
  {
    hide Image, Parse, SerializedSize;
    forall rest: seq<Byte>
      ensures Parse(Image(s, t) + rest) == Some((s, t, |Image(s, t)|))
    {
      TagRoundTrip(s, t, rest);
    }
    assert Parse(Image(s, t) + []) == Some((s, t, |Image(s, t)|));
  }

  lemma ZeroIsUnfaithful(s: nat, t: nat)
    requires s < WORD && t < WORD && (s == 0 || t == 0)
    ensures !Faithful(s, t)
  {
    LengthAgreesIff(s);
    LengthAgreesIff(t);
    ZeroFieldReadsOn(s, t);
    hide Parse, Encode, VarintLength;
    assert Parse(Image(s, t) + [0, 0]) != Some((s, t, SerializedSize(s, t)));
  }

  /** That is so if and only if both fields lie strictly between 0 and 2^63. */
  lemma TagIsFaithfulIff(s: nat, t: nat)
    requires s < WORD && t < WORD
    ensures Faithful(s, t) <==> 0 < s < INT64_RANGE && 0 < t < INT64_RANGE
  {
    hide Faithful, Encode, VarintLength;
    if s == 0 || t == 0 {
      ZeroIsUnfaithful(s, t);
    } else {
      FaithfulIffSized(s, t);
      LengthAgreesIff(s);
      LengthAgreesIff(t);
    }
  }

  // ---- the program ---------------------------------------------------------------------------------

  /** A cursor over a byte array. */
  class TagBuffer {
    const data: array<Byte>
    var current: nat

    ghost predicate Valid()
      reads this
    {
      current <= data.Length
    }

    constructor (data: array<Byte>)
      ensures this.data == data && current == 0 && Valid()
    {
      this.data, current := data, 0;
    }

    method WriteU8(v: Byte)
      requires Valid() && current < data.Length
      modifies this`current, data
      ensures Valid() && current == old(current) + 1
      ensures data[..] == Patch(old(data[..]), old(current), [v])
    {
      data[current] := v;
      current := current + 1;
    }

    method ReadU8() returns (v: Byte)
      requires Valid() && current < data.Length
      modifies this`current
      ensures Valid() && current == old(current) + 1 && v == data[old(current)]
    {
      v := data[current];
      current := current + 1;
    }
  }

  lemma PatchSnoc(b: seq<Byte>, at: nat, done: seq<Byte>, v: Byte)
    requires at + |done| + 1 <= |b|
    ensures Patch(Patch(b, at, done), at + |done|, [v]) == Patch(b, at, done + [v])
  {
  }

  lemma NothingPatched(b: seq<Byte>, at: nat)
    requires at <= |b|
    ensures Patch(b, at, []) == b
  {
  }

  lemma NothingEncoded()
    ensures Encode(0) == []
  {
  }

  method VarintEncode(i: TagBuffer, value: nat)
    requires i.Valid() && value < WORD && i.current + |Encode(value)| <= i.data.Length
    modifies i`current, i.data
    ensures i.Valid() && i.current == old(i.current) + |Encode(value)|
    ensures i.data[..] == Patch(old(i.data[..]), old(i.current), Encode(value))
  {
    hide Patch;
    ghost var b0, at := i.data[..], i.current;
    ghost var done: seq<Byte> := [];
    NothingPatched(b0, at);
    NothingEncoded();
    hide Encode;
    var next := value;
    if next != 0 {
      var more := true;
      while more
        invariant i.Valid() && at + |Encode(value)| <= i.data.Length == |b0|
        invariant done + Encode(next) == Encode(value) && i.current == at + |done|
        invariant more <==> next > 0
        invariant i.data[..] == Patch(b0, at, done)
        decreases next
      {
        var first := next % 128;
        var byte := if next / 128 > 0 then first + 128 else first;
        EncodeStep(next);
        next := next / 128;
        PatchSnoc(b0, at, done, byte);
        i.WriteU8(byte);
        done := done + [byte];
        more := next > 0;
      }
      assert done == Encode(value);
    }
  }

  lemma ScaleUp(d: nat, p: nat)
    ensures d * (128 * p) == 128 * (d * p)
  {
  }

  lemma {:induction false} ValueSnoc(b: seq<Byte>, x: Byte)
    ensures Value(b + [x]) == Value(b) + (x % 128) * Pow128(|b|)
  {
    if b == [] {
      assert [x][1..] == [];
    } else {
      ValueSnoc(b[1..], x);
      assert (b + [x])[1..] == b[1..] + [x];
      ScaleUp(x % 128, Pow128(|b| - 1));
    }
  }

  lemma ReduceFactor(d: nat, p: nat)
    ensures d * p == d * (p % WORD) + d * (p / WORD) * WORD
  {
    var q, m := p / WORD, p % WORD;
    assert p == q * WORD + m;
    assert d * (q * WORD + m) == d * q * WORD + d * m;
  }

  lemma ReduceSum(sum: nat, x: nat, y: nat, q: nat)
    requires y == x + q * WORD
    ensures (sum % WORD + x) % WORD == (sum + y) % WORD
  {
    assert sum + y == sum % WORD + x + (sum / WORD + q) * WORD;
    DropMultiple(sum % WORD + x, sum / WORD + q, WORD);
  }

  lemma ReduceDigit(p: nat)
    ensures (p % WORD * 128) % WORD == (128 * p) % WORD
  {
    assert 128 * p == p % WORD * 128 + (128 * (p / WORD)) * WORD;
    DropMultiple(p % WORD * 128, 128 * (p / WORD), WORD);
  }

  /** Products and sums may be reduced modulo 2^64 at any point. */
  lemma ReduceEarly(sum: nat, d: nat, p: nat)
    ensures (sum % WORD + d * (p % WORD)) % WORD == (sum + d * p) % WORD
    ensures (p % WORD * 128) % WORD == (128 * p) % WORD
  {
    ReduceDigit(p);
    ReduceFactor(d, p);
    ReduceSum(sum, d * (p % WORD), d * p, d * (p / WORD));
  }

  /** Reads until a byte without its top bit; ok is false when the buffer ends first. */
  method VarientDecode(i: TagBuffer) returns (ok: bool, value: nat)
    requires i.Valid()
    modifies i`current
    ensures i.Valid()
    ensures match Decode(old(i.data[i.current..]))
            case Some((v, n)) => ok && value == v && i.current == old(i.current) + n
            case None => !ok
  {
    ghost var b := i.data[i.current..];
    ghost var n: nat := 0;
    var remain, remainMulti := 0, 1;
    var byte: Byte := 128;
    while byte >= 128
      invariant i.Valid() && n <= |b| && i.current == old(i.current) + n
      invariant forall j :: 0 <= j < n - 1 ==> b[j] >= 128
      invariant n == 0 ==> byte == 128
      invariant n > 0 ==> byte == b[n - 1]
      invariant remain == Value(b[..n]) % WORD && remainMulti == Pow128(n) % WORD
      decreases |b| - n, byte
    {
      if i.current == i.data.Length {
        return false, 0;
      }
      byte := i.ReadU8();
      ValueSnoc(b[..n], byte);
      assert b[..n + 1] == b[..n] + [byte];
      ReduceEarly(Value(b[..n]), byte % 128, Pow128(n));
      remain := (remain + byte % 128 * remainMulti) % WORD;
      remainMulti := remainMulti * 128 % WORD;
      n := n + 1;
    }
    ok, value := true, remain;
  }

  /** varint_length, with its signed counter. */
  method VarintLengthOf(number: nat) returns (key: nat)
    requires number < WORD
    ensures key == VarintLength(number)
  {
    var next := if number < INT64_RANGE then number else number - WORD;
    key := 0;
    if next != 0 {
      // Division truncates towards zero, so a negative number never gets above it.
      next := if next >= 0 then next / 128 else -(-next / 128);
      key := 1;
      while next > 0
        invariant number >= INT64_RANGE ==> next <= 0 && key == 1
        invariant number < INT64_RANGE ==> next >= 0 && key + Digits(next) == Digits(number)
        decreases next
      {
        next := next / 128;
        key := key + 1;
      }
    }
  }

  class Ns3QuicTag {
    var sequence: nat
    var time: nat

    ghost predicate Valid()
      reads this
    {
      sequence < WORD && time < WORD
    }

    constructor (s: nat, t: nat)
      requires s < WORD && t < WORD
      ensures Valid() && sequence == s && time == t
    {
      sequence, time := s, t;
    }

    method GetSerializedSize() returns (n: nat)
      requires Valid()
      ensures n == SerializedSize(sequence, time)
    {
      var a := VarintLengthOf(sequence);
      var b := VarintLengthOf(time);
      n := a + b;
    }

    method Serialize(i: TagBuffer)
      requires Valid() && i.Valid() && i.current + |Image(sequence, time)| <= i.data.Length
      modifies i`current, i.data
      ensures i.Valid() && i.current == old(i.current) + |Image(sequence, time)|
      ensures i.data[..] == Patch(old(i.data[..]), old(i.current), Image(sequence, time))
    {
      ghost var b := i.data[..];
      VarintEncode(i, sequence);
      VarintEncode(i, time);
      assert i.data[..] == Patch(b, old(i.current), Image(sequence, time));
    }

    method Deserialize(i: TagBuffer) returns (ok: bool)
      requires i.Valid()
      modifies this, i`current
      ensures i.Valid()
      ensures match Parse(old(i.data[i.current..]))
              case Some((s, t, n)) => ok && Valid() && sequence == s && time == t && i.current == old(i.current) + n
              case None => !ok
    {
      ghost var b := i.data[i.current..];
      ok, sequence := VarientDecode(i);
      if ok {
        assert i.data[i.current..] == b[i.current - old(i.current)..];
        ok, time := VarientDecode(i);
      }
    }
  }
}
