/**
 Variable-length integers (Protocol Buffers encoding, "Base 128 Varints"), as the encoders write them into a
 buffer and the decoders read them from memory.

 A byte of a varint carries seven bits of the value. Where the code combines bits that cannot overlap with
 `|`, and takes low bits with a cast, the model adds and takes remainders.
 */
module Varint {

  type Byte = x: int | 0 <= x < 256
  type Bytes = seq<Byte>

  const TWO_TO_THE_32: nat := 0x1_0000_0000
  const TWO_TO_THE_63: nat := 0x8000_0000_0000_0000
  const TWO_TO_THE_64: nat := 0x1_0000_0000_0000_0000

  // --- The encoding ----------------------------------------------------------------------------------

  /** The low seven bits of v, with the bit that says more follow. */
  function Flagged(v: nat): Byte {
    v % 128 + 128
  }

  function Encode(v: nat): (bytes: Bytes)
    ensures |bytes| > 0
    decreases v
  {
    if v < 128 then [v] else [Flagged(v)] + Encode(v / 128)
  }

  function Pow128(k: nat): (p: nat)
    ensures p > 0
  {
    if k == 0 then 1 else 128 * Pow128(k - 1)
  }

  /** k bytes are enough exactly for the values below 128^k. */
  lemma {:induction false} EncodedLength(v: nat, k: nat)
    requires k > 0
    ensures |Encode(v)| <= k <==> v < Pow128(k)
    decreases k
  {
    if v >= 128 {
      if k == 1 {
        assert Pow128(1) == 128 * Pow128(0);
      } else {
        EncodedLength(v / 128, k - 1);
        assert Pow128(k) == 128 * Pow128(k - 1);
      }
    } else {
      assert Pow128(k) == 128 * Pow128(k - 1);
    }
  }

  lemma Powers()
    ensures Pow128(1) == 0x80 && Pow128(2) == 0x4000 && Pow128(3) == 0x20_0000 && Pow128(4) == 0x1000_0000
    ensures Pow128(5) == 0x8_0000_0000 && Pow128(9) == TWO_TO_THE_63 && Pow128(10) == 128 * TWO_TO_THE_63
  {
    assert Pow128(1) == 128 * Pow128(0);
    assert Pow128(2) == 128 * Pow128(1);
    assert Pow128(3) == 128 * Pow128(2);
    assert Pow128(4) == 128 * Pow128(3);
    assert Pow128(5) == 128 * Pow128(4);
    assert Pow128(6) == 128 * Pow128(5);
    assert Pow128(7) == 128 * Pow128(6);
    assert Pow128(8) == 128 * Pow128(7);
    assert Pow128(9) == 128 * Pow128(8);
  }

  method VarintLength(v: nat) returns (len: nat)
    ensures len == |Encode(v)|
  {
    len := 1;
    var rest := v;
    while rest >= 128
      invariant len - 1 + |Encode(rest)| == |Encode(v)|
    {
      rest := rest / 128;
      len := len + 1;
    }
  }

  // --- Writing into a buffer -------------------------------------------------------------------------

  /** A buffer with some bytes written over what was at p. */
  function Overwritten(buffer: Bytes, p: nat, bytes: Bytes): (r: Bytes)
    requires p + |bytes| <= |buffer|
    ensures |r| == |buffer|
  {
    buffer[..p] + bytes + buffer[p + |bytes|..]
  }

  lemma OverwrittenTwice(buffer: Bytes, p: nat, first: Bytes, second: Bytes)
    requires p + |first| + |second| <= |buffer|
    ensures Overwritten(Overwritten(buffer, p, first), p + |first|, second) == Overwritten(buffer, p, first + second)
  {
    var once := Overwritten(buffer, p, first);
    assert once[..p + |first|] == buffer[..p] + first;
    assert once[p + |first| + |second|..] == buffer[p + |first| + |second|..];
  }

  /** Write one byte and move on. */
  method PutByte(dst: array<Byte>, p: nat, b: Byte) returns (q: nat)
    requires p < dst.Length
    modifies dst
    ensures q == p + 1
    ensures dst[..] == Overwritten(old(dst[..]), p, [b])
  {
    dst[p] := b;
    q := p + 1;
  }

  /** The 64-bit encoder: a loop. Returns the position after the last byte written. */
  method EncodeVarint64(dst: array<Byte>, p: nat, v: nat) returns (q: nat)
    requires v < TWO_TO_THE_64
    requires p + |Encode(v)| <= dst.Length
    modifies dst
    ensures q == p + |Encode(v)|
    ensures dst[..] == Overwritten(old(dst[..]), p, Encode(v))
  {
    ghost var before, done := dst[..], [];
    hide Overwritten, Flagged;
    q := p;
    var rest := v;
    WriteNothing(before, p);
    while rest >= 128
      invariant q == p + |done|
      invariant done + Encode(rest) == Encode(v)
      invariant dst[..] == Overwritten(before, p, done)
    {
      OverwrittenTwice(before, p, done, [Flagged(rest)]);
      assert done + ([Flagged(rest)] + Encode(rest / 128)) == (done + [Flagged(rest)]) + Encode(rest / 128);
      done := done + [Flagged(rest)];
      q := PutByte(dst, q, Flagged(rest));
      rest := rest / 128;
    }
    OverwrittenTwice(before, p, done, [rest]);
    q := PutByte(dst, q, rest);
  }

  lemma WriteNothing(buffer: Bytes, p: nat)
    requires p <= |buffer|
    ensures Overwritten(buffer, p, []) == buffer
  {
  }

  /** Write the bytes one after the other. */
  method PutBytes(dst: array<Byte>, p: nat, bytes: Bytes) returns (q: nat)
    requires p + |bytes| <= dst.Length
    modifies dst
    ensures q == p + |bytes|
    ensures dst[..] == Overwritten(old(dst[..]), p, bytes)
  {
    ghost var before := dst[..];
    q := p;
    WriteNothing(before, p);
    for i := 0 to |bytes|
      invariant q == p + i
      invariant dst[..] == Overwritten(before, p, bytes[..i])
    {
      OverwrittenTwice(before, p, bytes[..i], [bytes[i]]);
      assert bytes[..i + 1] == bytes[..i] + [bytes[i]];
      q := PutByte(dst, q, bytes[i]);
    }
    assert bytes[..|bytes|] == bytes;
  }

  /** The 32-bit encoder: five unrolled cases, which write what the loop writes. */
  method EncodeVarint32(dst: array<Byte>, p: nat, v: nat) returns (q: nat)
    requires v < TWO_TO_THE_32
    requires p + |Encode(v)| <= dst.Length
    modifies dst
    ensures q == p + |Encode(v)|
    ensures dst[..] == Overwritten(old(dst[..]), p, Encode(v))
  {
    Unrolled(v);
    hide Encode, Overwritten;
    if v < 0x80 {
      q := PutBytes(dst, p, [v]);
    } else if v < 0x4000 {
      q := PutBytes(dst, p, [Flagged(v), v / 0x80]);
    } else if v < 0x20_0000 {
      q := PutBytes(dst, p, [Flagged(v), Flagged(v / 0x80), v / 0x4000]);
    } else if v < 0x1000_0000 {
      q := PutBytes(dst, p, [Flagged(v), Flagged(v / 0x80), Flagged(v / 0x4000), v / 0x20_0000]);
    } else {
      q := PutBytes(dst, p, [Flagged(v), Flagged(v / 0x80), Flagged(v / 0x4000), Flagged(v / 0x20_0000), v / 0x1000_0000]);
    }
  }

  lemma Unrolled(v: nat)
    requires v < TWO_TO_THE_32
    ensures Encode(v) ==
            if v < 0x80 then [v]
            else if v < 0x4000 then [Flagged(v), v / 0x80]
            else if v < 0x20_0000 then [Flagged(v), Flagged(v / 0x80), v / 0x4000]
            else if v < 0x1000_0000 then [Flagged(v), Flagged(v / 0x80), Flagged(v / 0x4000), v / 0x20_0000]
            else [Flagged(v), Flagged(v / 0x80), Flagged(v / 0x4000), Flagged(v / 0x20_0000), v / 0x1000_0000]
  {
    hide Flagged;
    var v1 := v / 128;
    var v2 := v1 / 128;
    var v3 := v2 / 128;
    var v4 := v3 / 128;
    assert v1 == v / 0x80 && v2 == v / 0x4000 && v3 == v / 0x20_0000 && v4 == v / 0x1000_0000;
    if v >= 0x80 {
      assert Encode(v) == [Flagged(v)] + Encode(v1);
      if v1 >= 0x80 {
        assert Encode(v1) == [Flagged(v1)] + Encode(v2);
        if v2 >= 0x80 {
          assert Encode(v2) == [Flagged(v2)] + Encode(v3);
          if v3 >= 0x80 {
            assert Encode(v3) == [Flagged(v3)] + Encode(v4);
          }
        }
      }
    }
  }

  // --- Reading from memory ---------------------------------------------------------------------------

  /** A decoded value and the position after it; no terminator before the limit; or a read past the memory. */
  datatype Parsed = Found(value: nat, next: nat) | NoTerminator | PastEnd

  /**
   The decoder loop from its k-th round on: at most `rounds` rounds, no byte at or after the limit, and the
   result kept in a word of `width` values.
   */
  function ParseFrom(s: Bytes, p: nat, limit: nat, k: nat, result: nat, rounds: nat, width: nat): Parsed
    requires width > 0
    decreases rounds - k
  {
    if k >= rounds || p >= limit then NoTerminator
    else if p >= |s| then PastEnd
    else
      var sum := result + (s[p] % 128) * Pow128(k) % width;
      if s[p] >= 128 then ParseFrom(s, p + 1, limit, k + 1, sum, rounds, width) else Found(sum, p + 1)
  }

  /** getVarint32PtrFallback: shifts 0 to 28. */
  function Parse32(s: Bytes, p: nat, limit: nat): Parsed {
    ParseFrom(s, p, limit, 0, 0, 5, TWO_TO_THE_32)
  }

  /** getVarint64Ptr: shifts 0 to 63. */
  function Parse64(s: Bytes, p: nat, limit: nat): Parsed {
    ParseFrom(s, p, limit, 0, 0, 10, TWO_TO_THE_64)
  }

  method Parse(s: Bytes, start: nat, limit: nat, rounds: nat, width: nat) returns (r: Parsed)
    requires width > 0
    ensures r == ParseFrom(s, start, limit, 0, 0, rounds, width)
  {
    var p: nat, k: nat, result: nat := start, 0, 0;
    while k < rounds && p < limit
      invariant k <= rounds
      invariant ParseFrom(s, p, limit, k, result, rounds, width) == ParseFrom(s, start, limit, 0, 0, rounds, width)
      decreases rounds - k
    {
      if p >= |s| {
        return PastEnd;
      }
      var byte := s[p];
      p := p + 1;
      result := result + byte % 128 * Pow128(k) % width;
      if byte < 128 {
        return Found(result, p);
      }
      k := k + 1;
    }
    r := NoTerminator;
  }

  /** getVarint32Ptr: one byte is decoded at once, anything else by the fallback; the fast path changes nothing. */
  method GetVarint32Ptr(s: Bytes, p: nat, limit: nat) returns (r: Parsed)
    ensures r == Parse32(s, p, limit)
  {
    if p < limit {
      if p >= |s| {
        return PastEnd;
      }
      var result := s[p];
      if result < 128 {
        assert Pow128(0) == 1;
        return Found(result, p + 1);
      }
    }
    r := Parse(s, p, limit, 5, TWO_TO_THE_32);
  }

  method GetVarint64Ptr(s: Bytes, p: nat, limit: nat) returns (r: Parsed)
    ensures r == Parse64(s, p, limit)
  {
    r := Parse(s, p, limit, 10, TWO_TO_THE_64);
  }

  // --- The decoders undo the encoders ----------------------------------------------------------------

  /** Memory s holds the bytes at p. */
  predicate Holds(s: Bytes, p: nat, bytes: Bytes) {
    p + |bytes| <= |s| && s[p..p + |bytes|] == bytes
  }

  /** Decoding a number that does not fit before the limit, or that fits both the limit and the word. */
  lemma {:induction false} ParseEncoded(s: Bytes, p: nat, limit: nat, v: nat, k: nat, result: nat, rounds: nat, width: nat)
    requires width > 0 && k <= rounds
    requires Holds(s, p, Encode(v))
    requires result + v * Pow128(k) < width
    ensures ParseFrom(s, p, limit, k, result, rounds, width) ==
            if p + |Encode(v)| <= limit && k + |Encode(v)| <= rounds
            then Found(result + v * Pow128(k), p + |Encode(v)|)
            else NoTerminator
    decreases v
  {
    var code := Encode(v);
    assert s[p] == code[0];
    if v >= 128 && k < rounds && p < limit {
      var rest := v / 128;
      var power := Pow128(k);
      SplitDigit(v, power);
      assert Pow128(k + 1) == 128 * power;
      SmallModulus(v % 128 * power, width);
      assert code[0] % 128 == v % 128;
      assert s[p + 1..p + |code|] == code[1..] == Encode(rest);
      ParseEncoded(s, p + 1, limit, rest, k + 1, result + v % 128 * power, rounds, width);
    } else if v < 128 {
      SmallModulus(v * Pow128(k), width);
    }
  }

  lemma SplitDigit(v: nat, power: nat)
    ensures v % 128 * power + v / 128 * (128 * power) == v * power
    ensures v % 128 * power <= v * power
  {
    var low, high := v % 128, v / 128;
    assert v == 128 * high + low;
    assert high * (128 * power) == 128 * high * power;
    assert v * power == 128 * high * power + low * power;
  }

  lemma SmallModulus(x: nat, width: nat)
    requires x < width
    ensures x % width == x
  {
  }

  /** The 32-bit decoder undoes the encoder, whatever follows in memory. */
  lemma Decode32(s: Bytes, p: nat, limit: nat, v: nat)
    requires v < TWO_TO_THE_32
    requires Holds(s, p, Encode(v)) && p + 5 <= limit
    ensures Parse32(s, p, limit) == Found(v, p + |Encode(v)|)
    ensures |Encode(v)| <= 5
  {
    Powers();
    EncodedLength(v, 5);
    assert Pow128(0) == 1;
    ParseEncoded(s, p, limit, v, 0, 0, 5, TWO_TO_THE_32);
  }

  /** With the nine bytes its callers allow, the 64-bit decoder undoes the encoder exactly below 2^63. */
  lemma Decode64NineBytes(s: Bytes, p: nat, v: nat)
    requires v < TWO_TO_THE_64
    requires Holds(s, p, Encode(v))
    ensures Parse64(s, p, p + 9) == Found(v, p + |Encode(v)|) <==> v < TWO_TO_THE_63
    ensures v >= TWO_TO_THE_63 ==> Parse64(s, p, p + 9) == NoTerminator
  {
    Powers();
    EncodedLength(v, 9);
    EncodedLength(v, 10);
    assert Pow128(0) == 1;
    ParseEncoded(s, p, p + 9, v, 0, 0, 10, TWO_TO_THE_64);
  }

  // --- Every string of bytes -------------------------------------------------------------------------

  /** At p there are n bytes that say more follow, and then one that does not. */
  ghost predicate EndsAfter(s: Bytes, p: nat, n: nat) {
    p + n < |s| && s[p + n] < 128 && forall i: nat | p <= i < p + n :: s[i] >= 128
  }

  lemma {:induction false} ParseFindsIff(s: Bytes, p: nat, limit: nat, k: nat, result: nat, rounds: nat, width: nat)
    requires width > 0
    ensures ParseFrom(s, p, limit, k, result, rounds, width).Found? <==>
            exists n: nat :: k + n < rounds && p + n < limit && EndsAfter(s, p, n)
    decreases rounds - k
  {
    if k < rounds && p < limit && p < |s| {
      if s[p] < 128 {
        assert EndsAfter(s, p, 0);
      } else {
        var sum := result + s[p] % 128 * Pow128(k) % width;
        ParseFindsIff(s, p + 1, limit, k + 1, sum, rounds, width);
        var q, next := p + 1, k + 1;
        if n: nat :| k + n < rounds && p + n < limit && EndsAfter(s, p, n) {
          assert EndsAfter(s, q, n - 1);
        }
        if n: nat :| next + n < rounds && q + n < limit && EndsAfter(s, q, n) {
          assert EndsAfter(s, p, n + 1);
        }
      }
    }
  }

  /** The decoders find a number exactly if one of the first five, or ten, bytes before the limit says that none follow. */
  lemma ParsedIff(s: Bytes, p: nat, limit: nat)
    ensures Parse32(s, p, limit).Found? <==> exists n: nat :: n < 5 && p + n < limit && EndsAfter(s, p, n)
    ensures Parse64(s, p, limit).Found? <==> exists n: nat :: n < 10 && p + n < limit && EndsAfter(s, p, n)
  {
    ParseFindsIff(s, p, limit, 0, 0, 5, TWO_TO_THE_32);
    ParseFindsIff(s, p, limit, 0, 0, 10, TWO_TO_THE_64);
  }

  /** Each byte of an encoding carries the next seven bits, and all but the last say that more follow. */
  lemma {:induction false} EncodedByte(v: nat, i: nat)
    requires i < |Encode(v)|
    ensures Encode(v)[i] == v / Pow128(i) % 128 + if i + 1 < |Encode(v)| then 128 else 0
    decreases i
  {
    if i == 0 {
      assert Pow128(0) == 1;
    } else {
      EncodedByte(v / 128, i - 1);
      DivideTwice(v, Pow128(i - 1));
      assert Pow128(i) == 128 * Pow128(i - 1);
    }
  }

  lemma DivideTwice(v: nat, d: nat)
    requires d > 0
    ensures v / 128 / d == v / (128 * d)
  {
    var a := v / 128;
    var q, r := a / d, a % d;
    assert a == d * q + r;
    assert v == 128 * (d * q + r) + v % 128;
    assert 128 * (d * q + r) == (128 * d) * q + 128 * r;
    QuotientIs(v, 128 * d, q, 128 * r + v % 128);
  }

  lemma QuotientIs(v: nat, d: nat, q: nat, r: nat)
    requires r < d && v == d * q + r
    ensures v / d == q
  {
    var e := v / d;
    assert v == d * e + v % d;
    InOrder(d, e + 1, q);
    InOrder(d, q + 1, e);
  }

  lemma InOrder(d: nat, a: nat, b: nat)
    ensures a <= b ==> d * a <= d * b
  {
  }

  // --- Lists -----------------------------------------------------------------------------------------

  function EncodeAll(values: seq<nat>): Bytes {
    if values == [] then [] else Encode(values[0]) + EncodeAll(values[1..])
  }

  /** Decode 32-bit values one after the other until one of them has no terminator. */
  function ParseAll32(s: Bytes, p: nat): seq<nat>
    requires p <= |s|
    decreases |s| - p
  {
    var parsed := Parse32(s, p, |s|);
    if parsed.Found? && p < parsed.next <= |s| then [parsed.value] + ParseAll32(s, parsed.next) else []
  }

  lemma DecodeToEnd32(s: Bytes, p: nat, v: nat)
    requires v < TWO_TO_THE_32
    requires Holds(s, p, Encode(v))
    ensures Parse32(s, p, |s|) == Found(v, p + |Encode(v)|)
  {
    Powers();
    EncodedLength(v, 5);
    assert Pow128(0) == 1;
    ParseEncoded(s, p, |s|, v, 0, 0, 5, TWO_TO_THE_32);
  }

  /** Any concatenated list decodes back, in order. */
  lemma {:induction false} DecodeAll32(s: Bytes, p: nat, values: seq<nat>)
    requires forall v <- values :: v < TWO_TO_THE_32
    requires p <= |s| && s[p..] == EncodeAll(values)
    ensures ParseAll32(s, p) == values
    decreases |values|
  {
    hide Parse32, Encode;
    if values == [] {
      assert |s| == p;
      EmptyRest(s);
    } else {
      var code := Encode(values[0]);
      assert values[0] in values;
      assert s[p..] == code + EncodeAll(values[1..]);
      assert Holds(s, p, code);
      DecodeToEnd32(s, p, values[0]);
      assert s[p + |code|..] == EncodeAll(values[1..]);
      assert forall v <- values[1..] :: v in values;
      DecodeAll32(s, p + |code|, values[1..]);
    }
  }

  lemma EmptyRest(s: Bytes)
    ensures Parse32(s, |s|, |s|) == NoTerminator
  {
  }
}
