/**
 The bit set and the Bloom filter with four hash functions. The hash functions are arbitrary; what matters
 is that the same ones are used to insert and to match.
 */
module Bloom {
  import opened Varint

  type Bits = seq<bv8>

  // --- Bits ------------------------------------------------------------------------------------------

  /** The tables of masks with one bit on, and with one bit off. */
  function SetMask(i: nat): bv8
    requires i < 8
  {
    match i
    case 0 => 1
    case 1 => 2
    case 2 => 4
    case 3 => 8
    case 4 => 16
    case 5 => 32
    case 6 => 64
    case 7 => 128
  }

  function DelMask(i: nat): bv8
    requires i < 8
  {
    match i
    case 0 => 254
    case 1 => 253
    case 2 => 251
    case 3 => 247
    case 4 => 239
    case 5 => 223
    case 6 => 191
    case 7 => 127
  }

  // One byte at a time.

  predicate ByteTest(b: bv8, i: nat)
    requires i < 8
  {
    b & SetMask(i) != 0
  }

  function ByteSet(b: bv8, i: nat): bv8
    requires i < 8
  {
    b | SetMask(i)
  }

  function ByteDel(b: bv8, i: nat): bv8
    requires i < 8
  {
    b & DelMask(i)
  }

  lemma MasksOverlap(i: nat, j: nat)
    requires i < 8 && j < 8
    ensures SetMask(i) & SetMask(j) == if i == j then SetMask(j) else 0
    ensures DelMask(i) & SetMask(j) == if i == j then 0 else SetMask(j)
    ensures SetMask(j) != 0
  {
  }

  lemma MasksSelect(b: bv8, i: nat, j: nat)
    requires i < 8 && j < 8
    ensures ByteTest(ByteSet(b, i), j) <==> i == j || ByteTest(b, j)
    ensures ByteTest(ByteDel(b, i), j) <==> i != j && ByteTest(b, j)
  {
    MasksOverlap(i, j);
    var m, d, t := SetMask(i), DelMask(i), SetMask(j);
    hide SetMask, DelMask;
    assert (b | m) & t == (b & t) | (m & t);
    assert (b & d) & t == b & (d & t);
  }

  // The whole set.

  predicate TestBit(bits: Bits, i: nat)
    requires i / 8 < |bits|
  {
    ByteTest(bits[i / 8], i % 8)
  }

  function SetBit(bits: Bits, i: nat): Bits
    requires i / 8 < |bits|
  {
    bits[i / 8 := ByteSet(bits[i / 8], i % 8)]
  }

  function DelBit(bits: Bits, i: nat): Bits
    requires i / 8 < |bits|
  {
    bits[i / 8 := ByteDel(bits[i / 8], i % 8)]
  }

  /** Setting a bit turns on that bit and no other. */
  lemma SetBitTurnsOn(bits: Bits, i: nat, j: nat)
    requires i / 8 < |bits| && j / 8 < |bits|
    ensures TestBit(SetBit(bits, i), j) <==> i == j || TestBit(bits, j)
  {
    hide ByteTest, ByteSet;
    MasksSelect(bits[i / 8], i % 8, j % 8);
    SameBit(i, j);
  }

  /** Deleting a bit turns off that bit and no other. */
  lemma DelBitTurnsOff(bits: Bits, i: nat, j: nat)
    requires i / 8 < |bits| && j / 8 < |bits|
    ensures TestBit(DelBit(bits, i), j) <==> i != j && TestBit(bits, j)
  {
    hide ByteTest, ByteDel;
    MasksSelect(bits[i / 8], i % 8, j % 8);
    SameBit(i, j);
  }

  lemma SameBit(i: nat, j: nat)
    ensures i == j <==> i / 8 == j / 8 && i % 8 == j % 8
  {
  }

  class BitSet {
    const data: array<bv8>

    constructor (n: nat)
      requires n >= 64
      ensures fresh(data) && data.Length == n / 8
      ensures data[..] == seq(n / 8, _ => 0)
    {
      data := new bv8[n / 8](_ => 0);
      new;
      assert data[..] == seq(n / 8, _ => 0);
    }

    method Set(i: nat)
      requires i / 8 < data.Length
      modifies data
      ensures data[..] == SetBit(old(data[..]), i)
      ensures forall j: nat | j / 8 < data.Length :: TestBit(data[..], j) <==> i == j || old(TestBit(data[..], j))
    {
      hide ByteTest, ByteSet, TestBit;
      ghost var bits := data[..];
      data[i / 8] := ByteSet(data[i / 8], i % 8);
      assert data[..] == SetBit(bits, i);
      forall j: nat | j / 8 < data.Length ensures TestBit(data[..], j) <==> i == j || TestBit(bits, j) {
        SetBitTurnsOn(bits, i, j);
      }
    }

    method Del(i: nat)
      requires i / 8 < data.Length
      modifies data
      ensures data[..] == DelBit(old(data[..]), i)
      ensures forall j: nat | j / 8 < data.Length :: TestBit(data[..], j) <==> i != j && old(TestBit(data[..], j))
    {
      hide ByteTest, ByteDel, TestBit;
      ghost var bits := data[..];
      data[i / 8] := ByteDel(data[i / 8], i % 8);
      assert data[..] == DelBit(bits, i);
      forall j: nat | j / 8 < data.Length ensures TestBit(data[..], j) <==> i != j && TestBit(bits, j) {
        DelBitTurnsOff(bits, i, j);
      }
    }

    method Test(i: nat) returns (b: bool)
      requires i / 8 < data.Length
      ensures b <==> TestBit(data[..], i)
    {
      b := ByteTest(data[i / 8], i % 8);
    }
  }

  /** Every index below n has its byte exactly when n is a multiple of eight. */
  lemma IndicesInRangeIff(n: nat)
    requires n >= 64
    ensures (forall i: nat | i < n :: i / 8 < n / 8) <==> n % 8 == 0
  {
    if n % 8 != 0 {
      var last: nat := n - 1;
      assert last / 8 == n / 8;
    }
  }

  // --- The filter ------------------------------------------------------------------------------------

  /** Four hashes of a key under the filter's seed. */
  type Hashing = Bytes -> (nat, nat, nat, nat)

  /** The data of a filter of n bits. */
  predicate FilterData(bits: Bits, n: nat) {
    n >= 64 && n % 8 == 0 && |bits| == n / 8
  }

  lemma BitInRange(n: nat, h: nat)
    requires n >= 64 && n % 8 == 0
    ensures h % n / 8 < n / 8
  {
  }

  predicate Matches(bits: Bits, n: nat, h: (nat, nat, nat, nat))
    requires FilterData(bits, n)
  {
    BitInRange(n, h.0);
    BitInRange(n, h.1);
    BitInRange(n, h.2);
    BitInRange(n, h.3);
    TestBit(bits, h.0 % n) && TestBit(bits, h.1 % n) && TestBit(bits, h.2 % n) && TestBit(bits, h.3 % n)
  }

  function Inserted(bits: Bits, n: nat, h: (nat, nat, nat, nat)): (r: Bits)
    requires FilterData(bits, n)
    ensures FilterData(r, n)
  {
    BitInRange(n, h.0);
    BitInRange(n, h.1);
    BitInRange(n, h.2);
    BitInRange(n, h.3);
    SetBit(SetBit(SetBit(SetBit(bits, h.0 % n), h.1 % n), h.2 % n), h.3 % n)
  }

  lemma InsertedTests(bits: Bits, n: nat, h: (nat, nat, nat, nat), i: nat)
    requires FilterData(bits, n) && i / 8 < |bits|
    ensures TestBit(Inserted(bits, n, h), i) <==>
            TestBit(bits, i) || i == h.0 % n || i == h.1 % n || i == h.2 % n || i == h.3 % n
  {
    BitInRange(n, h.0);
    BitInRange(n, h.1);
    BitInRange(n, h.2);
    BitInRange(n, h.3);
    var b1 := SetBit(bits, h.0 % n);
    var b2 := SetBit(b1, h.1 % n);
    var b3 := SetBit(b2, h.2 % n);
    SetBitTurnsOn(bits, h.0 % n, i);
    SetBitTurnsOn(b1, h.1 % n, i);
    SetBitTurnsOn(b2, h.2 % n, i);
    SetBitTurnsOn(b3, h.3 % n, i);
    hide TestBit, SetBit;
  }

  /** No false negatives: an inserted key matches, and what matched before still does. */
  lemma InsertedMatches(bits: Bits, n: nat, h: (nat, nat, nat, nat), g: (nat, nat, nat, nat))
    requires FilterData(bits, n)
    ensures Matches(Inserted(bits, n, h), n, h)
    ensures Matches(bits, n, g) ==> Matches(Inserted(bits, n, h), n, g)
  {
    BitInRange(n, h.0);
    BitInRange(n, h.1);
    BitInRange(n, h.2);
    BitInRange(n, h.3);
    BitInRange(n, g.0);
    BitInRange(n, g.1);
    BitInRange(n, g.2);
    BitInRange(n, g.3);
    InsertedTests(bits, n, h, h.0 % n);
    InsertedTests(bits, n, h, h.1 % n);
    InsertedTests(bits, n, h, h.2 % n);
    InsertedTests(bits, n, h, h.3 % n);
    InsertedTests(bits, n, h, g.0 % n);
    InsertedTests(bits, n, h, g.1 % n);
    InsertedTests(bits, n, h, g.2 % n);
    InsertedTests(bits, n, h, g.3 % n);
    hide TestBit, Inserted;
  }

  /** The filter after the keys of a list, in that order. */
  function InsertedAll(n: nat, hashing: Hashing, keys: seq<Bytes>): (r: Bits)
    requires n >= 64 && n % 8 == 0
    ensures FilterData(r, n)
  {
    if keys == [] then seq(n / 8, _ => 0)
    else Inserted(InsertedAll(n, hashing, keys[..|keys| - 1]), n, hashing(keys[|keys| - 1]))
  }

  /** One of the four hashes of one of the keys leads to the place. */
  ghost predicate IsPlaceOf(n: nat, hashing: Hashing, keys: seq<Bytes>, place: nat)
    requires n > 0
  {
    exists key <- keys :: var h := hashing(key); place in [h.0 % n, h.1 % n, h.2 % n, h.3 % n]
  }

  lemma {:induction false} BitsAreThePlaces(n: nat, hashing: Hashing, keys: seq<Bytes>, i: nat)
    requires n >= 64 && n % 8 == 0 && i < n
    ensures i / 8 < n / 8
    ensures TestBit(InsertedAll(n, hashing, keys), i) <==> IsPlaceOf(n, hashing, keys, i)
  {
    BitInRange(n, i);
    if keys != [] {
      var front, last := keys[..|keys| - 1], keys[|keys| - 1];
      assert keys == front + [last];
      BitsAreThePlaces(n, hashing, front, i);
      InsertedTests(InsertedAll(n, hashing, front), n, hashing(last), i);
      hide TestBit, Inserted;
      if key :| key in keys && var h := hashing(key); i in [h.0 % n, h.1 % n, h.2 % n, h.3 % n] {
        assert key in front || key == last;
      }
    }
  }

  /** A key matches a filled filter exactly if each of its four places is a place of an inserted key. */
  lemma MatchesIffPlaces(n: nat, hashing: Hashing, keys: seq<Bytes>, key: Bytes)
    requires n >= 64 && n % 8 == 0
    ensures var h := hashing(key);
            Matches(InsertedAll(n, hashing, keys), n, h) <==>
            forall place <- [h.0 % n, h.1 % n, h.2 % n, h.3 % n] :: IsPlaceOf(n, hashing, keys, place)
  {
    var h := hashing(key);
    BitsAreThePlaces(n, hashing, keys, h.0 % n);
    BitsAreThePlaces(n, hashing, keys, h.1 % n);
    BitsAreThePlaces(n, hashing, keys, h.2 % n);
    BitsAreThePlaces(n, hashing, keys, h.3 % n);
    hide TestBit, IsPlaceOf, InsertedAll;
  }

  class BloomFilter {
    const n: nat
    const hashing: Hashing
    const filter: BitSet

    ghost predicate Valid()
      reads this, filter, filter.data
    {
      FilterData(filter.data[..], n)
    }

    constructor (n: nat, hashing: Hashing)
      requires n >= 64 && n % 8 == 0
      ensures Valid() && fresh(filter) && fresh(filter.data)
      ensures this.n == n && this.hashing == hashing
      ensures filter.data[..] == seq(n / 8, _ => 0)
    {
      this.n := n;
      this.hashing := hashing;
      filter := new BitSet(n);
    }

    method Insert(key: Bytes)
      requires Valid()
      modifies filter.data
      ensures Valid()
      ensures filter.data[..] == Inserted(old(filter.data[..]), n, hashing(key))
    {
      hide SetBit;
      var h := hashing(key);
      BitInRange(n, h.0);
      BitInRange(n, h.1);
      BitInRange(n, h.2);
      BitInRange(n, h.3);
      filter.Set(h.0 % n);
      filter.Set(h.1 % n);
      filter.Set(h.2 % n);
      filter.Set(h.3 % n);
    }

    method IsMatch(key: Bytes) returns (b: bool)
      requires Valid()
      ensures b <==> Matches(filter.data[..], n, hashing(key))
    {
      hide TestBit;
      var h := hashing(key);
      BitInRange(n, h.0);
      BitInRange(n, h.1);
      BitInRange(n, h.2);
      BitInRange(n, h.3);
      b := filter.Test(h.0 % n);
      if b {
        b := filter.Test(h.1 % n);
      }
      if b {
        b := filter.Test(h.2 % n);
      }
      if b {
        b := filter.Test(h.3 % n);
      }
    }
  }
}
