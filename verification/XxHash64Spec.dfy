/**
 XXH64 as a function of the whole input (the "XXH64 Algorithm Description", steps 1 to 6, of the xxHash
 specification). All arithmetic wraps at 64 bits; words are read little-endian.
 */
module XxHash64Spec {

  const PRIME1: bv64 := 11400714785074694791
  const PRIME2: bv64 := 14029467366897019727
  const PRIME3: bv64 := 1609587929392839161
  const PRIME4: bv64 := 9650029242287828579
  const PRIME5: bv64 := 2870177450012600261

  /** Bytes in a block. */
  const BLOCK := 32

  function RotateLeft(x: bv64, bits: nat): bv64
    requires 0 < bits < 64
  {
    (x << bits) | (x >> (64 - bits))
  }

  /** Process a single 64-bit value. */
  function ProcessSingle(previous: bv64, input: bv64): bv64 {
    RotateLeft(previous + input * PRIME2, 31) * PRIME1
  }

  function Le32(data: seq<bv8>, p: nat): bv64
    requires p + 4 <= |data|
  {
    (data[p] as bv64) | ((data[p + 1] as bv64) << 8) | ((data[p + 2] as bv64) << 16) | ((data[p + 3] as bv64) << 24)
  }

  function Le64(data: seq<bv8>, p: nat): bv64
    requires p + 8 <= |data|
  {
    Le32(data, p) | (Le32(data, p + 4) << 32)
  }

  // --- Steps 1 and 2: the four accumulators ------------------------------------------------------------

  datatype Lanes = Lanes(s0: bv64, s1: bv64, s2: bv64, s3: bv64)

  function InitialLanes(seed: bv64): Lanes {
    Lanes(seed + PRIME1 + PRIME2, seed + PRIME2, seed, seed - PRIME1)
  }

  /** Process the block of 4x8 bytes at p. */
  function Process(lanes: Lanes, data: seq<bv8>, p: nat): Lanes
    requires p + BLOCK <= |data|
  {
    Lanes(ProcessSingle(lanes.s0, Le64(data, p)),
          ProcessSingle(lanes.s1, Le64(data, p + 8)),
          ProcessSingle(lanes.s2, Le64(data, p + 16)),
          ProcessSingle(lanes.s3, Le64(data, p + 24)))
  }

  /** All whole blocks of the data, in order. */
  function ProcessBlocks(lanes: Lanes, data: seq<bv8>): Lanes
    decreases |data|
  {
    if |data| < BLOCK then lanes else ProcessBlocks(Process(lanes, data, 0), data[BLOCK..])
  }

  /** What the whole blocks leave over. */
  function Tail(data: seq<bv8>): (tail: seq<bv8>)
    ensures |tail| == |data| % BLOCK
  {
    data[|data| - |data| % BLOCK..]
  }

  // --- Step 3: convergence -----------------------------------------------------------------------------

  function MergeLane(result: bv64, lane: bv64): bv64 {
    (result ^ ProcessSingle(0, lane)) * PRIME1 + PRIME4
  }

  function MixLanes(lanes: Lanes): bv64 {
    RotateLeft(lanes.s0, 1) + RotateLeft(lanes.s1, 7) + RotateLeft(lanes.s2, 12) + RotateLeft(lanes.s3, 18)
  }

  function Converge(lanes: Lanes): bv64 {
    MergeLane(MergeLane(MergeLane(MergeLane(MixLanes(lanes), lanes.s0), lanes.s1), lanes.s2), lanes.s3)
  }

  // --- Steps 4 and 5: length and tail ------------------------------------------------------------------

  const TWO_TO_THE_64: nat := 0x1_0000_0000_0000_0000

  /** The length is added as a 64-bit counter holds it. */
  function AddLength(start: bv64, length: nat): bv64 {
    start + (length % TWO_TO_THE_64) as bv64
  }

  /** An input shorter than a block starts from the seed alone. */
  function ShortStart(seed: bv64): bv64 {
    seed + PRIME5
  }

  function EatEight(result: bv64, word: bv64): bv64 {
    RotateLeft(result ^ ProcessSingle(0, word), 27) * PRIME1 + PRIME4
  }

  function EatFour(result: bv64, word: bv64): bv64 {
    RotateLeft(result ^ (word * PRIME1), 23) * PRIME2 + PRIME3
  }

  function EatOne(result: bv64, b: bv8): bv64 {
    RotateLeft(result ^ ((b as bv64) * PRIME5), 11) * PRIME1
  }

  function EatBytes(result: bv64, data: seq<bv8>): bv64
    decreases |data|
  {
    if data == [] then result else EatBytes(EatOne(result, data[0]), data[1..])
  }

  function EatTail(result: bv64, data: seq<bv8>): bv64
    decreases |data|
  {
    if |data| >= 8 then EatTail(EatEight(result, Le64(data, 0)), data[8..])
    else if |data| >= 4 then EatBytes(EatFour(result, Le32(data, 0)), data[4..])
    else EatBytes(result, data)
  }

  // --- Step 6: avalanche -------------------------------------------------------------------------------

  function Avalanche(result: bv64): bv64 {
    var r1 := (result ^ (result >> 33)) * PRIME2;
    var r2 := (r1 ^ (r1 >> 29)) * PRIME3;
    r2 ^ (r2 >> 32)
  }

  /** The 64-bit hash of a string under a seed. */
  function Xxh64(seed: bv64, data: seq<bv8>): bv64
    requires |data| < TWO_TO_THE_64
  {
    var start := if |data| < BLOCK then ShortStart(seed) else Converge(ProcessBlocks(InitialLanes(seed), data));
    Avalanche(EatTail(AddLength(start, |data|), Tail(data)))
  }

  // --- Properties --------------------------------------------------------------------------------------

  lemma {:induction false} ProcessBlocksConcat(lanes: Lanes, a: seq<bv8>, b: seq<bv8>)
    requires |a| % BLOCK == 0
    ensures ProcessBlocks(lanes, a + b) == ProcessBlocks(ProcessBlocks(lanes, a), b)
    decreases |a|
  {
    hide Process;
    if a == [] {
      assert a + b == b;
    } else {
      ProcessPrefix(lanes, a, b);
      assert (a + b)[BLOCK..] == a[BLOCK..] + b;
      ProcessBlocksConcat(Process(lanes, a, 0), a[BLOCK..], b);
    }
  }

  lemma ProcessPrefix(lanes: Lanes, a: seq<bv8>, b: seq<bv8>)
    requires |a| >= BLOCK
    ensures Process(lanes, a + b, 0) == Process(lanes, a, 0)
  {
    hide ProcessSingle;
    hide Le64;
    Le64Prefix(a, b, 0);
    Le64Prefix(a, b, 8);
    Le64Prefix(a, b, 16);
    Le64Prefix(a, b, 24);
  }

  lemma Le64Prefix(a: seq<bv8>, b: seq<bv8>, p: nat)
    requires p + 8 <= |a|
    ensures Le64(a + b, p) == Le64(a, p)
  {
  }
}
