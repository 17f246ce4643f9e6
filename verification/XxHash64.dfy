/**
 The streaming XXH64 object: four accumulators, a 32-byte carry buffer and a length counter. However the
 input is cut into chunks, the digest is that of the whole.
 */
module XxHash64 {
  import opened Common
  import opened XxHash64Spec

  /** The blocks and the tail of data that grows: the tail moves along, the blocks are only added to. */
  lemma Regroup(lanes: Lanes, fed: seq<bv8>, input: seq<bv8>)
    ensures ProcessBlocks(lanes, fed + input) == ProcessBlocks(ProcessBlocks(lanes, fed), Tail(fed) + input)
    ensures Tail(fed + input) == Tail(Tail(fed) + input)
  {
    hide Process;
    var whole := fed[..|fed| - |fed| % BLOCK];
    assert fed == whole + Tail(fed);
    assert fed + input == whole + (Tail(fed) + input);
    TailIsSmall(fed);
    hide ProcessBlocks;
    ProcessBlocksConcat(lanes, whole, Tail(fed) + input);
    ProcessBlocksConcat(lanes, whole, Tail(fed));
    NoBlocks(ProcessBlocks(lanes, whole), Tail(fed));
    TailOfWholeBlocks(whole, Tail(fed) + input);
  }

  lemma TailIsSmall(data: seq<bv8>)
    ensures |Tail(data)| < BLOCK
    ensures (|data| - |data| % BLOCK) % BLOCK == 0
  {
  }

  lemma NoBlocks(lanes: Lanes, data: seq<bv8>)
    requires |data| < BLOCK
    ensures ProcessBlocks(lanes, data) == lanes
  {
  }

  lemma TailOfWholeBlocks(whole: seq<bv8>, rest: seq<bv8>)
    requires |whole| % BLOCK == 0
    ensures Tail(whole + rest) == Tail(rest)
  {
    assert |whole + rest| % BLOCK == |rest| % BLOCK;
    var n := |rest| - |rest| % BLOCK;
    assert (whole + rest)[|whole| + n..] == rest[n..];
  }

  /** One more block of the data, read where it lies. */
  lemma NextBlock(lanes: Lanes, data: seq<bv8>, p: nat)
    requires p + BLOCK <= |data|
    ensures ProcessBlocks(lanes, data[p..]) == ProcessBlocks(Process(lanes, data, p), data[p + BLOCK..])
  {
    hide ProcessSingle, Le64;
    forall k: nat | k <= 24
      ensures Le64(data, p + k) == Le64(data[p..], k)
    {
      Le64At(data, p, k);
    }
    assert data[p..][BLOCK..] == data[p + BLOCK..];
  }

  lemma Le64At(data: seq<bv8>, p: nat, k: nat)
    requires p + k + 8 <= |data|
    ensures Le64(data, p + k) == Le64(data[p..], k)
  {
  }

  /** A first block that has been gathered elsewhere. */
  lemma FirstBlock(lanes: Lanes, block: seq<bv8>, rest: seq<bv8>)
    requires |block| == BLOCK
    ensures ProcessBlocks(lanes, block + rest) == ProcessBlocks(Process(lanes, block, 0), rest)
  {
    hide ProcessSingle, Le64;
    ProcessPrefix(lanes, block, rest);
    assert (block + rest)[BLOCK..] == rest;
  }

  lemma TailIs(data: seq<bv8>, n: nat)
    requires n <= |data| < n + BLOCK && n % BLOCK == 0
    ensures Tail(data) == data[n..]
  {
  }

  /** The block that the carried bytes and the first of the input fill. */
  lemma BlockFilled(lanes: Lanes, carried: seq<bv8>, input: seq<bv8>, from: nat, block: seq<bv8>)
    requires from <= |input| && |block| == BLOCK && block == carried + input[..from]
    ensures ProcessBlocks(lanes, carried + input) == ProcessBlocks(Process(lanes, block, 0), input[from..])
  {
    hide Process, ProcessBlocks;
    FirstBlock(lanes, block, input[from..]);
    assert carried + input == block + input[from..];
  }

  /** Behind whole blocks only the rest of the input is left. */
  lemma RestIsTail(carried: seq<bv8>, input: seq<bv8>, from: nat, data: nat)
    requires from <= data <= |input| < data + BLOCK
    requires (|carried| + from) % BLOCK == 0 && (data - from) % BLOCK == 0
    ensures Tail(carried + input) == input[data..data + (|input| - data)]
  {
    TailIs(carried + input, |carried| + data);
    hide Tail;
    assert (carried + input)[|carried| + data..] == input[data..];
  }

  lemma CountOn(count: nat, more: nat)
    ensures (count % TWO_TO_THE_64 + more) % TWO_TO_THE_64 == (count + more) % TWO_TO_THE_64
  {
  }

  class XXHash64 {
    var state: Lanes
    const buffer: array<bv8>
    var bufferSize: nat
    var totalLength: nat

    /** Everything added since the seed was set, and that seed. */
    ghost var fed: seq<bv8>
    ghost var seed: bv64

    ghost predicate Valid()
      reads this, buffer
    {
      && buffer.Length == BLOCK
      && bufferSize == |fed| % BLOCK
      && buffer[..bufferSize] == Tail(fed)
      && state == ProcessBlocks(InitialLanes(seed), fed)
      && totalLength == |fed| % TWO_TO_THE_64
    }

    constructor (seed: bv64)
      ensures Valid() && fresh(buffer)
      ensures fed == [] && this.seed == seed
    {
      state := InitialLanes(seed);
      buffer := new bv8[BLOCK];
      bufferSize := 0;
      totalLength := 0;
      fed := [];
      this.seed := seed;
    }

    method Init(seed: bv64)
      requires Valid()
      modifies this
      ensures Valid()
      ensures fed == [] && this.seed == seed
    {
      hide InitialLanes, ProcessBlocks, Tail;
      state := InitialLanes(seed);
      bufferSize := 0;
      totalLength := 0;
      fed := [];
      this.seed := seed;
      NoBlocks(state, fed);
      assert Tail(fed) == [];
    }

    /** Byte-wise copy of input[from..from + count] behind what the buffer holds. */
    method Gather(input: seq<bv8>, from: nat, count: nat)
      requires buffer.Length == BLOCK
      requires from + count <= |input| && bufferSize + count <= BLOCK
      modifies this`bufferSize, buffer
      ensures bufferSize == old(bufferSize) + count
      ensures buffer[..bufferSize] == old(buffer[..bufferSize]) + input[from..from + count]
    {
      var data := from;
      while data < from + count
        invariant from <= data <= from + count
        invariant bufferSize == old(bufferSize) + data - from
        invariant buffer[..bufferSize] == old(buffer[..bufferSize]) + input[from..data]
      {
        buffer[bufferSize] := input[data];
        bufferSize, data := bufferSize + 1, data + 1;
      }
    }

    /** 32 bytes at once, straight from the input, for as long as whole blocks are left. */
    static method ProcessInput(start: Lanes, input: seq<bv8>, from: nat) returns (s: Lanes, data: nat)
      requires from <= |input|
      ensures from <= data <= |input| < data + BLOCK
      ensures (data - from) % BLOCK == 0
      ensures s == ProcessBlocks(start, input[from..])
    {
      hide Process, ProcessBlocks;
      s, data := start, from;
      while data + BLOCK <= |input|
        invariant from <= data <= |input|
        invariant (data - from) % BLOCK == 0
        invariant ProcessBlocks(s, input[data..]) == ProcessBlocks(start, input[from..])
      {
        NextBlock(s, input, data);
        s := Process(s, input, data);
        data := data + BLOCK;
      }
      NoBlocks(s, input[data..]);
    }

    /** Add a chunk of bytes; false if there is nothing to add. */
    method Add(input: seq<bv8>) returns (added: bool)
      requires Valid()
      modifies this, buffer
      ensures Valid()
      ensures fed == old(fed) + input && seed == old(seed)
      ensures added <==> input != []
    {
      hide Process, InitialLanes, ProcessBlocks, Tail;
      if input == [] {
        assert fed + input == fed;
        return false;
      }
      Regroup(InitialLanes(seed), fed, input);
      CountOn(|fed|, |input|);
      totalLength := (totalLength + |input|) % TWO_TO_THE_64;
      if bufferSize + |input| < BLOCK {
        AddToBuffer(input, Tail(fed));
      } else {
        AddBlocks(input, Tail(fed));
      }
      fed := fed + input;
      added := true;
    }

    /** The old data plus the new still fit in the buffer. */
    method AddToBuffer(input: seq<bv8>, ghost carried: seq<bv8>)
      requires buffer.Length == BLOCK && bufferSize + |input| < BLOCK
      requires buffer[..bufferSize] == carried
      modifies this`bufferSize, buffer
      ensures state == ProcessBlocks(state, carried + input)
      ensures bufferSize < BLOCK && buffer[..bufferSize] == Tail(carried + input)
    {
      hide Process, ProcessBlocks, Tail;
      Gather(input, 0, |input|);
      assert input[0..|input|] == input;
      NoBlocks(state, carried + input);
      TailIs(carried + input, 0);
      assert (carried + input)[0..] == carried + input;
    }

    /** Complete the buffered block, process it and the blocks after it, and keep the rest. */
    method AddBlocks(input: seq<bv8>, ghost carried: seq<bv8>)
      requires buffer.Length == BLOCK && bufferSize < BLOCK <= bufferSize + |input|
      requires buffer[..bufferSize] == carried
      modifies this`state, this`bufferSize, buffer
      ensures state == ProcessBlocks(old(state), carried + input)
      ensures bufferSize < BLOCK && buffer[..bufferSize] == Tail(carried + input)
    {
      hide Process, ProcessBlocks, Tail;
      ghost var start := state;
      var data := 0;
      if bufferSize > 0 {
        data := BLOCK - bufferSize;
        Gather(input, 0, data);
        assert buffer[..] == buffer[..BLOCK] == carried + input[0..data];
        BlockFilled(start, carried, input, data, buffer[..]);
        state := Process(state, buffer[..], 0);
      } else {
        assert carried + input == input[0..];
      }
      var from := data;
      assert ProcessBlocks(start, carried + input) == ProcessBlocks(state, input[from..]);
      state, data := ProcessInput(state, input, from);
      RestIsTail(carried, input, from, data);
      bufferSize := 0;
      Gather(input, data, |input| - data);
    }

    /** The digest of everything added so far; the object can go on being added to. */
    method Hash() returns (result: bv64)
      requires Valid()
      ensures |fed| < TWO_TO_THE_64 ==> result == Xxh64(seed, fed)
    {
      hide MixLanes, MergeLane, ShortStart, AddLength, Avalanche;
      hide ProcessBlocks, EatTail, Tail;
      if totalLength >= BLOCK {
        result := MixLanes(state);
        result := MergeLane(result, state.s0);
        result := MergeLane(result, state.s1);
        result := MergeLane(result, state.s2);
        result := MergeLane(result, state.s3);
      } else {
        if |fed| < TWO_TO_THE_64 {
          SeedStillThere(seed, fed);
        }
        result := ShortStart(state.s2);
      }
      result := AddLength(result, totalLength);
      result := EatBuffer(result);
      result := Avalanche(result);
    }

    /** The bytes still in the buffer: eight at a time, then four, then one. */
    method EatBuffer(start: bv64) returns (result: bv64)
      requires buffer.Length == BLOCK && bufferSize < BLOCK
      ensures result == EatTail(start, buffer[..bufferSize])
    {
      hide RotateLeft, EatEight, EatFour, EatOne, Le64, Le32;
      hide EatTail, EatBytes;
      var data, stop := 0, bufferSize;
      var bytes := buffer[..stop];
      result := start;
      assert bytes[0..] == bytes;
      while data + 8 <= stop
        invariant data <= stop
        invariant EatTail(result, bytes[data..]) == EatTail(start, bytes)
      {
        TailEight(result, bytes, data);
        result := EatEight(result, Le64(bytes, data));
        data := data + 8;
      }
      TailFour(result, bytes, data);
      if data + 4 <= stop {
        result := EatFour(result, Le32(bytes, data));
        data := data + 4;
      }
      while data != stop
        invariant data <= stop
        invariant EatBytes(result, bytes[data..]) == EatTail(start, bytes)
      {
        TailOne(result, bytes, data);
        result := EatOne(result, bytes[data]);
        data := data + 1;
      }
      NoBytes(result);
      assert bytes[stop..] == [];
    }
  }

  lemma SeedStillThere(seed: bv64, fed: seq<bv8>)
    requires |fed| < BLOCK
    ensures ProcessBlocks(InitialLanes(seed), fed).s2 == seed
  {
  }

  lemma TailEight(result: bv64, bytes: seq<bv8>, p: nat)
    requires p + 8 <= |bytes|
    ensures EatTail(result, bytes[p..]) == EatTail(EatEight(result, Le64(bytes, p)), bytes[p + 8..])
  {
    hide EatEight, EatBytes, Le64;
    Le64At(bytes, p, 0);
    assert bytes[p..][8..] == bytes[p + 8..];
  }

  lemma TailFour(result: bv64, bytes: seq<bv8>, p: nat)
    requires p <= |bytes| < p + 8
    ensures EatTail(result, bytes[p..]) ==
            if p + 4 <= |bytes| then EatBytes(EatFour(result, Le32(bytes, p)), bytes[p + 4..])
            else EatBytes(result, bytes[p..])
  {
    hide EatFour, EatBytes;
    if p + 4 <= |bytes| {
      assert bytes[p..][4..] == bytes[p + 4..];
      assert Le32(bytes[p..], 0) == Le32(bytes, p);
    }
  }

  lemma TailOne(result: bv64, bytes: seq<bv8>, p: nat)
    requires p < |bytes|
    ensures EatBytes(result, bytes[p..]) == EatBytes(EatOne(result, bytes[p]), bytes[p + 1..])
  {
    hide EatOne;
    assert bytes[p..][1..] == bytes[p + 1..];
  }

  lemma NoBytes(result: bv64)
    ensures EatBytes(result, []) == result
  {
  }

  // --- Chunks --------------------------------------------------------------------------------------------

  /** The one-shot form: constructor, one call of Add and Hash. */
  method HashOnce(input: seq<bv8>, seed: bv64) returns (result: bv64)
    requires |input| < TWO_TO_THE_64
    ensures result == Xxh64(seed, input)
  {
    hide *;
    var hasher := new XXHash64(seed);
    var _ := hasher.Add(input);
    assert hasher.fed == input;
    result := hasher.Hash();
  }

  /** However the input is cut into chunks, empty ones included, the digest is that of the whole. */
  method HashInChunks(chunks: seq<seq<bv8>>, seed: bv64) returns (streamed: bv64, whole: bv64)
    requires |Joined(chunks)| < TWO_TO_THE_64
    ensures streamed == whole == Xxh64(seed, Joined(chunks))
  {
    hide *;
    var hasher := new XXHash64(seed);
    JoinedPrefixes(chunks);
    for i := 0 to |chunks|
      invariant hasher.Valid() && fresh(hasher) && fresh(hasher.buffer)
      invariant hasher.fed == Joined(chunks[..i]) && hasher.seed == seed
    {
      var _ := hasher.Add(chunks[i]);
    }
    streamed := hasher.Hash();
    whole := HashOnce(Joined(chunks), seed);
  }

  lemma JoinedPrefixes(chunks: seq<seq<bv8>>)
    ensures Joined(chunks[..0]) == [] && Joined(chunks[..|chunks|]) == Joined(chunks)
    ensures forall i: nat | i < |chunks| :: Joined(chunks[..i + 1]) == Joined(chunks[..i]) + chunks[i]
  {
    assert chunks[..|chunks|] == chunks;
    forall i: nat | i < |chunks| ensures Joined(chunks[..i + 1]) == Joined(chunks[..i]) + chunks[i] {
      assert chunks[..i + 1] == chunks[..i] + [chunks[i]];
      JoinedMore(chunks[..i], chunks[i]);
    }
  }
}
