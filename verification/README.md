# A verified model of ShaunDB's storage core

ShaunDB keeps each shard of its data in a *memtable*. Full memtables travel through a read-only list and a
compaction worker into files, which are read back as *views*; a write-ahead log, a cache, a command parser, two
checksum routines and a logger stand around that path. This project models that code in Dafny and proves what each
part keeps, over every input, every run and every interleaving.

The model keeps the code's behaviour as it is. Where the code departs from what its comments or its design note
say, the departure is a lemma with a concrete input, and the exact condition under which the code does meet the
intent is proved for all inputs.

## What is modelled

| part | files | main results |
|---|---|---|
| CRC-32C | `Crc32cSpec`, `Crc32cTables`, `Crc32c`, `Crc32cProperties`, `Crc32cBursts` | the aligned, four-way interleaved, table-driven routine computes the bit-serial CRC of RFC 3720, section 12.1, for every string, start address and initial value; every table entry is derived from the polynomial; streaming, residue, detection of every burst of up to 32 bits, masking |
| XXH64 | `XxHash64Spec`, `XxHash64`, `XxHash64Answers` | any cut of an input into chunks gives the one-shot digest of the xxHash specification; published digests that reach every step and the seed |
| Flush protocol | `FlushProtocol`, `FlushInvariant`, `FlushTheorems`, `FlushCounters`, `FlushSstables`, `FlushObjects`, `FlushScenario` | any number of task and compaction workers, in any interleaving with writes completing in any order: no table becomes invisible, the tables hold what the writes of the run left in them, a lookup interleaved with any steps returns what was last written, counters stay in order, and exactly when the level assertion, the sstable index and the read-only list go wrong |
| Record formats | `Varint`, `MemtableRecord`, `Bloom`, `RecordSet`, `Memtable`, `SstableBody`, `PrefixCompression`, `FormatAnswers` | encoders and decoders undo each other byte by byte; exactly when a stored record reads back; a table can be flushed exactly when every record it keeps can be read, and then no lookup changes and its keys ascend; the filter lets through exactly the keys whose places are set; shared prefixes are longest |
| Write-ahead log | `WalRecord`, `WalCheckSum`, `WalRing` | the ring rule, what stands before and behind the file offset, that cutting by length fields gives the records of the current lap, and exactly when a stored checksum is that of its record |
| Cache | `LruState`, `LruRefinement`, `LruCacheTheorems`, `LruLive`, `LruLiveSteps`, `LruRuns`, `LruCache` | seen through its live nodes the two-list cache with its map and counters refines two lists cut to their caps, hot hits included, exactly as long as no demotion takes an emptied node and no cached key is stored again; lookups report the last stored value over every such run |
| Command parser | `RespParser`, `RespRoundTrip`, `RespReplies` | the scan of a request returns the count and exactly the arguments if and only if no argument ends in one of + - : $ *; with an argument that ends in * it never returns; single lines, missing line ends and the null bulk string |
| Files and logger | `AppendFile`, `LogThread`, `LogHistories`, `LogObjects` | buffered appends lose and reorder nothing; the double-buffered logger conserves every logger's history; read off the actions alone, the file holds of each logger that was taken up exactly what was logged before the step that swapped it last |
| Known answers | `KnownAnswers` | the value the CRC routine tests itself with, and the XXH64 of the empty string |

Objects whose methods update fields in the source are classes here, with their loops; each method is proved to do to
the object what a pure step function does to its abstract state, and the theorems are about those functions. Threads
are a state machine: one step is what a thread does between two points where another thread can interfere, and a
theorem about runs holds for every sequence of steps.

The definitions the results are measured against carry no contract of their own and so have no row below:
`Crc32cSpec.ExtendBitwise`, `XxHash64Spec.Xxh64`, `FlushProtocol.Step`, `FlushTheorems.Filled` and `Override`, `LruState.Get`, `Set`
and `SetEraseRecord` beside the intended `LruRefinement.Touched`, `Stored` and `LruRuns.IntendedRun`,
`RespParser.Step` and `RespRoundTrip.Request`, `WalRing.LapsOf` and `OnDisk`, `LogThread.Step`, and `LogHistories.Registered` and `Logged`. `Common` holds a few
notions that several parts share. Where a definition stands on both sides of a result, a result in literals or in
other terms pins it: `KnownAnswers`, `XxHash64Answers`, `FormatAnswers`, `FlushScenario`, `RespReplies`.

## Where the code and its documentation differ

- `src/db/memtable.cpp:69` says a repeated key is overwritten; the ordered set keeps the record it has
  (`Memtable.LookupIsFirstSet`, `Memtable.SetVisibleIff`).
- `src/db/memtable.cpp:31` takes the room for the sequence number from the size of the *value*; a record reads back
  only if both take the same number of bytes, or the number takes fewer and the value is all spaces
  (`MemtableRecord.SetGetExact`). A shorter number reads back a value moved by spaces, a longer one makes the lookup
  fault (`Memtable.RecordReads`, `Memtable.LookupFaultsIff`, `MemtableRecord.SetLosesValue`).
- `doc/klrucache_design_cn.md:16` moves an entry hit in the hot queue to its front; the code copies it and leaves the
  old node behind, empty (`LruCacheTheorems.HotHitLeavesItsNode`, `HotHitsPileUp`, `HotHitLosesValue`). A lookup is the
  intended one exactly if it causes no demotion of such a node (`LruRuns.LookupIsIntendedIff`). Storing a cached key
  again leaves an older node whose eviction takes the key out of the map (`StoredTwiceFaults`,
  `LruRuns.StoreIsIntendedIff`).
- `src/db/shared_memtable.cpp:161-171` reads the removal counter twice; a count that arrives in between leaves a
  table in the read-only list for good (`FlushCounters.LeakedIsSlipped`, `FlushSstables.ReadonlyCanLeak`).
- The level assertion (`src/db/memtable_view.cpp:130`) fails when writes complete out of rotation order, which one
  compaction worker does not prevent (`FlushSstables.LevelAssertCanFail`); the index into the sstable list is safe
  in all runs only with one (`FlushSstables.SstableIndexSafeIffOneCompactor`).
- `src/db/key_format.cpp:85` takes the log checksum before the header fields are written. It is that of the record
  exactly if the fields and as many spaces leave the CRC register alike, which number and sizes decide
  (`WalCheckSum.StoredCheckSumIff`); for the empty key and value under number 0 they do not
  (`WalCheckSum.EmptySetFailsCheckSum`).
- `src/db/wal_writer.cpp:29` counts a log that is found, but the file is written from its front: what was found is kept
  in front of a first record exactly if one of them is empty (`WalRing.FoundIsKeptIff`, `WalRing.FoundIsOverwritten`).
- The logger's last passes flush the loggers the thread has picked up; what others logged does not reach the file,
  nor what is logged after the second pass (`LogHistories.FileHoldsWhatWasLogged`, `LogThread.LateAppendIsLost`).

## Model

| member | source | states |
|---|---|---|
| Crc32cSpec.ZerosLinear | src/util/crc32.cpp:371-377 | Feeding n zero bits distributes over exclusive-or, which is what lets four strides run apart and be combined later |
| Crc32cSpec.ZerosInjective | src/util/crc32.cpp:365 | Feeding zero bits never maps two registers to one |
| Crc32cSpec.FeedBitsIsZeros | src/util/crc32.cpp:360-366 | Feeding message bits is xoring them in and feeding zero bits |
| Crc32cSpec.FeedConcat | src/util/crc32.hpp:11-13 | Feeding a concatenation is feeding one part after the other |
| Crc32cTables.ByteTableHolds | src/util/crc32.cpp:82-126 | Each of the 256 literals of the byte table is its index advanced by 8 zero bits |
| Crc32cTables.StrideTable0Holds | src/util/crc32.cpp:127-171 | Each literal is its index, in the top byte lane, advanced by 16 zero bytes |
| Crc32cTables.StrideTable1Holds | src/util/crc32.cpp:172-216 | The same for the third byte lane |
| Crc32cTables.StrideTable2Holds | src/util/crc32.cpp:217-261 | The same for the second byte lane |
| Crc32cTables.StrideTable3Holds | src/util/crc32.cpp:262-305 | The same for the lowest byte lane |
| Crc32c.RoundUp4 | src/util/crc32.cpp:326-331 | The least multiple of four at or above an address |
| Crc32c.Step1IsFeed | src/util/crc32.cpp:362-366 | The byte-table step feeds exactly one message byte |
| Crc32c.Step4IsZeros | src/util/crc32.cpp:371-377 | Four table lookups and the new word are 16 zero bytes of the old word, then the xor of the next |
| Crc32c.CollapseIsSum | src/util/crc32.cpp:450-455 | Recombining four partial results is the sum of them advanced by 16, 12, 8 and 4 zero bytes |
| Crc32c.StrideAdvance | src/util/crc32.cpp:434-436 | One swath keeps the invariant that the collapsed partial results are the register after all bytes read so far |
| Crc32c.Step4Word | src/util/crc32.cpp:393-400 | The four-round loop over a loaded word is the word xored in and 32 zero bits |
| Crc32c.Extend | src/util/crc32.cpp:350-467 | For every data, every start address and every crc the result is the bit-serial extension |
| Crc32cProperties.ExtendConcat | src/util/crc32.hpp:11-18 | Extending by A and then by B is extending by A++B |
| Crc32cProperties.ExtendTwice | src/util/crc32.hpp:11-18 | Two calls of the routine, whatever the three alignments, give what one call on the concatenation gives |
| Crc32cProperties.TrailerAcceptedIffItIsTheCrc | src/util/crc32.hpp:20-21 | A string and four more bytes have the residue as CRC if and only if those bytes are its CRC |
| Crc32cProperties.FeedInjective | src/util/crc32.cpp:362-366 | Two registers fed the same data agree afterwards only if they agreed before |
| Crc32cBursts.FeedIsBools | src/util/crc32.cpp:360-366 | Feeding bytes is feeding their bits, least significant first |
| Crc32cBursts.BitBurstDetected | src/util/crc32.cpp:350-467 | Two messages whose bits differ only within 32 consecutive places, wherever in a byte these begin, have the same CRC only if they are equal |
| Crc32cBursts.BurstDetected | src/util/crc32.cpp:350-467 | Any damage within four adjacent bytes changes the CRC |
| Crc32cProperties.UnmaskMask | src/util/crc32.hpp:36-46 | Unmasking a masked crc gives it back |
| Crc32cProperties.MaskUnmask | src/util/crc32.hpp:36-46 | Masking is onto: every word is the mask of its unmasking |
| FormatAnswers.MaskKnown | src/util/crc32.hpp:23-39 | The masks of 0, 1 and 2^15 |
| KnownAnswers.TestBufferCrc | src/util/crc32.cpp:339-346 | The definition gives the routine's own test value for its test string |
| KnownAnswers.EmptyHash | src/util/hash/xxhash64.hpp:144-148 | The digest of the empty string under seed 0 is the published one |
| XxHash64Answers.ByteHash | src/util/hash/xxhash64.hpp:126-128 | The published digest of "a": the step for one byte |
| XxHash64Answers.FourHash | src/util/hash/xxhash64.hpp:119-124 | That of "abcd": the step for four bytes |
| XxHash64Answers.EightHash | src/util/hash/xxhash64.hpp:113-117 | That of "abcdefgh": the step for eight bytes |
| XxHash64Answers.RestHash | src/util/hash/xxhash64.hpp:109-128 | That of thirteen bytes: eight, four and one, in this order |
| XxHash64Answers.BlockHash | src/util/hash/xxhash64.hpp:93-106 | That of 32 bytes: a block, the mix and the four merges |
| XxHash64Answers.SeededHash | src/util/hash/xxhash64.hpp:26-33 | That of the same block under seed 1 |
| XxHash64Spec.ProcessBlocksConcat | src/util/hash/xxhash64.hpp:69-73 | Folding whole blocks is compositional |
| XxHash64.Regroup | src/util/hash/xxhash64.hpp:46-82 | Carried bytes and a chunk regroup into whole blocks and a new tail without changing the fold |
| XxHash64.XXHash64.Init | src/util/hash/xxhash64.hpp:26-33 | The object starts over under a new seed |
| XxHash64.XXHash64.Add | src/util/hash/xxhash64.hpp:38-86 | A chunk, empty or not, is appended to what was fed; the carry buffer stays the tail, the state the fold of all whole blocks |
| XxHash64.XXHash64.AddBlocks | src/util/hash/xxhash64.hpp:53-85 | The path that fills the buffer, folds blocks in place and keeps the remainder |
| XxHash64.XXHash64.Hash | src/util/hash/xxhash64.hpp:90-137 | The digest of everything fed so far, without changing the object |
| XxHash64.HashOnce | src/util/hash/xxhash64.hpp:144-148 | The one-shot function is the digest |
| XxHash64.HashInChunks | src/util/hash/xxhash64.hpp:38-137 | For every seed and every list of chunks, adding them all gives the digest of their concatenation |
| FlushTheorems.StepKeeps | src/db/shared_memtable.cpp:161-201 | Every enabled step of every thread keeps the invariant |
| FlushTheorems.Reachable | src/db/shared_memtable.cpp:161-201 | The invariant holds after every run, for any number of task and compaction workers |
| FlushTheorems.HandedTablesVisible | src/db/shared_memtable.cpp:180-201 | After every run each table ever handed over is read-only, in the view list, or still active |
| FlushTheorems.NewestIsOverlay | src/db/memtable_view_manager.cpp:59-72 | Scanning tables newest first is looking up in the oldest-to-newest override of their maps |
| FlushTheorems.TablesHoldWhatWasWritten | src/db/shared_memtable.cpp:60 | After every run the maps of a number's successive tables are those that its enabled writes left, each the last one before the hand-over, read off the action list |
| FlushTheorems.AnswerIsNewest | src/db/shared_memtable.cpp:65-125 | Whichever stage of a lookup answers, it answers with the override of what was written into all tables ever filled, although stages overlap |
| FlushTheorems.LookupIsOverlay | src/db/shared_memtable.cpp:65-125 | A lookup with any steps of other threads between its stages ends with what was last written for its key when it started |
| FlushTheorems.HandedInTurn | src/db/compactor.cpp:92-103 | In every run the k-th table handed over goes to compaction worker k modulo their number |
| FlushScenario.FlushedWriteIsFound | src/db/shared_memtable.cpp:54-201 | One flush from the write to the erased read-only table, for any map and key: counters, sstable and view list stand as they should, and the lookup answers from the view |
| FlushCounters.CountersInOrder | src/db/shared_memtable.cpp:161-172 | Settled removals <= counted removals <= views <= rotations, the view list is the oldest rotations, the erase loop never overruns |
| FlushCounters.NoOverrun | src/db/shared_memtable.cpp:166-168 | No run erases from an empty read-only list |
| FlushCounters.ViewsAtTheirLevel | src/db/memtable_view_manager.cpp:30-34 | Each view stands at the place its stored level names |
| FlushCounters.LevelAssertIffInOrder | src/db/memtable_view.cpp:130 | A completed write passes the assertion if and only if all older tables of its number are already in the view list |
| FlushCounters.LeakedIsSlipped | src/db/shared_memtable.cpp:161-171 | Read-only tables that the worker's count says are gone are exactly the counts that arrived between its two reads |
| FlushCounters.ReadonlyLengthExact | src/db/shared_memtable.cpp:161-191 | The read-only length is rotations minus settled removals if and only if no count arrived in between |
| FlushSstables.SerialisedIntoNewSstable | src/db/sstable_manager.cpp:21-25 | A flush that finds an sstable at its level finds the one just pushed |
| FlushSstables.SingleRun | src/db/compactor.cpp:92-103 | With one compaction worker the queue is the end of the history in every run |
| FlushSstables.OvertakingHasNoSstable | src/db/compactor.cpp:92-103 | With two or more, a run in which one overtakes the other indexes past the sstable list |
| FlushSstables.SstableIndexSafeIffOneCompactor | src/db/sstable_manager.cpp:21-25 | The index is in range in all runs if and only if there is one compaction worker |
| FlushSstables.LevelAssertCanFail | src/db/memtable_view.cpp:130 | A run with one compaction worker that fails the assertion |
| FlushSstables.ReadonlyCanLeak | src/db/shared_memtable.cpp:161-171 | A run that leaves a table in the read-only list for good |
| FlushObjects.ScanNewestFirst | src/db/memtable_view_manager.cpp:62-70 | The reverse scan finds the entry of the last table that has the key |
| FlushObjects.TaskWorker.GetFromReadonly | src/db/shared_memtable.cpp:99-115 | Second stage |
| FlushObjects.TaskWorker.GetFromViews | src/db/shared_memtable.cpp:118-125 | Third stage |
| FlushObjects.TaskWorker.EraseReadonly | src/db/shared_memtable.cpp:161-168 | The erase loop takes the counted tables from the front |
| FlushObjects.MemTableViewVec.PushTableView | src/db/memtable_view_manager.cpp:24-36 | The view is pushed exactly if its level is its place |
| FlushObjects.MemTableViewVec.GetRequest | src/db/memtable_view_manager.cpp:59-72 | The newest view that has the key answers |
| FlushObjects.SSTableManager.NewSSTable | src/db/sstable_manager.cpp:21-25 | What is returned is the new one exactly at its own level, an older one below, and out of range above |
| Varint.EncodedLength | src/db/key_format.cpp:373-380 | k bytes are enough exactly for the values below 128 to the k |
| Varint.EncodedByte | src/db/key_format.cpp:304-314 | Each byte of an encoding carries the next seven bits, lowest first, and all but the last are flagged |
| Varint.VarintLength | src/db/key_format.cpp:373-380 | The counting loop gives the length of the encoding |
| Varint.EncodeVarint64 | src/db/key_format.cpp:304-314 | The loop writes the encoding in place and nothing else |
| Varint.EncodeVarint32 | src/db/key_format.cpp:271-302 | The unrolled encoder writes the same bytes as the loop |
| Varint.GetVarint32Ptr | src/db/key_format.cpp:316-354 | The one-byte fast path gives what the fallback loop gives |
| Varint.GetVarint64Ptr | src/db/key_format.cpp:356-371 | The loop is the parse of up to ten bytes kept in 64 bits |
| Varint.Decode32 | src/db/key_format.cpp:316-354 | The decoder with a five-byte limit inverts the encoder on every 32-bit value |
| Varint.Decode64NineBytes | src/db/key_format.cpp:356-371 | With the nine-byte limit its callers pass, the decoder inverts the encoder if and only if the value is below 2^63 |
| Varint.DecodeAll32 | src/db/key_format.cpp:382-385 | Any concatenated list decodes back, in order |
| Varint.ParsedIff | src/db/key_format.cpp:316-371 | On any bytes the decoders find a number if and only if one of the first five, or ten, before the limit is not flagged |
| FormatAnswers.EncodeKnown | src/db/key_format.cpp:271-314 | The encodings of 0, 127, 128, 300 and 2^32 - 1 |
| FormatAnswers.ParseKnown | src/db/key_format.cpp:316-354 | The bytes of 300; a fifth byte whose top bits fall out of the word; five flagged bytes |
| MemtableRecord.FormatBlank | src/db/memtable.cpp:29-36 | The string of spaces, key and value, its parts sized by the length function |
| MemtableRecord.FormatSet | src/db/memtable.cpp:42-65 | The header fields written over it through a moving position |
| MemtableRecord.SetRecordIff | src/db/memtable.cpp:33-65 | The header fields stay inside the string exactly if the number takes no more bytes than its room and the value together |
| MemtableRecord.FlushReadsAsGet | src/db/key_format.cpp:157-182 | The flush reads every record that a set makes as the lookup does |
| MemtableRecord.ReadSetRecord | src/db/memtable.cpp:104-132 | What the reader makes of any stored record, whatever room the number took |
| MemtableRecord.SetGetExact | src/db/memtable.cpp:28-134 | A record reads back its key and value if and only if number and value size take equal bytes, or the value is all spaces and the number shorter |
| MemtableRecord.SetRecordFits | src/db/key_format.cpp:157-182 | A fitting record reads the same through lookup and flush |
| MemtableRecord.SetLosesValue | src/db/memtable.cpp:29-65 | Number 128 and a one-byte value: the lookup reads outside the record |
| FormatAnswers.SetRecordKnown | src/db/memtable.cpp:28-134 | The six bytes of key "k", number 1 and value "v", written and read |
| FormatAnswers.DeletedKnown | src/db/memtable.cpp:104-132 | A record of type zero is a deletion; for the flush one that ends with its key is |
| Bloom.BitSet.Set | src/util/bitset.hpp:65-69 | Sets exactly the one bit |
| Bloom.BitSet.Del | src/util/bitset.hpp:72-76 | Clears exactly the one bit |
| Bloom.BitSet.Test | src/util/bitset.hpp:79-83 | Reads the one bit |
| Bloom.SetBitTurnsOn | src/util/bitset.hpp:65-69 | Through the mask table setting a bit turns on that bit and no other |
| Bloom.DelBitTurnsOff | src/util/bitset.hpp:72-76 | Through the mask table clearing a bit turns off that bit and no other |
| FormatAnswers.BitNineKnown | src/util/bitset.hpp:65-76 | Bit nine is the second lowest of the second byte |
| Bloom.IndicesInRangeIff | src/util/bitset.hpp:53-58 | Every bit below N has a byte in the array if and only if 8 divides N |
| Bloom.InsertedMatches | src/util/bloomfilter.hpp:29-49 | An inserted key matches, and a key that matched still does: no false negatives |
| Bloom.BloomFilter.Insert | src/util/bloomfilter.hpp:29-38 | Sets the four bits of the key in the shared array |
| Bloom.BloomFilter.IsMatch | src/util/bloomfilter.hpp:40-49 | Tests the four bits of the key |
| Bloom.BitsAreThePlaces | src/util/bloomfilter.hpp:29-38 | After inserting any list of keys into an empty filter a bit is on if and only if it is one of the four places of one of them |
| Bloom.MatchesIffPlaces | src/util/bloomfilter.hpp:29-49 | A key then matches if and only if each of its four places is a place of an inserted key |
| RecordSet.LessIsStrictWeakOrder | src/db/comp.cpp:9-35 | The comparator on encoded records is irreflexive, transitive, and equates exactly the records of one key |
| RecordSet.LexIffLower | src/db/comp.cpp:34 | One key is before another if and only if at some place up to which they agree it has ended or has the smaller byte |
| RecordSet.InsertOrdered | src/db/memtable.cpp:72 | Inserting keeps the set ordered |
| RecordSet.FindInsert | src/db/memtable.cpp:72-97 | A probe finds a new record exactly if its key is the probe's and was not there |
| RecordSet.FindHasKey | src/db/memtable.cpp:90-97 | What a key-only probe finds is in the set and has that key |
| RecordSet.FindIffHas | src/db/memtable.cpp:90-97 | In an ordered set a key-only probe finds a record exactly if there is one with its key |
| Memtable.Memtable.Set | src/db/memtable.cpp:28-78 | Filter, set and byte count after any request whose header stays inside its record |
| Memtable.Memtable.Get | src/db/memtable.cpp:80-134 | The filter gate, the probe and the decoding, as one answer |
| Memtable.RecordReads | src/db/memtable.cpp:104-132 | A set's record is read by lookup and flush alike, as a live key and value exactly if its number takes no more bytes than its room; else the lookup faults |
| Memtable.SetsKeepRunOk | src/db/memtable.cpp:67-77 | Over any run of such sets the records are ordered, the count is their byte sum, in 32 bits, and each stored key passes the filter |
| FormatAnswers.OneSetKnown | src/db/memtable.cpp:28-78 | After one set of key "k", number 1 and value "v": its record and six bytes |
| Memtable.LookupIsFind | src/db/memtable.cpp:80-134 | The filter never hides a record that is there |
| Memtable.FilterPassesIff | src/db/memtable.cpp:67-88 | After any run of sets the filter lets a key through if and only if each of its places is a place of a key that was set; for any other key the answer is "not found" |
| Memtable.LookupIsFirstSet | src/db/memtable.cpp:69-77 | After any run of sets a lookup answers with the first set of its key: its value as it reads back, or a fault when its number is too long |
| Memtable.FirstSetIsFirst | src/db/memtable.cpp:69-72 | The first set of a key stands at a place before which no set has the key, and there is none only if no set has it |
| Memtable.RecordsAreFirstSets | src/db/memtable.cpp:69-77 | Each record a run leaves is that of the first set of its key |
| Memtable.LookupFaultsIff | src/db/memtable.cpp:80-134 | A run leaves a key whose lookup faults exactly if the first set of some key had a number too long for its room |
| Memtable.SetVisibleIff | src/db/memtable.cpp:69-72 | The next lookup returns a set's value if and only if the key was not there and the record reads the value back, or the key held that value already |
| SstableBody.WriteBody | src/db/compactor.cpp:276-312 | The serialisation loop writes the records one after the other, unless it would read outside one of them |
| SstableBody.InitView | src/db/memtable_view.cpp:143-161 | The parse loop, with its fallback for a missing value size |
| SstableBody.ParseBodyBack | src/db/memtable_view.cpp:143-161 | Parsing a written body yields its records and stops exactly at the end |
| SstableBody.BodyInKeyOrder | src/db/compactor.cpp:276-312 | The body of any run whose records can be read is the parsed views one after the other, and their keys ascend in dictionary order |
| FormatAnswers.BodyKnown | src/db/compactor.cpp:276-312 | The four bytes of key "k" and value "v" in a body |
| FormatAnswers.DeletedBodyKnown | src/db/key_format.cpp:157-182 | A deletion is flushed as a key alone |
| FormatAnswers.KeyAloneKnown | src/db/memtable_view.cpp:151-155 | Without a value size the key is kept as a record and the loop goes on from its first byte |
| FormatAnswers.ErasedKnown | src/db/memtable_view.cpp:200-215 | A deletion is reported as one by memtable and view |
| SstableBody.AnswersAgree | src/db/memtable_view.cpp:200-215 | A view answers for a record what the memtable answered |
| SstableBody.FlushableIffReadable | src/db/key_format.cpp:157-182 | The compactor reads every record of a run's table without leaving it if and only if every first set of a key left its number enough room |
| SstableBody.FlushKeepsLookups | src/db/compactor.cpp:276-312 | After any run of sets the body can be written if and only if no first set of a key had a number too long for its room; then writing and parsing it consumes all bytes, keeps the number of records, and leaves every key's lookup unchanged |
| PrefixCompression.NeighboursAgree | src/db/key_format.cpp:213-221 | Comparing neighbours is enough for all to agree |
| PrefixCompression.CommonPrefix | src/db/key_format.cpp:200-235 | The nested loops end at the longest common prefix of a column |
| PrefixCompression.Format16PrefixStr | src/db/key_format.cpp:185-269 | All keys of a non-empty batch begin with the key and all its values with the value, and no longer string would do |
| PrefixCompression.LongestIsUnique | src/db/key_format.cpp:185-269 | There is only one longest common prefix, so the two views are determined |
| WalRecord.FixedBack | src/db/key_format.cpp:50-68 | Fixed-width integers read back |
| WalRecord.FixedForth | src/db/key_format.cpp:21-41 | Every string of bytes is the encoding of what it decodes to |
| WalRecord.SetContextWalLogFormat | src/db/key_format.cpp:78-98 | Fields written over spaces give the record, its checksum that of a header of spaces |
| WalCheckSum.StoredCheckSumIff | src/db/key_format.cpp:84-95 | The checksum stored in a record is that of the record if and only if its header fields and as many spaces leave the CRC register alike, which number and sizes decide |
| WalCheckSum.EmptySetFailsCheckSum | src/db/key_format.cpp:84-95 | For the empty key and value under number 0 the stored checksum is not that of the record |
| WalRecord.CutOneRecord | src/db/test/wal_log_test.cpp:55-75 | A record anywhere in a log is read back as its number, key and value, and its end is found |
| WalRecord.CutRecords | src/db/test/wal_log_test.cpp:55-75 | Records written one after the other are cut back to their entries |
| FormatAnswers.FixedKnown | src/db/key_format.cpp:50-68 | The four bytes of 0x01020304, least significant first |
| FormatAnswers.LogRecordKnown | src/db/key_format.cpp:78-98 | The 23 bytes behind the checksum of key "k", number 7 and value "v" |
| FormatAnswers.LogCheckSumKnown | src/db/key_format.cpp:84-95 | What a record stores first is the checksum of seventeen spaces, key, value and end mark |
| FormatAnswers.CheckSumKnown | src/util/crc32.cpp:339-346 | The checksum of the routine's test string is its test value, not masked |
| WalRing.WalLog.AddRecord | src/util/file/wal_log.cpp:43-53 | A write at the offset replaces just the bytes it covers |
| WalRing.WalWriter.constructor | src/db/wal_writer.cpp:23-31 | A found file is counted but not skipped |
| WalRing.WalWriter.AddRecord | src/db/wal_writer.cpp:37-47 | Counter, file and offset are those of the history cut into laps |
| WalRing.FoundIsKeptIff | src/db/wal_writer.cpp:23-47 | A found log stays in front of the first record written if and only if one of the two is empty |
| WalRing.FoundIsOverwritten | src/db/wal_writer.cpp:23-47 | One byte found and one byte written: the byte found is gone |
| WalRing.LapsAreTheHistory | src/db/wal_writer.cpp:37-47 | The laps, joined, are the history |
| WalRing.LapStaysBelow | src/db/wal_writer.cpp:38-44 | The count stays below the limit, the offset below the limit plus the lap's first record |
| WalRing.LapsCutAtTheLimit | src/db/wal_writer.cpp:38-44 | Every lap, counted as the code counts it, stays below the limit and would reach it with the first record of the next one |
| WalRing.SecondLapOverFirst | src/db/wal_writer.cpp:37-47 | Three records and a limit of four: the file after a second lap over a longer first one |
| WalRing.RingCutsBack | src/db/wal_writer.cpp:37-47 | After any run of set records the bytes before the offset, cut by length fields, are exactly the records since the last wrap |
| WalRing.LogAll | src/db/wal_writer.cpp:37-47 | The writer over any list of set requests: the bytes before its offset cut back to those since the last wrap, and the bytes behind it are what earlier laps left |
| LruRefinement.FitIsLongest | doc/klrucache_design_cn.md:13-15 | The reference: what stays in a queue is its longest prefix below the cap |
| LruRefinement.EvictColdFits | src/util/klrucache.cpp:54-61 | From any linked cache the eviction loop ends and keeps exactly that prefix |
| LruRefinement.DemoteHotFits | src/util/klrucache.cpp:38-52 | From any linked cache the demotion loop ends and moves exactly the rest to the cold front, in order |
| LruCacheTheorems.GetIsIntendedUnlessHotHit | src/util/klrucache.cpp:9-84 | From a valid cache a lookup reports right, moves what the design says and leaves a valid cache if and only if it is no hot hit |
| LruCacheTheorems.HotHitLeavesItsNode | src/util/klrucache.cpp:62-68 | A hot hit reports right but leaves an emptied second node, which no counter sees |
| LruCacheTheorems.HotHitsPileUp | src/util/klrucache.cpp:62-68 | n hot hits add n nodes and no bytes to the counters |
| LruCacheTheorems.HotHitLosesValue | src/util/klrucache.cpp:62-82 | A run of five operations after which a lookup finds "" for a key whose value is "x" |
| LruCacheTheorems.StoreIsIntendedIffFresh | src/util/klrucache.cpp:86-120 | From a valid cache a store is the intended one and leaves a valid cache if and only if the key is not cached |
| LruCacheTheorems.StoredTwiceFaults | src/util/klrucache.cpp:89-100 | Storing one key twice, then two others, follows a reference to a key that is gone |
| LruCacheTheorems.SettledKeepsOrder | doc/klrucache_design_cn.md:15 | Entries leave only from the cold tail, and each queue ends as the longest prefix below its cap |
| LruCacheTheorems.TouchedKeepsOrder | doc/klrucache_design_cn.md:14-16 | A hit puts its entry in front and keeps the order of the others; after a cold one each queue is the longest prefix below its cap, after a hot one nothing leaves |
| LruCacheTheorems.StoredKeepsOrder | doc/klrucache_design_cn.md:14 | A store puts the new entry in front of the cold queue, which keeps its longest prefix below the cap, and leaves the hot queue alone |
| LruLiveSteps.DuplicateWoven | src/util/klrucache.cpp:62-68 | A hot hit moves the live node of its key to the front and leaves its old node anchored behind it |
| LruLiveSteps.DemoteWoven | src/util/klrucache.cpp:38-52 | Demoting a live node keeps lists and map woven, emptied nodes included |
| LruRuns.DemoteHotLoosely | src/util/klrucache.cpp:38-52 | With emptied nodes in the list the demotion loop still keeps the longest prefix of live entries below the cap, as long as it takes none of the emptied ones |
| LruRuns.EmptiedTailLosesValue | src/util/klrucache.cpp:45-50 | A demotion that takes an emptied node makes its key lead to an empty value, whatever was stored |
| LruRuns.LookupIsIntendedIff | src/util/klrucache.cpp:9-84 | From any state that runs with hot hits reach, a lookup is the intended one on the live nodes, reports right and keeps the invariant if and only if no demotion it causes takes an emptied node |
| LruRuns.StoreIsIntendedIff | src/util/klrucache.cpp:86-120 | From any such state a store is the intended one and keeps the invariant if and only if the key is not cached |
| LruRuns.CleanRunIsIntended | src/util/klrucache.cpp:9-120 | Every run of such steps, hot hits included, ends, is the intended run on the live nodes, and keeps the invariant |
| LruRuns.IntendedRunKeeps | doc/klrucache_design_cn.md:13-16 | Over every run of the intended cache with fresh stores and any lookups, each key is in the queues once, both queues stay below their caps, and every entry is what the last store of its key left |
| LruRuns.IntendedHitIsLastStored | doc/klrucache_design_cn.md:13-16 | So a lookup in it reports the last stored value or erase mark if and only if the key is in a queue, and else misses |
| LruRuns.KeysAndValuesWeigh | src/util/klrucache.cpp:86-102 | Keys and values both weigh, and a queue that reaches its cap is over it: three bytes and one do not fit four |
| LruRuns.HitIsLastStored | src/util/klrucache.cpp:16-23 | After any clean run, hot hits included, a lookup of the code reports what the last store of its key left if and only if the intended run has the key in a queue, and else misses |
| LruCache.KLRUCache.Get | src/util/klrucache.cpp:9-84 | The method does to the object what the lookup function does to its state |
| LruCache.KLRUCache.Set | src/util/klrucache.cpp:86-102 | The same for a store |
| LruCache.KLRUCache.SetEraseRecord | src/util/klrucache.cpp:104-120 | The same for an erase mark |
| LruCache.KLRUCache.DemoteHot | src/util/klrucache.cpp:72-81 | The loop of both branches, which add to the cold counter or do not |
| LruCache.KLRUCache.EvictCold | src/util/klrucache.cpp:94-101 | The eviction loop |
| RespParser.ParseRedisProtocol | src/server/redis_protocol.cpp:10-111 | The scan loop, round by round, with its index arithmetic |
| RespParser.ReturnsOnce | src/server/redis_protocol.cpp:18-110 | A request has at most one result |
| RespRoundTrip.NumberReadBack | src/server/redis_protocol.cpp:77-78 | A decimal length below 2^31 is read back from its line |
| RespRoundTrip.NumberRead | src/server/redis_protocol.cpp:77-78 | A decimal, with or without a minus sign, in front of anything but a digit is read if it fits 32 bits and else leaves zero |
| RespRoundTrip.ArgumentScanned | src/server/redis_protocol.cpp:66-87 | The scan of one argument pushes it, one view more if its last byte starts a line or a length, and stands behind it |
| RespRoundTrip.RequestParsed | src/server/redis_protocol.cpp:18-110 | Every request without an argument that ends in * is parsed to the count, the arguments and those extra views |
| RespRoundTrip.StarNeverReturns | src/server/redis_protocol.cpp:88-104 | A request with an argument that ends in * is still being scanned after any number of rounds |
| RespRoundTrip.RoundTripIffPlain | src/server/redis_protocol.cpp:18-110 | The result is the count and exactly the arguments if and only if none ends in + - : $ * |
| RespReplies.ReplyLineParsed | src/server/redis_protocol.cpp:20-65 | A simple string, error or integer line gives one view, which reads its text and the carriage return |
| RespReplies.PingParsed | src/server/redis_protocol.cpp:13-17 | "PING" is answered at once |
| RespReplies.NullBulkParsed | src/server/redis_protocol.cpp:66-87 | The length of a null bulk string becomes 2^64 - 1 |
| RespReplies.LengthOverflows | src/server/redis_protocol.cpp:79-82 | A length that takes the index past the largest 32-bit number makes it overflow |
| RespReplies.LineEndMissing | src/server/redis_protocol.cpp:23-26 | Without a line end the result is an error if one of + - : $ * is there and nothing if none is |
| RespReplies.SetRequest | src/server/redis_protocol.hpp:80 | The encoding of the request that the header documents |
| RespReplies.SetRequestParsed | src/server/test/redis_protocol_test.cpp:27-49 | The scanner's own test: "3", "SET", "mykey", "myvalue" |
| RespReplies.ColonAddsAView | src/server/redis_protocol.cpp:51-65 | An argument that ends in a colon is followed by a view of a carriage return |
| RespReplies.DecimalKnown | src/server/redis_protocol.cpp:77-78 | Decimals have their digits in the usual order |
| AppendFile.AppendFile.Append | src/util/file/appendfile.cpp:29-54 | Everything appended is file then buffer, in order; the file is written exactly when the buffer fills, and the rest is buffered below a quarter of it |
| AppendFile.AppendFile.Copy | src/util/file/appendfile.cpp:32-33 | The copy stays inside the buffer |
| AppendFile.AppendFile.FlushBuffer | src/util/file/appendfile.cpp:75-78 | The buffer goes to the file and is empty |
| AppendFile.AppendFile.AppendAll | src/util/file/appendfile.cpp:29-78 | After any run of appends and a flush the file alone holds all of it |
| LogThread.LogStepKeeps | src/base/log/logthread.cpp:115-174 | Every step of any thread keeps: file, drained buffer not yet written, active buffer are the logger's history |
| LogThread.LogRunKeeps | src/base/log/logthread.cpp:96-174 | So after every interleaving of appends, registrations, swaps, writes, clears and stops |
| LogThread.WholeIffFlushed | src/base/log/logthread.cpp:147-174 | In every run that ends, a picked-up logger is swapped last at some step of the second pass, and the file holds its history exactly once if and only if nothing was appended to it after that step; nothing of other loggers is in the file |
| LogThread.LastSwapHappens | src/base/log/logthread.cpp:162-173 | Before the second pass is past a logger there is the step that handles it |
| LogThread.LateAppendIsLost | src/base/log/logthread.cpp:162-173 | A run that loses a line: it is logged after the second pass has handled its logger |
| LogThread.LastSwapFlushes | src/base/log/logthread.cpp:162-173 | The second pass leaves a logger's buffers empty and its history in the file |
| LogThread.AfterTheLastSwap | src/base/log/logthread.cpp:162-173 | What is appended after it stays in the active buffer and never reaches the file |
| LogHistories.HistoriesAreLogged | src/base/log/logger.hpp:115-129 | In every run the history of a logger is what was logged through it from its registration on, read off the actions |
| LogHistories.PickedIffTakenUp | src/base/log/logthread.cpp:97-105 | The thread has taken up a logger if and only if it did so, while waiting, after the logger was registered |
| LogHistories.FileHoldsWhatWasLogged | src/base/log/logthread.cpp:96-174 | Of every run that ends: a logger taken up was handled by the second pass, and the file holds exactly what was logged before that step, so all of it if and only if nothing was logged later; of other loggers it holds nothing |
| LogHistories.RoundWritesAll | src/base/log/logthread.cpp:96-144 | From any run at whose end the thread waits, a round while nobody logs puts all that was logged into the file |
| LogObjects.VecLogBuffer.SwapBuffer | src/base/log/logbuffer.cpp:30-33 | The buffers trade places, and the one appended to is handed out |
| LogObjects.VecLogBuffer.LogMent | src/base/log/logger.hpp:115-129 | The append goes to the active buffer only |
| LogObjects.Round | src/base/log/logthread.cpp:113-144 | The drain loop, while no logger appends, is a run of the machine's steps |
| LogObjects.LastPass | src/base/log/logthread.cpp:149-160 | Each final pass, while no logger appends, is a run of the machine's steps |

## Left out

- Raft (`src/raft`): its handlers are empty or never grant a vote, so there is no protocol to state.
- Networking, configuration, timestamps, mmap and io_uring: a disk write is an atomic append, an I/O completion a step that can come at any time.
- The accelerated CRC path, and the mixing quality of the hash functions: the Bloom filter's four hashes are arbitrary functions of the key.
- Locks, wake-ups and liveness: a locked region is one step, and an increment of the removal counter is atomic although the code does not synchronise it; `getRequest` returning with its lock held (`src/db/memtable_view_manager.cpp:66-69`) is not modelled.
- Level merge (`src/db/compactor.cpp:404-430`): its loop drops one side's rest, and the merged view is never inserted.
- The SSTable header: its count is written as a width and its seed read with a wrong limit; level, bloom bits and seed are passed through.
- Deletions in the byte formats: `Delete` writes a marker that `Get` does not test; erased keys appear only in the flush protocol and the cache.
- The cache on the lookup path: later writes do not invalidate it, so the flush protocol's lookups go without it.
- `redis::check`, snapshots, and the text formats of the delete and put log records.
- Removal of a logger whose thread has ended (`src/base/log/logthread.cpp:122-139`). The machine may start a drain round at any time the log thread waits; the code does so only when its write counter is not zero.
- Strings and files of 2^32 bytes and more, and requests of 2^31 bytes and more, whose sizes the code narrows.
- XxHash64.XXHash64.Hash: states the digest for totals below 2^64 bytes, where the length counter does not wrap; words are read little-endian as on the hosts the code is built for.
- Memtable.Memtable.Set: is for requests whose header stays inside the record's string; others write past its end, and which ones those are is exactly `MemtableRecord.SetRecordIff`.
- SstableBody.FlushKeepsLookups: is about runs of such requests; an unreadable record has no flush, because the code then follows a null pointer or leaves the record.
- RespParser.ParseRedisProtocol: takes a number of rounds, because the loop need not end; the theorems are about every number of rounds.
- LruCacheTheorems.StoreIsIntendedIffFresh: assumes, like the runs in `LruRuns`, that both counters together have room for the new bytes in 32 bits.
- WalRing.WalWriter.AddRecord: assumes that the counter has room for the record in 32 bits; changing the limit of a log in use is not modelled.
- LruCache.KLRUCache.Get: is called only where the lookup does not follow a dangling reference; when it does is part of `LruState.Get`.
- LogObjects.Round: runs the loop without other threads; appends between its steps are covered by the machine in `LogThread`, not by the method.
- LogObjects.LastPass: the same for a final pass.
