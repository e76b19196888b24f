# Verified models of five libtorrent cores

The application is a front end over the libtorrent sources in `btdownloader/`. This project
models five parts of them in Dafny and proves what they promise:

1. **The block cache and its flush, hash and read steps** (`block_cache.cpp`,
   `disk_io_thread.cpp`). The class `BlockCache.Cache` keeps the pieces, the lists and
   the global counters up to date field by field, as the source does. Beside it the modules
   `CacheModel`, `CacheOps` and `CacheFill` say on values what every operation does, and prove
   that each keeps the whole of `check_invariant()`; `CacheEffects` and `CacheFillEffects` say the
   same in a caller's terms: which list a piece is in afterwards, at which place, what became of
   each block, and what stayed. `CacheSystem` and `CacheRuns` put the
   cache together with the disk, the flushes and the reads that run without the lock, and
   prove that over every run the two behave like one plain store of blocks. `CacheStale` and
   `CacheFailure` are runs from the empty cache in which they do not, and `CacheOutcomes` says
   exactly when a step goes wrong.
2. **bdecode and bencode** (`bdecode.cpp`, `entry.cpp`, `bencode.hpp`). `BdecodeParser.Parser`
   is the one-pass stack parser; `Bdecode` the same steps on values; `Grammar` the language of
   BEP 3 with its parse trees and their preorder token listing; `BdecodeReference` an independent
   recursive-descent parser, which also says where and why a parse fails, and `BdecodeErrors` what
   each error means for the buffer. Lookups, the soft-error scan, the conversion to `entry`, the
   encoder and both round trips are proved against the trees.
3. **The disk job fence** (`disk_job_fence.cpp`): `DiskJobFence.Fence` is the protocol,
   `DiskJobFenceRuns` proves the barrier and that no wakeup is lost, over every run.
4. **The UTF conversions** (`ConvertUTF.cpp`): `Utf` defines the encoding forms as RFC 3629
   (sections 3 and 4) and RFC 2781 (section 2) do, `UtfConvert` says what a conversion is and
   proves that conversions invert each other, compose and can be resumed, and `UtfLoops` holds
   the six loops over arrays.
5. **Bandwidth and send accounting** (`bandwidth_manager.cpp`, `bandwidth_queue_entry.cpp`,
   `bandwidth_limit.cpp`, `chained_buffer.cpp`, `bt_peer_connection.cpp`): the manager's loops and
   its balance, `BandwidthOrder` on who goes, stays and waits, the send buffers and their payload.

The source's classes are classes whose methods change the same fields; each method is tied to
a function on values, and the lemmas are about those functions. Every region the source runs
under the lock is one step of a state machine. `dafny verify dfyconfig.toml` checks the whole
project.

## How the parts are modelled

- A cache block carries, besides the fields the source has, how many of its references are
  held for hashing, reading and flushing (the source keeps these in debug builds). The
  invariant ties them to the reference count, which is what makes "referenced while in
  flight" provable.
- The disk is a map from places to bytes, the hasher the sequence of blocks fed to it, time
  and the set of disconnecting peers are parameters, and what the buffer pool asks for is a
  parameter of the eviction.
- `size` in `CacheSystem.World` is the limit of the ghost lists, and `Rearrange` stands for any
  step that changes references, lists and flags but no buffer; the lemmas of `CacheOutcomes`
  show which operations are such steps.
- A write job waits at its piece for one block: `async_write()` asserts that the offset is block
  aligned. For every dirty block a job waits (`JobsHeld`) and every job waits for a dirty block
  (`JobsNeeded`): a write adds its job, and what ends a flush takes away exactly the jobs whose block
  is neither dirty nor being written, as `disk_io_job::completed()` has it. That no dirty block is
  dropped follows from this; a failed flush breaks it, see below.
- A flush goes through its blocks one by one, and each may be written or fail; a failed write leaves
  anything on the disk. `Timely` names the two things a step must not do for the store to stay
  plain, and the source tests neither: insert a read that was overtaken, and end a flush that failed.
- Machine integers are unbounded except where their width matters: the bit fields of a token,
  the 63 bits of `parse_int`, the length of the digits buffer, and the conversions to `int` in the
  bandwidth code.

## What the proofs found

- **A read can bring back old data.** `insert_blocks()` only looks at whether a block is cached.
  If a block is read from the disk, and before the read is inserted it is written, flushed and
  evicted, the old bytes come back as a clean block (`CacheStale.OvertakenReadIsSeen`, a run from
  the empty cache). Inserting is invisible exactly if the disk still holds what was read wherever the
  block is not cached (`CacheRuns.EndReadIsInvisibleIff`), and it is safe whatever the disk holds
  exactly if no missing block of the range was written out since it was read, which a caller could
  check (`CacheOutcomes.EndReadIsSafeIff`).
- **A failed flush marks its blocks clean.** `iovec_flushed()` calls `blocks_flushed()` whatever the
  result was. A write that was accepted is then a clean buffer that is not on the disk, and reads as
  the old data once it is evicted (`CacheFailure.FailedFlushIsSeen`, a run from the empty cache).
  Ending a flush is safe, whatever the disk holds where nothing was written, exactly if every write
  succeeded (`CacheOutcomes.EndFlushIsSafeIff`).
- **A failed flush gives up the jobs of blocks that were not part of it.** They are what keeps
  `mark_for_eviction()` and `maybe_free_piece()` from dropping dirty blocks: with a second block of
  the piece still dirty, the piece can be marked and is freed with it
  (`CacheFailure.DirtyBlockIsLost`, a run from the empty cache). Freeing drops a dirty block exactly
  if the piece has one and nothing but its marking holds it (`CacheOutcomes.FreeingDropsDirtyIff`).
- These are the only ways: whenever a run of the source, without any guard, makes a block read as
  anything but what was last written to it, it has inserted an overtaken read or ended a failed
  flush (`CacheRuns.OnlyTwoStepsGoWrong`).
- **`build_iovec()` counts down from the size of the piece even if it starts behind the first
  block**, so a short last block gets its right length exactly if the flush starts at block 0 or
  the block has full length (`CacheFlush.LengthIsRightIff`). Every caller passes 0.
- **The guard in front of the write list in `try_evict_blocks()`** compares read blocks with pinned
  ones, and dirty blocks that are in use count against the clean ones that are not. It hides blocks
  that could be evicted exactly if there are some, but no more of them than dirty ones in use
  (`CacheGuard.GuardHidesIff`); `CacheGuard.GuardMissesBlocks` is a call that finds nothing.
- **The promotion of volatile pieces in `cache_hit()` is dead code**: the test behind it excludes the
  list (`CacheOps.VolatileIsNotPromoted`).
- **The encoder loses digits of large negative integers.** The buffer of `write_integer()` leaves
  room for 18 digits behind a sign. Integers come back exactly if they are above -10^18; of the
  others the last 18 digits are written (`Bencode.WriteKeeps`). The least 64 bit integer cannot be
  negated and is excluded.
- **`has_soft_error()` misses three cases** in which re-encoding differs: a zero behind a minus sign,
  an integer that does not fit 63 bits, and a negative one that does but has 19 digits
  (`BencodeText.SoftErrorsMissThreeCases`); the exact condition is in `BencodeText.ReencodesIffClean`.
- **Duplicate keys**: the conversion to `entry` keeps the last value, `dict_find()` returns the first.
- In the fence, the branch that issues a second fence right behind the first
  (`disk_job_fence.cpp:80-92`) cannot be reached: when a fence completes, the head of the queue is
  never a fence (`DiskJobFenceRuns.FenceReleasesBacklog`).
- **`assign_bandwidth()` only goes through five of a request's ten channels**, though all ten take
  its priority into account and all ten get its quota back. A request that leaves puts its channels
  back to where they were exactly if it got nothing or no limited channel is behind the fifth
  (`BandwidthBalance.LeavingRestoresIff`), and all of its channels bound what it gets exactly if they
  are at most five (`BandwidthBalance.FiveChannelsBound`). With six, the last one gains what was
  handed out (`BandwidthBalance.TheSixthGains`).
- **`quota_left()` converts to `int` before it looks at the sign.** It is exact exactly if the quota
  fits, or is negative with low 32 bits that are no positive `int`
  (`BandwidthLimit.QuotaLeftIsExactIff`). Returned quota can take a channel past that, and it seems
  empty; overhead, which is charged without asking, takes it below, and it seems to have no end of
  quota (`BandwidthLimit.RefundedSeemsEmpty`, `BandwidthLimit.OverchargedSeemsFull`).
- A link has 29 bits, and `bdecode()` tests it where a container ends in the text, but only asserts it
  where an unfinished one is closed. Below a bound on tokens and depth every decoded array can be walked
  (`BdecodeFailure.EveryDecodedTreeIsWalkable`); a quarter of a gigabyte of nested lists, with limits that
  let it through, cannot (`BdecodeLink.LinkCanBeCutOff`).
- The converter from UTF-32 to UTF-8 replaces values above 0x10FFFF and the one to UTF-16 drops them;
  both go on, and report the error only if nothing else stops them.

## Model

| member | source | states |
|---|---|---|
| DiskJobFence.Fence.IsBlocked | btdownloader/torrent/disk_job_fence.cpp:139-164 | a job starts exactly if no fence is up, otherwise it joins the end of the queue; no job is ever both queued and in progress |
| DiskJobFence.Fence.RaiseFence | btdownloader/torrent/disk_job_fence.cpp:181-234 | which of the two jobs is started, which are queued, in which order, and what the caller is told, for all three outcomes |
| DiskJobFence.Fence.ReleaseBacklog | btdownloader/torrent/disk_job_fence.cpp:68-110 | the jobs up to the next fence are released in order, each put in progress, and the count returned is theirs; a fence in front is released, alone, exactly if nothing is in progress and the caller has nothing to issue |
| DiskJobFence.Fence.JobComplete | btdownloader/torrent/disk_job_fence.cpp:48-137 | the released jobs are a prefix of the queue: everything up to the next fence when a fence is lowered, the fence waited for when the last job before it is done, otherwise none; they go behind the caller's jobs in the first case and in front in the second; the counters follow |
| DiskJobFenceRuns.NextKeepsInv | btdownloader/torrent/disk_job_fence.cpp:48-234 | every locked call keeps barrier, counts and the shape of the queue |
| DiskJobFenceRuns.RunKeepsInv | btdownloader/torrent/disk_job_fence.cpp:48-234 | so does every run |
| DiskJobFenceRuns.FenceIsABarrier | btdownloader/torrent/disk_job_fence.cpp:57-67 | in every reachable state a running fence is the only outstanding job, everything accepted before it is done, nothing accepted after it has started, and the fence counter is the number of fences blocked or running |
| DiskJobFenceRuns.FenceStartsAlone | btdownloader/torrent/disk_job_fence.cpp:112-136 | a fence that any step puts in progress finds every earlier job done |
| DiskJobFenceRuns.FenceReleasesBacklog | btdownloader/torrent/disk_job_fence.cpp:72-110 | when a fence completes, the head of the queue is not a fence, so the branch for that never runs, whatever the caller's queue holds |
| DiskJobFenceRuns.NoLostWakeup | btdownloader/torrent/disk_job_fence.cpp:112-136 | in every reachable state a queued job implies an outstanding one, and a completion lowers the number of unfinished jobs by one |
| DiskJobFenceRuns.EveryDrainEmptiesTheQueue | btdownloader/torrent/disk_job_fence.cpp:48-137 | completing jobs in any order ends after exactly as many completions as there are unfinished jobs, with an empty queue |
| Numbers.CheckInteger | btdownloader/torrent/bdecode.cpp:58-102 | where the scan of an integer stops and the first of its errors that applies |
| Numbers.ScanIs | btdownloader/torrent/bdecode.cpp:58-102 | the scan stops behind the digits; too many of them, the end of the buffer and anything but an e behind at least one digit are its three errors, in this order |
| Numbers.ParseInt | btdownloader/torrent/bdecode.cpp:151-177 | value, stop and error of the digits up to the delimiter, without leaving 63 bits |
| Numbers.ParseDigits | btdownloader/torrent/bdecode.cpp:151-177 | digits parse to their decimal value if it fits 63 bits and to an overflow otherwise |
| BdecodeReference.ParsedDigits | btdownloader/torrent/bdecode.cpp:151-177 | and what parses without error are digits with that value, up to the delimiter |
| Numbers.ValueOfDigits | btdownloader/torrent/entry.cpp:48-68 | the digits of a number denote it and have no leading zero |
| Numbers.DigitsOfValue | btdownloader/torrent/entry.cpp:48-68 | digits without a leading zero are those of their value |
| Numbers.WriteDigits | btdownloader/torrent/entry.cpp:57-63 | the loop that writes backwards leaves as many of the last digits as fit in front of the end of the buffer |
| Numbers.IntegerToStr | btdownloader/torrent/entry.cpp:48-68 | the text left at the end of the caller's buffer, and its terminator |
| Numbers.LastDigitsAreDigits | btdownloader/torrent/entry.cpp:57-63 | the digits that are kept are all of them exactly if they fit |
| Numbers.PrintsDecimal | btdownloader/torrent/entry.cpp:48-68 | the text is the decimal notation exactly if the digits fit the buffer less two and the sign |
| BdecodeParser.Parser.PushContainer | btdownloader/torrent/bdecode.cpp:825-840 | a container token without a link is added, with a frame that expects a key |
| BdecodeParser.Parser.PushInteger | btdownloader/torrent/bdecode.cpp:841-863 | a checked integer becomes one token; an error leaves everything in place |
| BdecodeParser.Parser.PopContainer | btdownloader/torrent/bdecode.cpp:864-897 | the end token is added and the link of the container is set behind it, or the missing value is reported |
| BdecodeParser.Parser.PushString | btdownloader/torrent/bdecode.cpp:898-938 | length prefix, colon and body are checked in the source's order, and the header length fits its field |
| BdecodeParser.Parser.Round | btdownloader/torrent/bdecode.cpp:793-951 | one round of the loop is one step on values; what its errors mean is said by NodeFails and ErrorsMean |
| BdecodeParser.Parser.CloseOpenContainers | btdownloader/torrent/bdecode.cpp:953-978 | the clean-up behind a failure closes every open container and fills in missing values |
| BdecodeParser.Decode | btdownloader/torrent/bdecode.cpp:767-986 | the parser over an array of frames computes the value-level decoder for every buffer and all limits, the error and its place included, which DecodeFailsWith and ErrorsMean pin down |
| BdecodeGrammar.RunNode | btdownloader/torrent/bdecode.cpp:793-951 | from any state of the loop a well-formed item within the limits is read as a whole, and appends exactly its preorder listing |
| BdecodeGrammar.RunItems | btdownloader/torrent/bdecode.cpp:793-951 | the rest of a container is read up to its end token, and the container's link is patched to behind it |
| BdecodeReference.NodeSound | btdownloader/torrent/bdecode.cpp:793-951 | what the reference parser finds is well-formed, printed at that place and within the limits |
| BdecodeReference.NodeComplete | btdownloader/torrent/bdecode.cpp:793-951 | it finds every well-formed tree within the limits |
| BdecodeReference.GrammarIsUnambiguous | btdownloader/torrent/bdecode.cpp:767-986 | at one place of a buffer at most one tree is printed |
| BdecodeReference.NodeFails | btdownloader/torrent/bdecode.cpp:793-951 | where the reference parser finds nothing the parse loop fails, with the error and at the place the reference parser gives for it |
| BdecodeReference.DecodeFailsWith | btdownloader/torrent/bdecode.cpp:767-986 | a failing decode reports exactly the error and the place of the reference parser |
| BdecodeErrors.ErrorsMean | btdownloader/torrent/bdecode.cpp:793-951 | what is at the place an error is reported for: the end of the buffer or a string cut short, a character that starts no item, no digit where one is due, digits without a colon, as many open containers as allowed, the token or header limit reached, or a number that is too long or too large |
| BdecodeReference.DecodesTree | btdownloader/torrent/bdecode.cpp:767-986 | a buffer that starts with a tree within the limits decodes to the preorder listing of that tree, whatever follows |
| BdecodeReference.DecodeSucceedsIff | btdownloader/torrent/bdecode.cpp:767-986 | decoding succeeds exactly if the buffer starts with a tree within depth, token and header limits |
| BdecodeTree.NextLeadsToSibling | btdownloader/include/libtorrent/bdecode.hpp:50-58 | every link leads to the next sibling, and that of the last item to the end token of its container |
| BdecodeTree.NodeIsListed | btdownloader/torrent/bdecode.cpp:767-986 | every node of the tree, named by its path, is listed at the place its path gives |
| BdecodeTree.DataSectionDecodesAgain | btdownloader/torrent/bdecode.cpp:401-409 | for every node, its data section is its text, and decoding that consumes all of it and lists the same subtree |
| BdecodeLookup.BdecodeNode.ListAt | btdownloader/torrent/bdecode.cpp:411-443 | the i-th item, whatever was looked up before |
| BdecodeLookup.BdecodeNode.ListSize | btdownloader/torrent/bdecode.cpp:461-490 | the number of items, whatever was looked up before |
| BdecodeLookup.BdecodeNode.DictAt | btdownloader/torrent/bdecode.cpp:492-540 | the i-th key and its value, whatever was looked up before |
| BdecodeLookup.BdecodeNode.DictSize | btdownloader/torrent/bdecode.cpp:542-578 | half the number of items |
| BdecodeLookup.BdecodeNode.DictFind | btdownloader/torrent/bdecode.cpp:580-614 | the value of the first equal key, or nothing if there is none |
| BdecodeLookup.FirstKeyIs | btdownloader/torrent/bdecode.cpp:580-614 | the first equal key is the first place where the key matches |
| BdecodeLookup.BdecodeNode.IntValue | btdownloader/torrent/bdecode.cpp:664-683 | the number its digits denote, with its sign; 0 if they do not fit 63 bits |
| BdecodeLookup.BdecodeNode.StringValue | btdownloader/torrent/bdecode.cpp:685-693 | the body of the string |
| BdecodeSoftError.KeysOutOfOrder | btdownloader/torrent/bdecode.cpp:363-380 | two neighbouring keys are reported exactly if they are not in strictly increasing order |
| BdecodeSoftError.MemcmpOrders | btdownloader/torrent/bdecode.cpp:367-379 | comparing the common prefix and then the lengths is the lexicographic order |
| BdecodeSoftError.CheckKeys | btdownloader/torrent/bdecode.cpp:340-384 | the walk over the keys of a dictionary reports exactly the unsorted ones |
| BdecodeSoftError.HasSoftError | btdownloader/torrent/bdecode.cpp:303-390 | the scan over the tokens reports an error exactly if the tree has a leading zero, an unsorted or a duplicate key somewhere |
| BdecodeSoftError.ConvertNode | btdownloader/torrent/entry.cpp:360-395 | converting a node gives the entry of the tree it stands for |
| BdecodeSoftError.ConvertDict | btdownloader/torrent/entry.cpp:364-373 | a dictionary is converted by inserting its pairs in the order of the text |
| BdecodeFailure.EveryDecodedTreeIsWalkable | btdownloader/torrent/bdecode.cpp:953-978 | whatever the buffer holds and wherever the parse stops, every list and dictionary of the tokens can be walked to an end token with a value for every key, as long as the limits keep tokens and depth together within the 29 bits of a link |
| BdecodeLink.LinkCanBeCutOff | btdownloader/torrent/bdecode.cpp:957-974 | an input beyond those limits, of which a container cannot be walked |
| BdecodeFailure.DictionariesHaveEvenSize | btdownloader/torrent/bdecode.cpp:542-578 | such a walk over a dictionary takes an even number of steps |
| BdecodeFailure.CountSteps | btdownloader/torrent/bdecode.cpp:461-490 | the size walks end on every container of any decoded array, even a failed one |
| BdecodeFailure.UnwindKeepsTokens | btdownloader/torrent/bdecode.cpp:953-978 | closing what is open keeps every token that was read but for the links of open containers, and adds tokens only at the place where the parse stopped |
| BdecodeFailure.FailedSize | btdownloader/torrent/bdecode.cpp:953-986 | a failed parse covers the buffer up to its error, or up to the start of the integer the error is in |
| Bencode.EncodePrints | btdownloader/include/libtorrent/bencode.hpp:129-185 | the encoder writes the text of the tree the entry stands for |
| Bencode.WriteKeeps | btdownloader/include/libtorrent/bencode.hpp:73-91 | an encoded integer is well-formed and reads back as itself above -10^18 and as its last 18 digits below |
| Bencode.KeptSame | btdownloader/include/libtorrent/bencode.hpp:73-91 | integers survive the encoder exactly above -10^18 |
| Bencode.EncodedEntryDecodes | btdownloader/torrent/bdecode.cpp:767-986 | the encoding of an entry within the limits decodes to its tree, and converts back to the same entry exactly if nothing undefined and no integer of -10^18 or below is in it |
| Bencode.InsertAllKeepsSorted | btdownloader/torrent/entry.cpp:364-373 | conversion always gives sorted maps |
| Bencode.LastValueWins | btdownloader/torrent/entry.cpp:364-373 | for every key the map holds the last value the text has for it |
| BencodeText.ReencodesIffClean | btdownloader/torrent/entry.cpp:360-395 | encoding a converted text gives the same text exactly if it has no soft error and every integer can be reproduced |
| BencodeText.ConsumedBytesReencode | btdownloader/torrent/bdecode.cpp:303-390 | the same for the bytes a successful decode consumed |
| BencodeText.SoftErrorsMissThreeCases | btdownloader/torrent/bdecode.cpp:320-335 | three texts without a soft error that are not reproduced, one for each kind of integer that ReencodesIffClean excludes |
| CacheModel.RemoveKeepsInv | btdownloader/torrent/block_cache.cpp:1509-1616 | taking a piece out of the cache keeps every piece in exactly its own list |
| CacheModel.MoveKeepsInv | btdownloader/torrent/block_cache.cpp:1509-1616 | so does moving it to another list |
| CacheModel.SizesUpdate | btdownloader/torrent/block_cache.cpp:1509-1616 | when one piece changes, the global read, write and pinned counts change by what its own counts do |
| CacheOps.IncRefKeepsInv | btdownloader/torrent/block_cache.cpp:1328-1355 | taking a reference keeps the invariant |
| CacheOps.DecRefKeepsInv | btdownloader/torrent/block_cache.cpp:1357-1387 | so does giving one back |
| CacheOps.UpdateKeepsInv | btdownloader/torrent/block_cache.cpp:485-519 | dirty pieces end in the write list, and the invariant is kept |
| CacheOps.CacheHitKeepsInv | btdownloader/torrent/block_cache.cpp:404-480 | a hit leaves the piece outside of the ghost lists and changes nothing else of any piece |
| CacheOps.VolatileIsNotPromoted | btdownloader/torrent/block_cache.cpp:431-446 | a hit never moves a piece of the volatile list |
| CacheOps.AllocateKeepsInv | btdownloader/torrent/block_cache.cpp:599-696 | a new or wanted piece keeps the invariant |
| CacheOps.TrimKeepsNewest | btdownloader/torrent/block_cache.cpp:1232-1240 | making room in a ghost list keeps the pieces that were added last, in their order |
| CacheOps.TrimKeepsInv | btdownloader/torrent/block_cache.cpp:1232-1240 | only pieces of that list go, and the invariant is kept |
| CacheOps.MoveToGhostKeepsInv | btdownloader/torrent/block_cache.cpp:1208-1245 | retiring a piece without blocks keeps the invariant |
| CacheOps.UnreferencedIsEmptied | btdownloader/torrent/block_cache.cpp:850-876 | if nothing of a piece is referenced, eviction frees all of its blocks |
| CacheOps.EvictKeepsInv | btdownloader/torrent/block_cache.cpp:843-908 | eviction of one piece keeps the invariant, whether it succeeds or not |
| CacheOps.FreeablePieceIsEvicted | btdownloader/torrent/block_cache.cpp:1743-1763 | whenever maybe_free_piece() evicts, the eviction succeeds and no job is left over |
| CacheOps.MarkKeepsInv | btdownloader/torrent/block_cache.cpp:910-925 | marking for eviction keeps the invariant |
| CacheOps.AbortKeepsInv | btdownloader/torrent/block_cache.cpp:1389-1418 | dropping dirty blocks keeps the invariant |
| CacheFill.FlushedKeepsInv | btdownloader/torrent/block_cache.cpp:774-799 | marking blocks as written keeps the invariant |
| CacheFill.IovecFlushedKeepsInv | btdownloader/torrent/disk_io_thread.cpp:755-801 | and so does the end of a flush as a whole, whether it failed or not |
| CacheFill.JobsArePartitioned | btdownloader/torrent/disk_io_thread.cpp:778-797 | of the jobs of a piece each is either answered or goes on waiting, once |
| CacheFill.StartFlushKeepsInv | btdownloader/torrent/disk_io_thread.cpp:623-678 | locking blocks for a flush keeps the invariant |
| CacheFill.WriteBlockKeepsInv | btdownloader/torrent/block_cache.cpp:732-765 | writing a block keeps the invariant |
| CacheFill.InsertKeepsDirty | btdownloader/torrent/block_cache.cpp:1262-1325 | inserting what was read leaves every dirty block dirty |
| CacheFill.InsertKeepsInv | btdownloader/torrent/block_cache.cpp:1262-1325 | and keeps the invariant |
| CacheFill.CopyKeepsInv | btdownloader/torrent/block_cache.cpp:1624-1719 | a read from the cache keeps the invariant |
| CacheEffects.HitGoesTo | btdownloader/torrent/block_cache.cpp:404-480 | the list a piece is in after a first hit, a repeated hit and a hit of either kind of ghost, at which place, and what is recorded as the last operation |
| CacheEffects.UpdateGoesTo | btdownloader/torrent/block_cache.cpp:485-519 | pieces with dirty blocks or a hash go to the end of the write list, others leave it for the end of the first read list, and nothing else moves |
| CacheEffects.AllocateGoesTo | btdownloader/torrent/block_cache.cpp:599-696 | a new piece is blank and last in the list asked for, which is a miss in the first read list; a known one is no longer to be evicted and only ever comes forward |
| CacheEffects.GhostGoesTo | btdownloader/torrent/block_cache.cpp:1208-1245 | a piece without blocks goes to the end of the ghosts of its own read list, of which the newest stay; a volatile one is erased |
| CacheEffects.EvictGoesTo | btdownloader/torrent/block_cache.cpp:843-908 | a piece is given up exactly if nothing of it is in use, and then handed its jobs over and erased or made a ghost; otherwise exactly the blocks nobody refers to are freed |
| CacheEffects.MaybeFreeGoesTo | btdownloader/torrent/block_cache.cpp:1743-1763 | a piece that is marked, has no job and is in no use is discarded, as a ghost unless it is to be deleted; any other stays as it is |
| CacheEffects.MarkGoesTo | btdownloader/torrent/block_cache.cpp:910-925 | the same at once, or the flags that are set for later |
| CacheEffects.AbortGoesTo | btdownloader/torrent/block_cache.cpp:1389-1418 | exactly the dirty blocks nobody refers to are gone, and the piece leaves the write list when nothing holds it there |
| CacheEffects.ReferenceTaken | btdownloader/torrent/block_cache.cpp:1328-1355 | one reference more, under its reason, exactly if there is a buffer; nothing else changes |
| CacheEffects.ReferenceReturned | btdownloader/torrent/block_cache.cpp:1357-1387 | one reference less, under its reason; nothing else changes |
| CacheEffects.ReclaimGoesTo | btdownloader/torrent/block_cache.cpp:1721-1741 | behind the return of a reference the piece is discarded if that was the last thing it waited for |
| CacheFillEffects.FlushStarts | btdownloader/torrent/disk_io_thread.cpp:623-678 | every dirty block of the range that is not being written is marked and referenced once more, no other |
| CacheFillEffects.FlushMarks | btdownloader/torrent/block_cache.cpp:774-799 | exactly the blocks of the flush are clean, unmarked and without the reference of the write; a piece that is clean and has no hash goes to the first read list |
| CacheFillEffects.FlushFrees | btdownloader/torrent/block_cache.cpp:774-799 | and is discarded behind that if it was only waiting for the flush |
| CacheFillEffects.WriteGoesTo | btdownloader/torrent/block_cache.cpp:732-765 | the block holds the data and is dirty, the job waits behind the others, the piece is last in the write list, and the first block starts a hash if one is wanted and was not started or done |
| CacheFillEffects.InsertFills | btdownloader/torrent/block_cache.cpp:1262-1325 | each block of a range that was read: a gap is filled, a buffer kept, and a reference taken if asked for, in both cases |
| CacheFillEffects.CopyMisses | btdownloader/torrent/block_cache.cpp:1624-1719 | a read whose first block is missing changes nothing; one of which the second is missing may free the piece |
| CacheFillEffects.CopyBorrows | btdownloader/torrent/block_cache.cpp:1624-1719 | a read of one block that need not be copied leaves it marked as hit and referenced once more |
| CacheFillEffects.CopyMarks | btdownloader/torrent/block_cache.cpp:1624-1719 | any other read marks exactly the blocks its bytes are in as hit and leaves no reference; then the piece may be freed |
| BlockCache.Cache.IncBlockRefcount | btdownloader/torrent/block_cache.cpp:1328-1355 | a reference is taken exactly if the block has a buffer; all counters follow |
| BlockCache.Cache.DecBlockRefcount | btdownloader/torrent/block_cache.cpp:1357-1387 | a reference is given back; all counters follow |
| BlockCache.Cache.UpdateCacheState | btdownloader/torrent/block_cache.cpp:485-519 | the piece goes to the back of the list it belongs to |
| BlockCache.Cache.CacheHit | btdownloader/torrent/block_cache.cpp:404-480 | the move between the lists and the last operation recorded |
| BlockCache.Cache.AllocatePiece | btdownloader/torrent/block_cache.cpp:599-696 | a new piece with empty blocks, or a known one moved to an earlier list |
| BlockCache.Cache.ErasePiece | btdownloader/torrent/block_cache.cpp:927-943 | the piece leaves the cache and its list; the counters need no change |
| BlockCache.Cache.TrimGhosts | btdownloader/torrent/block_cache.cpp:1232-1240 | the oldest ghosts go until there is room for one more |
| BlockCache.Cache.MoveToGhost | btdownloader/torrent/block_cache.cpp:1208-1245 | the piece goes to the ghost list of its list, which is no longer than the limit afterwards |
| BlockCache.Cache.EvictPiece | btdownloader/torrent/block_cache.cpp:843-908 | blocks nobody refers to are freed and counted out; the piece is given up exactly if nothing of it is in use, and its jobs go to the caller |
| BlockCache.Cache.MaybeFreePiece | btdownloader/torrent/block_cache.cpp:1743-1763 | frees exactly the pieces that are marked, unused and without jobs |
| BlockCache.Cache.MarkForEviction | btdownloader/torrent/block_cache.cpp:910-925 | the piece is evicted now or marked for later |
| BlockCache.Cache.AbortDirty | btdownloader/torrent/block_cache.cpp:1389-1418 | dirty blocks nobody refers to are dropped, and the write count drops by as many |
| BlockCache.Cache.FreeBlock | btdownloader/torrent/block_cache.cpp:806-841 | one buffer is freed and counted out of the right counter |
| BlockCache.Cache.BlocksFlushed | btdownloader/torrent/block_cache.cpp:774-799 | exactly the written blocks move from the write count to the read count and lose the reference of the write |
| BlockCache.Cache.DirtyBlock | btdownloader/torrent/block_cache.cpp:732-765 | the block holds the new buffer, whatever it held before is counted out, and the piece is last in the write list |
| BlockCache.Cache.InsertBlocks | btdownloader/torrent/block_cache.cpp:1262-1325 | gaps are filled with what was read; no buffer that is there is replaced |
| BlockCache.Cache.ReclaimBlock | btdownloader/torrent/block_cache.cpp:1721-1741 | the reference of a send buffer goes back, and the piece may be freed; nothing happens for a piece that is gone |
| CacheRead.CopyFromPiece | btdownloader/torrent/block_cache.cpp:1624-1719 | a read is answered exactly if all its blocks are cached, and then with exactly the bytes asked for, also across two blocks; references taken for copying are all given back |
| CacheRead.BlocksHoldBytes | btdownloader/torrent/block_cache.cpp:1624-1719 | one or two cached blocks hold every byte of a read of at most one block's length |
| CacheEvict.EvictBlocks | btdownloader/torrent/block_cache.cpp:1038-1053 | of one piece only clean blocks not in use are freed, as many as wanted or all there are up to the bound |
| CacheEvict.EvictReadList | btdownloader/torrent/block_cache.cpp:1013-1074 | a list is gone over oldest piece first; what was not looked at is as it was; if too little was found, no block that could be freed and no empty piece that is not in use is left in it |
| CacheEvict.EvictWritePiece | btdownloader/torrent/block_cache.cpp:1087-1149 | the first pass only takes blocks that were hashed, the second any that can be freed |
| CacheEvict.EvictWriteList | btdownloader/torrent/block_cache.cpp:1085-1150 | the second pass leaves nothing that could be freed unless enough was found |
| CacheEvict.EvictReadLists | btdownloader/torrent/block_cache.cpp:965-1075 | a list is touched only when the lists preferred to it have nothing more to give |
| CacheEvict.TryEvictBlocks | btdownloader/torrent/block_cache.cpp:947-1161 | frees exactly as many blocks as it reports, only clean ones that are not in use, never of the ignored piece; the volatile list goes first, then after a ghost hit the read list that was not hit, after a miss the longer one, the first on a tie, and nothing else is touched while one of these has something to give; the read count drops by as many; when it falls short nothing is left to free, except behind the guard of the write list; and if the guard is up from the start the write list is left alone |
| CacheGuard.GuardHidesIff | btdownloader/torrent/block_cache.cpp:1081 | in any valid cache the guard hides a block that could be evicted exactly if there are such blocks, but no more of them than dirty ones in use |
| CacheGuard.GuardMissesBlocks | btdownloader/torrent/block_cache.cpp:1076-1085 | a cache and a call that asks for one block and finds none, though one could be freed |
| CacheFlush.AddDirtyBlock | btdownloader/torrent/block_cache.cpp:698-766 | room is made without touching this piece or anything dirty, then the block holds the data |
| CacheFlush.BuildIovec | btdownloader/torrent/disk_io_thread.cpp:623-678 | exactly the dirty blocks of the range that are not being written are locked, marked and listed in order with their buffers |
| CacheFlush.LengthIsRightIff | btdownloader/torrent/disk_io_thread.cpp:644-668 | the length given to a block is right exactly for a flush from block 0, or a block of full length |
| CacheFlush.FlushIovec | btdownloader/torrent/disk_io_thread.cpp:703-720 | the writes are the maximal runs of consecutive blocks, in order and without gaps |
| CacheFlush.EveryBlockWrittenOnce | btdownloader/torrent/disk_io_thread.cpp:703-720 | every block of a flush is written by exactly one write, at its own place, counted on across the pieces |
| CacheFlush.FinishJobs | btdownloader/torrent/disk_io_thread.cpp:773-797 | by place: after an error every job of the piece is answered with it, otherwise exactly those whose block is neither dirty nor being written are answered without; answers and waiting jobs keep the order of the jobs |
| CacheFlush.IovecFlushed | btdownloader/torrent/disk_io_thread.cpp:755-801 | the block numbers become those of the piece, all its blocks are marked as written whatever the result was, and unless that freed the piece its jobs are told the same |
| CacheSystem.FreedHasNothingDirty | btdownloader/torrent/block_cache.cpp:1743-1763 | because for every dirty block a job waits, a piece that may be freed has none |
| CacheSystem.DriftKeeps | btdownloader/torrent/block_cache.cpp:843-908 | dropping clean blocks keeps the invariant of cache and disk and changes nothing for a reader |
| CacheSystem.EvictKeepsGood | btdownloader/torrent/block_cache.cpp:947-1161 | so does whatever try_evict_blocks() does |
| CacheSystem.MaybeFreeKeepsGood | btdownloader/torrent/block_cache.cpp:1743-1763 | and maybe_free_piece(), because no job is missing |
| CacheSystem.MarkKeepsGood | btdownloader/torrent/block_cache.cpp:910-925 | and mark_for_eviction() of a piece without jobs |
| CacheSystem.FinishKeepsGood | btdownloader/torrent/disk_io_job.cpp:128-146 | answering the jobs that completed() lets go leaves a job for every dirty block |
| CacheRuns.WriteKeepsGood | btdownloader/torrent/block_cache.cpp:698-766 | after a write the block reads as the data and every other block as before |
| CacheRuns.BeginFlushKeepsGood | btdownloader/torrent/disk_io_thread.cpp:805-842 | the first locked region of a flush changes nothing for a reader, and no block is in two flushes |
| CacheRuns.WriteOutKeepsGood | btdownloader/torrent/disk_io_thread.cpp:683-750 | writing a block to the disk, or failing to and leaving anything there, changes nothing for a reader while the flush is on its way |
| CacheRuns.EndFlushKeepsGood | btdownloader/torrent/disk_io_thread.cpp:755-801 | after a flush without errors the blocks marked clean are on the disk, and for every block still dirty a job waits |
| CacheRuns.EndReadIsInvisibleIff | btdownloader/torrent/block_cache.cpp:1262-1325 | inserting a read changes nothing for a reader exactly if the disk still holds what was read wherever the block is missing |
| CacheRuns.NotOvertakenIsCurrent | btdownloader/torrent/disk_io_thread.cpp:1299-1426 | it does if no missing block of the range was written out since |
| CacheRuns.StepIsCorrect | btdownloader/torrent/disk_io_thread.cpp:683-842 | every step of every kind, other than inserting an overtaken read or ending a failed flush, keeps the invariant, and only a write changes what a block reads as |
| CacheRuns.RunIsAPlainStore | btdownloader/torrent/block_cache.cpp:698-799 | over every run without those two a block reads as what was last written to it, or as what the disk held at first |
| CacheRuns.OnlyTwoStepsGoWrong | btdownloader/torrent/disk_io_thread.cpp:755-801 | over every run of the source, which guards against neither, a block that reads as anything else is the doing of one of those two, and all was well before it |
| CacheJobs.StepKeepsNeed | btdownloader/torrent/disk_io_thread.cpp:773-797 | no step leaves a job behind that waits for a block that is not dirty |
| CacheJobs.JobsWaitForDirtyBlocks | btdownloader/torrent/disk_io_thread.cpp:755-801 | over every run without those two a job waits for a block exactly as long as the block is dirty |
| CacheJobs.EmptyHasNoJobs | btdownloader/torrent/block_cache.cpp:927-943 | so that no job is left at a piece without blocks when it is erased or becomes a ghost |
| CacheRuns.InitialIsGood | btdownloader/torrent/block_cache.cpp:330-342 | an empty cache over any disk is a start |
| CacheRuns.FlushedBlockIsStable | btdownloader/torrent/disk_io_thread.cpp:645-678 | from its first locked region to its second a block in flight stays cached, dirty, marked and referenced with the same buffer, whatever step another thread makes |
| CacheRuns.WriteMissesFlush | btdownloader/torrent/block_cache.cpp:730-749 | a write never goes to a block in flight |
| CacheOutcomes.CachedBytesAreContent | btdownloader/torrent/block_cache.cpp:1624-1719 | the bytes a cached read returns are those of the plain store |
| CacheOutcomes.ReferencesRearrange | btdownloader/torrent/block_cache.cpp:1328-1387 | taking and giving back references is a step that changes no buffer |
| CacheOutcomes.HitRearranges | btdownloader/torrent/block_cache.cpp:404-480 | so is a cache hit |
| CacheOutcomes.UpdateRearranges | btdownloader/torrent/block_cache.cpp:485-519 | and a change of the list |
| CacheOutcomes.FailedFlushKeepsCleanIff | btdownloader/torrent/disk_io_thread.cpp:755-801 | over a given disk, marking the blocks of a flush keeps clean buffers equal to it exactly if whatever was not written is there already |
| CacheOutcomes.EndFlushIsSafeIff | btdownloader/torrent/disk_io_thread.cpp:683-801 | whatever the disk holds, ending a flush keeps the invariant and what every block reads as exactly if every write succeeded |
| CacheOutcomes.EndReadIsSafeIff | btdownloader/torrent/block_cache.cpp:1262-1325 | whatever the disk holds, inserting a read does so exactly if no missing block of it was written out since it was read |
| CacheOutcomes.FreeingDropsDirtyIff | btdownloader/torrent/block_cache.cpp:1743-1763 | freeing a piece drops a dirty block exactly if nothing but its marking holds it and it has one; jobs are what prevents it |
| CacheStale.OvertakenReadIsSeen | btdownloader/torrent/block_cache.cpp:1262-1325 | a run from the empty cache after which inserting an overtaken read makes a block that was written read as its old bytes |
| CacheFailure.FailedFlushIsSeen | btdownloader/torrent/disk_io_thread.cpp:703-772 | a run from the empty cache whose flush fails: the new data is clean, the disk has the old, and after an eviction the block reads as that |
| CacheFailure.DirtyBlockIsLost | btdownloader/torrent/disk_io_thread.cpp:773-776 | a run from the empty cache in which the failed flush of one block gives up the job of another, and the piece is freed with that block dirty |
| CacheHeld.HeldBlockIsStable | btdownloader/torrent/block_cache.cpp:1328-1355 | a block referenced for hashing or reading keeps its buffer in every step the source can make, whatever else goes wrong |
| CacheHeld.CopyIsSteps | btdownloader/torrent/block_cache.cpp:1624-1719 | a read from the cache is a step that changes no buffer, at most followed by freeing the piece |
| CacheHeld.BeginKickMirrors | btdownloader/torrent/disk_io_thread.cpp:2029-2059 | on the piece in the cache the first locked region of the hasher is the step of the cursor's model, references included |
| CacheHeld.EndKickMirrors | btdownloader/torrent/disk_io_thread.cpp:2084-2100 | and so is the second |
| CacheHeld.FedBlockIsStable | btdownloader/torrent/disk_io_thread.cpp:2061-2080 | a block that is fed to the hasher from its buffer keeps it, whatever step another thread makes |
| CacheHash.KickBegin | btdownloader/torrent/disk_io_thread.cpp:2029-2059 | the blocks in a row from the cursor on are referenced and the piece is marked, or nothing happens and why; a step that changes no buffer |
| CacheHash.KickEnd | btdownloader/torrent/disk_io_thread.cpp:2084-2100 | the cursor moves, the mark goes and the references go back, whatever happened in between; a step that changes no buffer |
| CacheHash.LetGoWhatWasHeld | btdownloader/torrent/disk_io_thread.cpp:2029-2103 | every reference taken for hashing is returned |
| HashCursor.StepKeepsGood | btdownloader/torrent/disk_io_thread.cpp:2190-2508 | every step of either hasher, taking a digest that is ready and dropping a hash included, keeps the order of the blocks fed, the place of the cursor and the references |
| HashCursor.RunHashesInOrder | btdownloader/torrent/disk_io_thread.cpp:2029-2508 | over every interleaving each digest is that of blocks 0, 1, 2, ... once each and in order, and when nothing is hashing no reference is held for it |
| HashCursor.NeverStuck | btdownloader/torrent/disk_io_thread.cpp:2219-2233 | a piece nobody is hashing can be hashed further exactly if its cursor is not at the end, and otherwise its digest be taken |
| HashCursor.CursorIsAligned | btdownloader/torrent/disk_io_thread.cpp:2029-2103 | the cursor is a multiple of the block size or the size of the piece |
| HashCursor.FedBlockIsHeld | btdownloader/torrent/disk_io_thread.cpp:2044-2080 | a block is referenced while it is hashed from its buffer |
| ReadQueue.PieceReads.PrepReadJob | btdownloader/torrent/disk_io_thread.cpp:1657-1721 | a job that is answered from the cache completes; one that misses starts the only read of the piece, or waits for it |
| ReadQueue.PieceReads.MaybeIssueQueuedReadJobs | btdownloader/torrent/disk_io_thread.cpp:1428-1508 | by place: exactly the stalled jobs that were answered complete, in their order, the first other one is issued and the later ones wait, in theirs; without one the read is over |
| ReadQueue.StepKeepsJobs | btdownloader/torrent/disk_io_thread.cpp:1299-1508 | jobs wait only while exactly one read is on its way; no step loses or duplicates a job, and every read that ends leaves fewer |
| ReadQueue.RunLosesNoJob | btdownloader/torrent/disk_io_thread.cpp:1299-1508 | over every run each job is completed, on its way or waiting as often as it arrived |
| Utf.GatherIs | btdownloader/torrent/ConvertUTF.cpp:194-204 | taking the marks off with the magic offset gives the scalar value whose encoding the bytes are |
| Utf.LegalSequenceIff | btdownloader/torrent/ConvertUTF.cpp:300-342 | the test accepts exactly the sequences that start with a character encoded as RFC 3629 has it |
| Utf.DecodedIsEncoded | btdownloader/torrent/ConvertUTF.cpp:113-530 | what a converter reads as a character is its encoding |
| Utf.EncodedIsDecoded | btdownloader/torrent/ConvertUTF.cpp:113-530 | and the encoding of a character is read as it, whatever follows |
| Utf.WhyNotDecoded | btdownloader/torrent/ConvertUTF.cpp:113-530 | a text is cut off exactly if it is shorter than its first unit asks for, and malformed exactly if it is not and no encoded character starts it |
| Utf.CutIsPartial | btdownloader/torrent/ConvertUTF.cpp:113-530 | every character that is cut short is reported as such |
| Utf.MasksAreRemainders | btdownloader/torrent/ConvertUTF.cpp:274-279 | masking and marking a byte is the arithmetic of the definition |
| UtfConvert.OutputEncodesInput | btdownloader/torrent/ConvertUTF.cpp:64-530 | whatever the source and the room, what was consumed and what was written are the same characters, and the source stops between characters |
| UtfConvert.StatusIsExact | btdownloader/torrent/ConvertUTF.cpp:64-530 | the status says what is behind the place where the conversion stopped, in the terms of WhyNotDecoded |
| UtfConvert.ConvertsText | btdownloader/torrent/ConvertUTF.cpp:64-530 | every text of scalar values converts as a whole to the same text, so the converters invert each other |
| UtfConvert.ConversionsCompose | btdownloader/torrent/ConvertUTF.cpp:346-530 | converting by way of a third form is converting directly |
| UtfConvert.Resumes | btdownloader/torrent/ConvertUTF.cpp:218-285 | after running out of room, resuming gives the same total as one call with all the room |
| UtfConvert.Write8 | btdownloader/torrent/ConvertUTF.cpp:259-280 | the bytes written backwards are the encoding, and nothing else of the target changes |
| UtfConvert.Write16 | btdownloader/torrent/ConvertUTF.cpp:401-410 | so are the one or two units |
| UtfLoops.Read8 | btdownloader/torrent/ConvertUTF.cpp:366-373 | the fall-through switch puts the bytes together six bits at a time |
| UtfLoops.Next8 | btdownloader/torrent/ConvertUTF.cpp:353-374 | the next character of a UTF-8 text, or whether it is cut off or malformed |
| UtfLoops.Next16 | btdownloader/torrent/ConvertUTF.cpp:113-150 | the next character of a UTF-16 text, or whether it is cut off or unpaired |
| UtfLoops.ConvertUtf8ToUtf16 | btdownloader/torrent/ConvertUTF.cpp:346-415 | the loop converts the source range into the target range in place and leaves the rest of the target alone |
| UtfLoops.ConvertUtf8ToUtf32 | btdownloader/torrent/ConvertUTF.cpp:472-530 | the same for UTF-32 |
| UtfLoops.ConvertUtf16ToUtf8 | btdownloader/torrent/ConvertUTF.cpp:218-285 | the same from UTF-16 |
| UtfLoops.ConvertUtf16ToUtf32 | btdownloader/torrent/ConvertUTF.cpp:113-164 | the same |
| UtfLoops.ConvertUtf32ToUtf8 | btdownloader/torrent/ConvertUTF.cpp:419-468 | the same from UTF-32; values that are too large are replaced and reported unless something else stops the call |
| UtfLoops.ConvertUtf32ToUtf16 | btdownloader/torrent/ConvertUTF.cpp:64-109 | the same; values that are too large are dropped and reported unless something else stops the call |
| UtfLoops.NothingReplaced | btdownloader/torrent/ConvertUTF.cpp:439-450 | a text of code points is converted as it is |
| Payload.SendMarkers.AddPayload | btdownloader/torrent/bt_peer_connection.cpp:2337 | the last bytes of the send buffer become payload, and the markers stay ordered and disjoint |
| Payload.SendMarkers.OnSent | btdownloader/torrent/bt_peer_connection.cpp:3368-3413 | counts exactly the payload bytes among the first n and leaves the markers of the rest, ordered and disjoint |
| Payload.PartsAreBytes | btdownloader/torrent/bt_peer_connection.cpp:3388-3406 | adding up the parts of ordered markers counts bytes |
| Payload.ShiftMeans | btdownloader/torrent/bt_peer_connection.cpp:3388-3409 | after n bytes were sent byte x is payload exactly if byte x + n was |
| Payload.PayloadSplits | btdownloader/torrent/bt_peer_connection.cpp:3379-3413 | counting in two steps counts every byte once |
| Payload.ShiftTwice | btdownloader/torrent/bt_peer_connection.cpp:3379-3413 | two calls leave the markers one call would |
| Payload.FragmentationDoesNotMatter | btdownloader/torrent/bt_peer_connection.cpp:3379-3413 | over any series of calls the payload counted depends only on the sum of the bytes |
| ChainedBuffer.Chain.AppendBuffer | btdownloader/include/libtorrent/chained_buffer.hpp:129-137 | the bytes are added at the end and the holder is kept |
| ChainedBuffer.Chain.PrependBuffer | btdownloader/include/libtorrent/chained_buffer.hpp:139-147 | the bytes are added in front |
| ChainedBuffer.Chain.SpaceInLastBuffer | btdownloader/torrent/chained_buffer.cpp:74-82 | the room at the end of the last buffer |
| ChainedBuffer.Chain.Append | btdownloader/torrent/chained_buffer.cpp:87-113 | appends exactly if the bytes fit the last buffer, and changes nothing otherwise |
| ChainedBuffer.Chain.PopFront | btdownloader/torrent/chained_buffer.cpp:40-70 | drops exactly the first n bytes; exactly the buffers all of whose bytes were among them are destructed, in order, and the next one loses its front |
| ChainedBuffer.Chain.BuildVec | btdownloader/torrent/chained_buffer.cpp:131-147 | the spans join to the first n bytes, or to all there are |
| ChainedBuffer.SpansAreAPrefix | btdownloader/torrent/chained_buffer.cpp:131-147 | the same on values |
| ChainedBuffer.Chain.Clear | btdownloader/torrent/chained_buffer.cpp:149-157 | every holder that was ever given was destructed exactly once |
| ChainedBuffer.Chain.BytesFit | btdownloader/torrent/chained_buffer.cpp:40-70 | a chain never holds more bytes than it has room for |
| Bandwidth.ShareFits | btdownloader/torrent/bandwidth_queue_entry.cpp:62-65 | a share is between nothing and the whole and survives the conversion to int |
| Bandwidth.QuotaBounds | btdownloader/torrent/bandwidth_queue_entry.cpp:52-72 | what a request gets is at most what it asks for and its share of every limited channel it goes through |
| BandwidthOrder.QuotaIsOneOfThem | btdownloader/torrent/bandwidth_queue_entry.cpp:52-72 | and no less than the smallest of these: it is what is missing of the request, or the floored share in one of the limited channels |
| Bandwidth.ChannelNeverGivesTooMuch | btdownloader/torrent/bandwidth_queue_entry.cpp:60-70 | the quotas handed out through a channel in one round sum to at most what it distributes |
| BandwidthBalance.LeavingRestoresIff | btdownloader/torrent/bandwidth_manager.cpp:157-166 | a request that took quota over any rounds and leaves puts every channel back exactly if it got nothing or no limited channel is behind its fifth |
| BandwidthBalance.FiveChannelsBalance | btdownloader/torrent/bandwidth_queue_entry.cpp:60-70 | with limited channels only, that is: exactly if it got nothing or has at most five |
| BandwidthBalance.EveryChannelBoundsIff | btdownloader/torrent/bandwidth_queue_entry.cpp:60-66 | every channel of a request bounds its quota, in all pools, exactly if those behind the fifth are among the first five |
| BandwidthBalance.FiveChannelsBound | btdownloader/torrent/bandwidth_queue_entry.cpp:60-66 | for distinct channels, exactly if there are at most five |
| BandwidthBalance.TheSixthGains | btdownloader/torrent/bandwidth_manager.cpp:157-166 | a request with six channels gets more than its share of the last one and leaves it with quota it never had |
| Bandwidth.ToIntIsExactIff | btdownloader/torrent/bandwidth_limit.cpp:82 | a conversion to int is exact exactly if the value fits |
| BandwidthLimit.BandwidthChannel.Throttle | btdownloader/torrent/bandwidth_limit.cpp:46-52 | only the limit changes |
| BandwidthLimit.BandwidthChannel.UpdateQuota | btdownloader/torrent/bandwidth_limit.cpp:60-83 | the quota grows by the limit times the time, rounded to a byte, up to three seconds of the limit, or to what an int holds; and what is to be distributed is exactly the quota that is not negative |
| BandwidthLimit.BandwidthChannel.UseQuota | btdownloader/torrent/bandwidth_limit.cpp:96-103 | a limited channel is charged, an unlimited one is not |
| BandwidthLimit.BandwidthChannel.ReturnQuota | btdownloader/torrent/bandwidth_limit.cpp:88-94 | a limited channel gets its quota back |
| BandwidthLimit.BandwidthChannel.NeedQueueing | btdownloader/include/libtorrent/bandwidth_limit.hpp:74-79 | a block passes, and is charged, exactly if at least the limit would be left |
| BandwidthLimit.BandwidthChannel.GetQuotaLeft | btdownloader/torrent/bandwidth_limit.cpp:54-58 | infinite without a limit, and never negative |
| BandwidthLimit.QuotaLeftIsExactIff | btdownloader/torrent/bandwidth_limit.cpp:54-58 | the quota reported is exact exactly if it fits an int, or is negative and its low 32 bits are not a positive int |
| BandwidthLimit.RefundedSeemsEmpty | btdownloader/torrent/bandwidth_limit.cpp:54-94 | a channel that got 2^31 bytes back reports none |
| BandwidthLimit.OverchargedSeemsFull | btdownloader/torrent/bandwidth_limit.cpp:54-103 | a channel charged with 2^31 + 1 bytes reports as much as an int holds |
| BandwidthManager.HeldExactly | btdownloader/torrent/bandwidth_manager.cpp:110-116 | a block waits for exactly the channels that would be left with less than their limit, and every other one is charged once |
| BandwidthOrder.WhoHolds | btdownloader/torrent/bandwidth_manager.cpp:110-116 | those channels by place, in the order they were given |
| BandwidthManager.Manager.RequestBandwidth | btdownloader/torrent/bandwidth_manager.cpp:88-123 | a request is granted at once or queued as a whole behind the others, and the queued bytes grow by what was not granted |
| BandwidthManager.Manager.TakeOut | btdownloader/torrent/bandwidth_manager.cpp:153-178 | the requests of peers that go leave with nothing, in order, and what they had is back at all their channels |
| BandwidthOrder.WhoGoes | btdownloader/torrent/bandwidth_manager.cpp:153-178 | who leaves and who stays, by place: exactly the requests of peers that go leave, and both keep their order |
| BandwidthManager.Manager.SumPriorities | btdownloader/torrent/bandwidth_manager.cpp:180-189 | every channel's sum is that of the priorities waiting for it, and the list holds each channel waited for once |
| BandwidthManager.Manager.TopUp | btdownloader/torrent/bandwidth_manager.cpp:191-194 | exactly those channels are topped up, once each |
| BandwidthManager.TopUpIsExact | btdownloader/torrent/bandwidth_limit.cpp:60-83 | topping up keeps a quota within int and does not make it negative |
| BandwidthManager.Manager.AssignBandwidth | btdownloader/torrent/bandwidth_queue_entry.cpp:52-72 | the smallest share, taken from every channel the request goes through |
| BandwidthManager.Manager.Settle | btdownloader/torrent/bandwidth_manager.cpp:198-211 | a request leaves the queue exactly if it is complete or has waited long enough and got something; the queued bytes follow |
| BandwidthOrder.WhoIsDone | btdownloader/torrent/bandwidth_manager.cpp:196-212 | who is done and who stays, by place: exactly those that have all they asked for, or something and no round left, with their quota added and a round less, in order |
| BandwidthManager.Manager.Distribute | btdownloader/torrent/bandwidth_manager.cpp:196-212 | every request gets its quota once, and is either still in the queue or done |
| BandwidthManager.TakenFits | btdownloader/torrent/bandwidth_manager.cpp:196-212 | what one round takes from a channel is at most what it distributes |
| BandwidthManager.ChannelTicked | btdownloader/torrent/bandwidth_manager.cpp:137-220 | over one tick a channel's quota is refunds and top-up, at the rate of its limit, less what was handed out, and one that was not negative stays so |
| BandwidthManager.Manager.Tick | btdownloader/torrent/bandwidth_manager.cpp:137-220 | the four loops together: who leaves, who stays with how much, and every channel's balance |
| BandwidthManager.Manager.Deliver | btdownloader/torrent/bandwidth_manager.cpp:214-219 | every request that is done is delivered once, the last one first |
| BandwidthManager.Manager.UpdateQuotas | btdownloader/torrent/bandwidth_manager.cpp:137-220 | a tick keeps the count of queued bytes, and every request that was accepted is queued or was delivered once, with at most what it asked for |
| BandwidthManager.Manager.Close | btdownloader/torrent/bandwidth_manager.cpp:48-62 | everyone who waits is delivered what was handed out so far, and nothing is queued afterwards |

## Left out

- The count of volatile blocks (`m_volatile_size`): it is raised by a flag of the job and lowered by the
  list of the piece, so that no exact equation holds; with it `try_evict_one_volatile()`.
- Expiry times, statistics and the debug logs.
- Running out of memory in `copy_from_piece()`, `allocate_piece()` and `add_dirty_block()`.
- `clear()` and `drain_piece_bufs()` at shutdown.
- Flushing several pieces at once (`disk_io_thread.cpp:429-609`): `FlushIovec` is proved for block
  numbers that go on across pieces, but only a flush of one piece is built.
- Pieces are values in a map that is a field of the cache, and channels values in a field of the
  bandwidth manager: two pointers to one record are not modelled.
- Storage I/O and SHA-1: the disk is a map and the hasher the sequence of blocks it was fed.
- HashCursor.RunHashesInOrder: is about block numbers; blocks that do_hash() reads from the disk are
  not tied to the contents of the store.
- HashCursor.StepKeepsGood: do_hash() is modelled as the steps between its locked regions, not as an
  imperative body; kick_hasher()'s locked regions are also methods on the cache.
- BlockCache.Cache.ErasePiece: does not ask that no job is left at the piece, as the source asserts;
  that none is left over any run is `CacheJobs.EmptyHasNoJobs`.
- CacheRuns.RunIsAPlainStore: is about runs that guard against the two steps named above, which the
  source does not; `CacheRuns.OnlyTwoStepsGoWrong` is about all runs.
- Reads and writes with the cache switched off, and the flags `need_readback` and
  `outstanding_flush`.
- Preformatted entries, the text of error messages, printing, and the copying of nodes.
- BdecodeFailure.EveryDecodedTreeIsWalkable: asks for limits under which no link can be cut off; a
  buffer that stays within 29 bits although its limits do not see to it is not covered.
- Discarding a piece on purpose: `flush_piece()` with the flag that deletes the cache and
  `do_clear_piece()` drop dirty blocks whose writes they abort; `AbortDirty` is proved for one piece,
  but neither is a step of `CacheSystem`.
- The contents of strings and integers in the tokens of a failed parse.
- Bencode.EncodedEntryDecodes: does not cover the least 64 bit integer, whose negation overflows.
- Lenient UTF conversion.
- The overflow of counters of type int, except where a property above is about it.
- Encryption, the handshake and the messages of a peer connection.
