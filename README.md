# Scatter/gather client driver — a verified model

This project models the client side of the scatter/gather storage driver. That driver
presents files as byte streams and keeps their contents in 1024-byte blocks on remote
nodes. The model has five modules.

- `Types`: the fixed-width integers of the C source as bounded integers; the 1024-byte `Block`; `Option`.
- `Codec`: the wire packet. The frame is
  magic(4) · loc(8) · rem(8) · blk(8) · op(4) · sseq(2) · rseq(2) · flag(1) · payload(1024, optional) · magic(4).
  `Serialize` validates the six fields in a fixed order and returns the first failure's status. Otherwise it
  builds the 41- or 1065-byte frame. `Deserialize` skips both magic values and the flag. Without a data buffer it
  returns success unvalidated; with one it copies the payload and then validates. Integers are little-endian.
- `Sequence`: the table of the last receiver sequence number seen per remote node (`updateRseq` and
  `getLastRseq`), as a class whose `records` field the two loops read and append to. `NextSeq` is the 16-bit
  `getLastRseq(n) + 1`.
- `Cache`: the 128-slot block cache as a class over an `array<Slot>` with the `hit`/`miss` counters.
  - Lookups age every slot scanned before the match.
  - Inserts fill the lowest free slot. When slot 127 is taken they instead evict the first slot with the
    largest timer, aging each slot that precedes a new running maximum.
  - Each method is proved against a function of the old slot contents: `Touched`, `Inserted` or `Scanned`.
- `Addressing`: block `pos / 1024`, the 256-byte quarter at `pos % 1024`, and copying a quarter out
  of a block or patching one into it.
- `Driver`: the file layer as a class holding the file table, the cache, the sequence table and the
  endpoint's local node id and sequence numbers. Its methods model sgread, sgwrite, sgseek, sgclose,
  searchFh, handle allocation, and the block operations sgCblock, sgOblock and sgUblock.
  - The transport is a script: `replies` lists what each post returns, a frame or a failure, and `sent`
    logs every packet posted.
  - The endpoint state the block operations touch is also a value, `Endpoint`: the packets sent, the
    replies still to come, the sequence records, the cache slots and counters, the local node id,
    the local sequence number and the `remote` global. `Driver.Driver.Snapshot` reads it off the objects.
  - Each block operation is specified by a function from the endpoint before it to an `Outcome`:
    `ObtainOutcome` for sgOblock, `UpdateOutcome` for sgUblock, `CreateOutcome` for sgCblock and
    `WriteOutcome` for sgwrite's choice between the last two. An `Outcome` holds the status, the
    caller's buffer afterwards, the endpoint afterwards and the block appended to the file, if any.
    These functions follow the source step by step: each cache probe, post, sequence record and
    cache insert, and every early return, including the work done before a -1.
  - Each method ensures that its status, buffer, new endpoint state and new file table equal that
    function's result. The lemmas then state what the functions promise.

## Model

| member | source | states |
|---|---|---|
| Codec.PacketStatus.Code | sg_driver.c:313-330 | status codes are 0..6, and 0 exactly for success |
| Codec.Validate | sg_driver.c:313-330 | success iff all six checks pass; otherwise the status names a failed check and every check that comes earlier passes |
| Codec.Serialize | sg_driver.c:308-381 | rejected iff validation fails, with validation's status; otherwise the frame has 41 bytes without payload and 1065 with it |
| Codec.Deserialize | sg_driver.c:399-447 | the fields always come from bytes 4..36; without a data buffer the status is 0 and no payload is read; with one the status is the validation of those fields and the payload is bytes 37..1061 |
| Codec.SerializeLayout | sg_driver.c:333-379 | magic at offset 0 and at the end, the six fields at 4..36, flag 0/1 at 36, payload from 37 |
| Codec.HeaderRoundTrip | sg_driver.c:342-353 | the 32 field bytes decode back to the six fields written |
| Codec.FieldsRoundTrip | sg_driver.c:405-416 | any 32 field bytes, decoded and encoded again, are the same bytes |
| Codec.LittleEndianRoundTrip | sg_driver.c:340-353 | a fixed-width integer written byte by byte reads back unchanged |
| Codec.RoundTripWithData | sg_driver.c:308-447 | deserializing, with a data buffer, a valid data packet gives status 0, the six fields and all 1024 payload bytes |
| Codec.RoundTripHeaderOnly | sg_driver.c:355-421 | the same for a header-only packet decoded without a data buffer |
| Codec.ReserializeAgrees | sg_driver.c:399-447 | a frame that decodes with status 0 re-serializes to the same field and payload bytes |
| Codec.DeserializeIgnoresFraming | sg_driver.c:403-417 | the magic values and the flag byte never influence the decoded result |
| Sequence.FindNode | sg_driver.c:1061-1067 | the index of the first record for the node, or none when no record holds it |
| Sequence.NextSeq | sg_driver.c:656 | `last + 1` in a 16-bit sequence number: 0xffff wraps to 0 |
| Sequence.RecordedThenLast | sg_driver.c:1029-1069 | after recording, a known node reads back the recorded number and a new node reads back SG_INITIAL_SEQNO |
| Sequence.RecordedKeepsOthers | sg_driver.c:1033-1040 | recording for one node changes nothing another node reads back |
| Sequence.RecordedGrowth | sg_driver.c:1042-1044 | the table grows by exactly one record on first contact, by appending, and keeps every node id |
| Sequence.SequenceTable.UpdateRseq | sg_driver.c:1029-1047 | the loop overwrites the first record of the node or appends (node, SG_INITIAL_SEQNO) |
| Sequence.SequenceTable.GetLastRseq | sg_driver.c:1057-1069 | the loop returns the first record's number, or 0 |
| Cache.FindSlot | sg_cache.c:100-110 | the lowest slot holding (node, block); none when no slot holds it |
| Cache.ArgMaxUpToIsFirstMax | sg_cache.c:137-146 | after the first n slots the scan's victim has the largest timer among them and beats every earlier slot strictly |
| Cache.FirstArgMax | sg_cache.c:130-146 | the lowest index whose timer is maximal over all slots |
| Cache.FirstFree | sg_cache.c:157-161 | the lowest slot with node id 0, found at or before the last slot when that slot is free |
| Cache.ScanBumpIsNewMax | sg_cache.c:137-146 | the eviction scan ages a slot exactly when the next slot is a new running maximum |
| Cache.TouchedKeepsContents | sg_cache.c:100-110 | a lookup changes only timers, so any later lookup finds the same slot and buffer |
| Cache.TimersStayNonNegative | sg_cache.c:102-106 | lookups and inserts keep every timer non-negative |
| Cache.InsertedWritesOneSlot | sg_cache.c:128-171 | an insert writes (node, block, buffer, timer 0) into exactly one slot, leaving every other slot's ids and buffer as they were: the first free slot, or the first max-timer slot when slot 127 is taken |
| Cache.LookupAfterInsert | sg_cache.c:128-171 | after an insert, a lookup of that key finds a slot at or before the written one, and finds the new buffer when no other slot held the key |
| Cache.InsertMayDuplicate | sg_cache.c:155-166 | inserting a key that is already cached, while a slot is free, leaves two slots holding it |
| Cache.HitSlotNotEvicted | sg_cache.c:95-153 | right after a hit on slot k > 0, the eviction victim is not k |
| Cache.BlockCache.constructor | sg_cache.c:32-34 | zero-filled storage: every slot empty, counters 0 |
| Cache.BlockCache.Init | sg_cache.c:49-65 | every slot empty, hit = miss = 0, result 0, `maxElements` ignored |
| Cache.BlockCache.Get | sg_cache.c:95-116 | returns the lowest match's buffer or none; slots before the match age by one, the match resets to 0, later slots are untouched (all slots age on a miss); miss rises by 1, hit by 2 on a match and 1 otherwise |
| Cache.BlockCache.Put | sg_cache.c:128-171 | the slots become the insert of the old slots, miss rises by 1, hit is unchanged, the result is 0 |
| Cache.BlockCache.EvictionScan | sg_cache.c:130-147 | returns the first max-timer slot and leaves the slots aged as the scan ages them |
| Cache.BlockCache.FreeSlot | sg_cache.c:157-161 | returns the first free slot |
| Addressing.CopyQuarterOut | sg_driver.c:638-649 | at a quarter offset q, the first 256 bytes of the buffer become block bytes q..q+256 and the rest stay; any other offset copies nothing |
| Addressing.PatchQuarter | sg_driver.c:793 | at a quarter offset q, block bytes q..q+256 become the buffer's first 256 bytes and the rest stay; any other offset changes nothing |
| Addressing.SequentialQuarters | sg_driver.c:191-194 | the n-th 256-byte step from position 0 lands in block n / 4 at quarter n % 4, and is on a block boundary exactly when n % 4 == 0 |
| Addressing.AlignedPositionIsQuarter | sg_driver.c:685-699 | a position that is a multiple of 256 always has a quarter offset |
| Addressing.ReadAfterPatch | sg_driver.c:763-1006 | reading back a quarter just patched gives the bytes written |
| Addressing.PatchKeepsOtherQuarters | sg_driver.c:825-946 | patching one quarter leaves what every other quarter reads back unchanged |
| Driver.CreateRequestRejected | sg_driver.c:560-566 | with zero sentinels the create request fails validation: bad local id before the first contact, bad remote id after |
| Driver.InitRequestRejected | sg_driver.c:500-506 | with zero sentinels the handshake request names local node 0 and fails validation with the bad-local-id status, so sgInitEndpoint and sgopen return -1 |
| Driver.ProbeKey | sg_driver.c:634 | the first lookup's block id is 0 or 1, the value of the misplaced comparison (the same probe opens sgUblock at line 743), and never the id of a block numbered above 1 |
| Driver.ProbeIgnoresRealKey | sg_driver.c:634 | a block numbered above 1 misses the probe whenever no slot holds block 1 of its node, even when the block itself is cached |
| Driver.Response | sg_driver.c:578-582 | a delivered reply decoded with a data buffer always carries a payload |
| Driver.Post | sg_driver.c:560-583 | a post changes only the send log and the reply script, and a decoded reply carries a payload |
| Driver.ObtainSent | sg_driver.c:656-681 | the Obtain leaves the cache slots as they were |
| Driver.CacheGet | sg_cache.c:95-116 | a lookup keeps the number of slots |
| Driver.CachePut | sg_cache.c:128-171 | an insert keeps the 128 slots |
| Driver.CreateFailsWithZeroSentinels | sg_driver.c:547-595 | with zero sentinels sgCblock returns -1 having only consumed a local sequence number: nothing is sent and the buffer, cache, sequence table and file are unchanged |
| Driver.ZeroSentinelsNeverExtend | sg_driver.c:191-214 | with zero sentinels no sgwrite appends a block to a file |
| Driver.OnlyCreateExtendsFile | sg_driver.c:191-214 | sgOblock and sgUblock never add a block; sgwrite adds one only when sgCblock succeeded at the end of the file on a block boundary |
| Driver.SequentialWritesCreateEveryFourth | sg_driver.c:191-214 | appending 256 bytes at a time, the n-th sgwrite creates exactly when n % 4 == 0, and otherwise updates quarter n % 4 of block n / 4 |
| Driver.CreateDoneEffects | sg_driver.c:547-604 | a successful sgCblock sent the buffer in one Create, took the reply's payload, recorded its sequence, cached the payload under the reply's (node, block), adopted the reply's node id and appends (block, node) |
| Driver.UpdateKeepsCacheContents | sg_driver.c:724-1018 | on every path of sgUblock each key looks up the same buffer afterwards |
| Driver.RemoteUpdateKeepsSlots | sg_driver.c:763-1017 | the remote update leaves the cache slots as they were |
| Driver.RemoteUpdateDoneEffects | sg_driver.c:763-1017 | a successful remote update sent the Obtain and then an Update of the obtained block with the caller's quarter patched in, with the receiver number `getLastRseq + 1` after recording the first reply; the buffer holds the second reply's payload and both sequences are recorded |
| Driver.ProbeHitServesFromCache | sg_driver.c:634-651 | on a probe hit sgOblock and sgUblock act alike: nothing is sent, no sequence, node id or sequence number changes, two lookups are counted, and a cached block yields its quarter |
| Driver.ObtainMissFetches | sg_driver.c:654-711 | on a probe miss one Obtain is sent; a clean reply gives the quarter, is recorded, and its very block is inserted into the cache (the probe-touched slots) under the file's key, before a reply with the unknown local id fails the call; every other path fails with the buffer, sequence table and cached buffers unchanged |
| Driver.TransportLog | sg_driver.c:571-583 | the send log only grows, each packet logged consumes one reply, sgOblock posts at most once and sgwrite's block operation at most twice |
| Driver.FoundHandles | sg_driver.c:460-473 | in the zero-filled table handle 0 is always found; any other handle is found exactly when it was allocated |
| Driver.Driver.constructor | sg_driver.c:88-100 | initial state: empty file table, cache initialised with 32 (every slot empty), empty sequence table and send log, the handshake's node id and sequence number as inputs |
| Driver.Driver.Open | sg_driver.c:121-129 | the next handle becomes an open, empty file at position 0, and the count grows by one |
| Driver.Driver.SearchFh | sg_driver.c:460-473 | true exactly when some table entry carries the handle |
| Driver.Driver.Exchange | sg_driver.c:571-583 | equals `Post`: a rejected request posts nothing; otherwise the packet is logged and the next reply is consumed and decoded with a data buffer |
| Driver.Driver.CachedQuarter | sg_driver.c:636-651 | equals `CachedQuarterOutcome`: the second lookup ages the cache; a found block gives its quarter, a missing one is a NULL dereference at a quarter offset |
| Driver.Driver.Obtain | sg_driver.c:656-681 | equals `ObtainSent`: `remote` becomes `getLastRseq(node) + 1`, the Obtain carries the current local sequence number and `remote`, and the local number advances |
| Driver.Driver.FetchQuarter | sg_driver.c:654-711 | equals `FetchOutcome` on every path, including the -1 after a reply with the unknown local id, which still records the sequence, copies the quarter and caches the block |
| Driver.Driver.ObtainBlock | sg_driver.c:616-712 | equals `ObtainOutcome`: the probe, then the hit branch or the fetch; the file table is unchanged |
| Driver.Driver.RemoteUpdate | sg_driver.c:763-1017 | equals `RemoteUpdateOutcome` on every path: a failed Obtain, a failed Update post (buffer kept), a bad Update status (buffer overwritten by the reply), an unknown local id (sequence recorded, buffer overwritten), success |
| Driver.Driver.UpdateBlock | sg_driver.c:724-1018 | equals `UpdateOutcome`: a probe hit copies the cached quarter into the buffer and sends nothing; a miss at a quarter offset updates remotely without writing the cache (the probe still ages slots and counts); any other offset sends nothing |
| Driver.Driver.CreateBlock | sg_driver.c:547-604 | equals `CreateOutcome`, and the file gains exactly the block the outcome adds: a rejected request only advances the local sequence number; a bad reply overwrites the buffer; success caches the reply's block under the reply's key and appends that key |
| Driver.Driver.AdoptCreated | sg_driver.c:585-603 | equals `AdoptOutcome`: the sequence is recorded and `remote` set; only a known local id goes on to cache the block, adopt the id and extend the file |
| Driver.Driver.AppendBlock | sg_driver.c:600-602 | the file's block list grows by exactly the new block, and no other entry changes |
| Driver.Driver.Read | sg_driver.c:145-167 | -1 exactly for an unknown handle, a closed file or pos == size, with nothing changed; otherwise returns len, the buffer and endpoint are `ObtainOutcome`'s and pos advances by len whatever the block operation reported |
| Driver.Driver.Write | sg_driver.c:179-218 | -1 exactly for an unknown handle or a closed file, with nothing changed; otherwise returns len, the buffer and endpoint are `WriteOutcome`'s, the file gains the block it adds, and pos and size grow by len whatever the block operation reported |
| Driver.Driver.WriteBlock | sg_driver.c:191-214 | equals `WriteOutcome`: sgCblock at the end of the file on a block boundary, sgUblock otherwise; the file gains exactly the block the outcome adds |
| Driver.Driver.Seek | sg_driver.c:229-247 | -1 exactly for an unknown handle or a closed file; otherwise returns off, and moves there only when off <= size |
| Driver.Driver.Close | sg_driver.c:257-274 | -1 exactly for an unknown handle or a closed file; otherwise 0, with pos reset and the file closed |

## Left out

- Transport and endpoint handshake (`sgServicePost`, `sgInitEndpoint`): foreign I/O. Replies are a script of frames or post failures, and the handshake's resulting local node id and sequence number are constructor inputs.
- Logging and `closeSGCache`'s hit-rate output: output plus floating point.
- Pointer aliasing and lifetimes: the cache stores the caller's pointer, and in sgOblock that is a stack array. Cached blocks are modelled as owned byte sequences.
- Host representation: raw `memcpy` of integers in host order, and `sizeof loc` being a pointer size. The model fixes little-endian with widths 8/8/8/4/2/2.
- Header constants not in the source are assumed: the magic value is 0xfefe, the op codes are 0..5 with 6 as the maximum valid code, and SG_INITIAL_SEQNO is 1, and SG_MAX_CACHE_ELEMENTS is 128, the only value that fits the 128-entry cache array and its slot-127 test. SG_NODE_UNKNOWN, SG_BLOCK_UNKNOWN and SG_SEQNO_UNKNOWN, which the source names but never defines, are a driver parameter (`Unknowns`); `ZERO_UNKNOWNS` is the all-zero choice of them.
- sgopen's path matching by pointer identity, its loop over `files[filecount]`, and its wipe of the node table on every open. Only the handle allocation is modelled (`Driver.Driver.Open`), and the one-time initialisation is the constructor.
- Driver.Driver.SearchFh: scans the 999 valid entries, not the out-of-bounds entry 999 the source also reads.
- The fixed capacities: at most 999 files, 999 blocks per file and 999 sequence records. The file count is capped by `Open`'s precondition; block lists and the sequence table are unbounded sequences.
- Integer widths of `pos`, `size`, `len`, `blockcount`, the cache timers and the hit/miss counters: they are unbounded, so overflow is not modelled.
- The `len` argument of the block operations is ignored, as in the source. The caller's buffer is modelled as a 1024-byte window, of which the operations read or write the first 256 bytes or the whole block.
- Driver.Driver.UpdateBlock: the source then tests and assigns the uninitialised `loc` and `rem` after the hit branch and after a miss at a non-quarter offset. The model reports Done and keeps the local node id.
- Driver.Driver.CachedQuarter: a NULL second lookup after a probe hit is a `memcpy` from NULL in the source. The model reports it as the `NullBlock` status and leaves the buffer unchanged.
- Things the code does that a reader might not expect, which the model follows:
  - recording a new node stores SG_INITIAL_SEQNO, not the observed number (`Sequence.RecordedThenLast`);
  - an Obtain to an unseen node uses `getLastRseq + 1 = 1`, not the unknown sentinel;
  - seeking past the end returns `off` without an error;
  - a read is refused only at `pos == size`, not beyond it.
- With zero sentinels every create request fails validation, so `sgwrite` never extends a file's block list (`Driver.ZeroSentinelsNeverExtend`, `Driver.CreateRequestRejected`).
- Driver.Driver.constructor: with zero sentinels the handshake request itself fails validation (`Driver.InitRequestRejected`), so sgopen returns -1 and the driver never reaches the constructor's state. That state, and everything built on it, is reachable only with non-zero sentinels, which the header would have to define.
- The `remote` global is a scratch variable in the source: each operation overwrites it before use. The model tracks its value in `Endpoint` but states nothing further about it.
