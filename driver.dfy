/**
 * The file layer of the scatter/gather driver (sg_driver.c): the file table, read / write /
 * seek / close, and the block operations sgCblock / sgOblock / sgUblock that translate a
 * file position into a remote block and a 256-byte quarter of it.
 *
 * The transport is a script: `replies` holds, in order, what each post will return, and
 * `sent` records every packet posted.
 *
 * Each block operation is specified by a function of the endpoint state before it (an
 * `Endpoint` value): the status it reports, what it leaves in the caller's buffer, the
 * endpoint state after it, and the block it appends to the file, on every path.
 */
module Driver {
  import opened Types
  import opened Codec
  import opened Sequence
  import opened Cache
  import opened Addressing

  /** Size of the `files` table. */
  const MAX_FILES: nat := 999

  /** SG_NODE_UNKNOWN, SG_BLOCK_UNKNOWN and SG_SEQNO_UNKNOWN. */
  datatype Unknowns = Unknowns(node: uint64, block: uint64, seqno: uint16)

  /** The all-zero choice of the three sentinels, which the header would define. */
  const ZERO_UNKNOWNS: Unknowns := Unknowns(0, 0, 0)

  /** One allocated remote block of a file: `blocks[i]` and `nodeID[i]` of `struct archive`. */
  datatype BlockRef = BlockRef(blockId: uint64, nodeId: uint64)

  /** One `struct archive`: handle, open status, block list, size and position. */
  datatype FileDesc = FileDesc(fhandle: int, open: bool, blocks: seq<BlockRef>, size: nat, pos: nat)

  /** A zero-filled, never-opened entry of the global table. */
  const UNUSED_FILE: FileDesc := FileDesc(0, false, [], 0, 0)

  /** Entry `i` of the file's zero-initialised block arrays. */
  function BlockAt(f: FileDesc, i: nat): BlockRef
  {
    if i < |f.blocks| then f.blocks[i] else BlockRef(0, 0)
  }

  /** The block that the file position addresses. */
  function TargetBlock(f: FileDesc): BlockRef
  {
    BlockAt(f, BlockIndex(f.pos))
  }

  /** The file after `blockcount++` with the created block, if one was created. */
  function WithBlock(f: FileDesc, added: Option<BlockRef>): FileDesc
  {
    if added.Some? then f.(blocks := f.blocks + [added.value]) else f
  }

  /** What the transport does with the next post. */
  datatype Reply = Delivered(frame: Frame) | PostFailed

  function NextFrame(rs: seq<Reply>): Option<Frame>
  {
    if rs != [] && rs[0].Delivered? then Some(rs[0].frame) else None
  }

  function Rest(rs: seq<Reply>): seq<Reply>
  {
    if rs == [] then [] else rs[1..]
  }

  /** The script after `k` posts. */
  function Drop(rs: seq<Reply>, k: nat): seq<Reply>
  {
    if k == 0 then rs else Drop(Rest(rs), k - 1)
  }

  /** The next reply, deserialized into a data buffer as every block operation does. */
  function Response(rs: seq<Reply>): (r: Option<Unpacked>)
    ensures r.Some? ==> r.value.data.Some?
  {
    match NextFrame(rs)
    case Some(f) => Some(Deserialize(f, true))
    case None => None
  }

  /** Result of a block operation: 0, -1, or a dereference of the NULL pointer the cache returned. */
  datatype OpStatus = Done | Failed | NullBlock

  /**
   * The block id the cache is probed with first: the parenthesis in the source closes
   * after `blocks[destblock] != NULL`, so the comparison's 0 or 1 is passed as the id.
   */
  function ProbeKey(ref: BlockRef): (k: uint64)
    ensures k <= 1
    ensures ref.blockId > 1 ==> k != ref.blockId
  {
    if ref.blockId != 0 then 1 else 0
  }

  /** Whether that probe returns a non-NULL buffer, which selects the cache-hit branch. */
  predicate ProbeHits(s: seq<Slot>, ref: BlockRef)
  {
    Lookup(s, ref.nodeId, ProbeKey(ref)).Some?
  }

  /**
   * The probe never looks at the block's own key: when no slot holds block id 1 for the
   * node, a block with an id above 1 misses the probe even if it is cached under its id.
   */
  lemma ProbeIgnoresRealKey(s: seq<Slot>, ref: BlockRef)
    requires ref.blockId > 1
    requires forall i :: 0 <= i < |s| ==> !Holds(s[i], ref.nodeId, 1)
    ensures !ProbeHits(s, ref)
  {
  }

  /** The request sgInitEndpoint serializes: unknown ids, the first local sequence number. */
  function InitRequest(u: Unknowns): Header
  {
    Header(u.node, u.node, u.block, INIT_ENDPOINT, INITIAL_SEQNO, u.seqno)
  }

  function ObtainRequest(loc: uint64, ref: BlockRef, sseq: uint16, rseq: uint16): Header
  {
    Header(loc, ref.nodeId, ref.blockId, OBTAIN_BLOCK, sseq, rseq)
  }

  function UpdateRequest(loc: uint64, ref: BlockRef, sseq: uint16, rseq: uint16): Header
  {
    Header(loc, ref.nodeId, ref.blockId, UPDATE_BLOCK, sseq, rseq)
  }

  function CreateRequest(u: Unknowns, loc: uint64, sseq: uint16): Header
  {
    Header(loc, u.node, u.block, CREATE_BLOCK, sseq, u.seqno)
  }

  /**
   * With the all-zero sentinels the handshake request names local node 0, so it
   * fails the codec's first check and sgInitEndpoint, hence sgopen, returns -1.
   */
  lemma InitRequestRejected()
    ensures Serialize(InitRequest(ZERO_UNKNOWNS), None) == Rejected(BadLocal)
  {
  }

  /**
   * With the all-zero sentinels the create request of sgCblock can never pass the
   * codec's own validation: it names remote node 0 (and local node 0 before the handshake).
   */
  lemma CreateRequestRejected(loc: uint64, sseq: uint16, b: Block)
    ensures Serialize(CreateRequest(ZERO_UNKNOWNS, loc, sseq), Some(b)).Rejected?
    ensures Serialize(CreateRequest(ZERO_UNKNOWNS, loc, sseq), Some(b)).status
      == if loc == 0 then BadLocal else BadRemote
  {
  }

  /** Shape of the global file table: slot i holds handle i once allocated, zeros before. */
  predicate FileTable(files: seq<FileDesc>, fileCount: nat)
  {
    && |files| == MAX_FILES
    && fileCount <= MAX_FILES
    && forall i :: 0 <= i < MAX_FILES ==> files[i].fhandle == if i < fileCount then i else 0
  }

  /** searchFh's answer: some table entry carries handle `fh`. */
  predicate Found(files: seq<FileDesc>, fh: int)
  {
    exists i :: 0 <= i < |files| && files[i].fhandle == fh
  }

  /**
   * The zero-filled table makes handle 0 always found, even before any open; every other
   * handle is found exactly when it has been allocated. Found handles index the table.
   */
  lemma FoundHandles(files: seq<FileDesc>, fileCount: nat, fh: int)
    requires FileTable(files, fileCount)
    ensures Found(files, fh) <==> fh == 0 || 0 <= fh < fileCount
  {
    if fh == 0 {
      assert files[0].fhandle == 0;
    } else if 0 <= fh < fileCount {
      assert files[fh].fhandle == fh;
    }
  }

  /**
   * The endpoint state the block operations read and write besides the file table: the
   * packets sent, the replies still to come, the sequence table, the cache slots and
   * counters, the local node id and sequence number, and the `remote` scratch global.
   */
  datatype Endpoint = Endpoint(
    sent: seq<seq<byte>>, replies: seq<Reply>, records: seq<NodeRecord>,
    slots: seq<Slot>, hit: int, miss: int,
    localNodeId: uint64, localSeqno: uint16, remote: uint16)

  /** A cache lookup's result and the endpoint after it. */
  datatype Probe = Probe(block: Option<Block>, e: Endpoint)

  /** A post's decoded reply (None when serialization or the post fails) and the endpoint after it. */
  datatype Sent = Sent(resp: Option<Unpacked>, e: Endpoint)

  /** A reply decoded into a data buffer carries one. */
  predicate Decoded(o: Sent)
  {
    o.resp.Some? ==> o.resp.value.data.Some?
  }

  /** A block operation's status, the caller's buffer afterwards, the new endpoint and the block created. */
  datatype Outcome = Outcome(st: OpStatus, out: Block, e: Endpoint, added: Option<BlockRef>)

  /** getSGDataBlock on the endpoint's cache. */
  function CacheGet(e: Endpoint, nde: uint64, blk: uint64): (p: Probe)
    ensures |p.e.slots| == |e.slots|
  {
    var k := FindSlot(e.slots, nde, blk);
    Probe(Lookup(e.slots, nde, blk),
          e.(slots := Touched(e.slots, k), miss := e.miss + 1, hit := e.hit + if k.Some? then 2 else 1))
  }

  /** putSGDataBlock on the endpoint's cache. */
  function CachePut(e: Endpoint, nde: uint64, blk: uint64, b: Block): (e': Endpoint)
    requires |e.slots| == CACHE_SIZE
    ensures |e'.slots| == CACHE_SIZE
  {
    e.(slots := Inserted(e.slots, nde, blk, b), miss := e.miss + 1)
  }

  /** updateRseq on the endpoint's sequence table. */
  function Record(e: Endpoint, nid: uint64, s: uint16): Endpoint
  {
    e.(records := Recorded(e.records, nid, s))
  }

  /** Serialize, post and decode into a data buffer; nothing is posted when serialization fails. */
  function Post(e: Endpoint, h: Header, payload: Option<Block>): (r: Sent)
    ensures r.resp.Some? ==> r.resp.value.data.Some?
    ensures r.e.(sent := e.sent, replies := e.replies) == e
  {
    var pkt := Serialize(h, payload);
    if pkt.Rejected? then Sent(None, e)
    else Sent(Response(e.replies), e.(sent := e.sent + [pkt.bytes], replies := Rest(e.replies)))
  }

  /** `remote = getLastRseq(node) + 1`, then an Obtain sent with the post-incremented local sequence number. */
  function ObtainSent(e: Endpoint, ref: BlockRef): (r: Sent)
    ensures r.resp.Some? ==> r.resp.value.data.Some?
    ensures r.e.slots == e.slots
  {
    var remote := NextSeq(LastRseq(e.records, ref.nodeId));
    Post(e.(remote := remote, localSeqno := NextSeq(e.localSeqno)),
         ObtainRequest(e.localNodeId, ref, e.localSeqno, remote), None)
  }

  /** The hit branch: look the block up by its real id and copy the quarter out of it. */
  function CachedQuarterOutcome(e: Endpoint, ref: BlockRef, q: nat, buf: Block): Outcome
  {
    var g := CacheGet(e, ref.nodeId, ref.blockId);
    if g.block.Some? then Outcome(Done, CopyQuarterOut(g.block.value, q, buf), g.e, None)
    else Outcome(if IsQuarter(q) then NullBlock else Done, buf, g.e, None)
  }

  /**
   * sgOblock's miss branch. A reply that decodes cleanly is recorded, its quarter copied
   * out and its block cached before the local id is checked.
   */
  function FetchOutcome(e: Endpoint, u: Unknowns, ref: BlockRef, q: nat, buf: Block): Outcome
    requires |e.slots| == CACHE_SIZE
  {
    FetchReply(ObtainSent(e, ref), u, ref, q, buf)
  }

  /** What sgOblock does with the Obtain's reply. */
  function FetchReply(o: Sent, u: Unknowns, ref: BlockRef, q: nat, buf: Block): Outcome
    requires |o.e.slots| == CACHE_SIZE && Decoded(o)
  {
    if o.resp.None? || o.resp.value.status != PacketOk then Outcome(Failed, buf, o.e, None)
    else
      var d := o.resp.value;
      var out := CopyQuarterOut(d.data.value, q, buf);
      var e1 := CachePut(Record(o.e, d.header.rem, d.header.rseq), ref.nodeId, ref.blockId, d.data.value);
      if d.header.loc == u.node then Outcome(Failed, out, e1, None)
      else Outcome(Done, out, e1.(localNodeId := d.header.rem), None)
  }

  /** sgOblock on file `f`. */
  function ObtainOutcome(e: Endpoint, u: Unknowns, f: FileDesc, buf: Block): Outcome
    requires |e.slots| == CACHE_SIZE
  {
    var ref := TargetBlock(f);
    var q := QuarterOffset(f.pos);
    var p := CacheGet(e, ref.nodeId, ProbeKey(ref));
    if p.block.Some? then CachedQuarterOutcome(p.e, ref, q, buf) else FetchOutcome(p.e, u, ref, q, buf)
  }

  /**
   * sgUblock's miss branch at quarter offset `q`: obtain the block, patch the caller's
   * bytes in, send it back in an Update; the Update's reply payload lands in the caller's
   * buffer even when its status is bad.
   */
  function RemoteUpdateOutcome(e: Endpoint, u: Unknowns, ref: BlockRef, q: nat, buf: Block): Outcome
  {
    UpdateFirstReply(ObtainSent(e, ref), u, ref, q, buf)
  }

  /** What sgUblock does with the Obtain's reply: patch the quarter in and post the Update. */
  function UpdateFirstReply(o1: Sent, u: Unknowns, ref: BlockRef, q: nat, buf: Block): Outcome
    requires Decoded(o1)
  {
    if o1.resp.None? || o1.resp.value.status != PacketOk then Outcome(Failed, buf, o1.e, None)
    else
      var d1 := o1.resp.value;
      var e1 := Record(o1.e, d1.header.rem, d1.header.rseq);
      var rseq := NextSeq(LastRseq(e1.records, ref.nodeId));
      var e2 := e1.(remote := if q == 0 then NextSeq(rseq) else rseq, localSeqno := NextSeq(e1.localSeqno));
      UpdateSecondReply(Post(e2, UpdateRequest(e1.localNodeId, ref, e1.localSeqno, rseq), Some(PatchQuarter(d1.data.value, q, buf))), u, buf)
  }

  /** What sgUblock does with the Update's reply, whose payload lands in the caller's buffer. */
  function UpdateSecondReply(o2: Sent, u: Unknowns, buf: Block): Outcome
    requires Decoded(o2)
  {
    if o2.resp.None? then Outcome(Failed, buf, o2.e, None)
    else
      var d2 := o2.resp.value;
      if d2.status != PacketOk then Outcome(Failed, d2.data.value, o2.e, None)
      else
        var e3 := Record(o2.e, d2.header.rem, d2.header.rseq);
        if d2.header.loc == u.node then Outcome(Failed, d2.data.value, e3, None)
        else Outcome(Done, d2.data.value, e3.(localNodeId := d2.header.rem), None)
  }

  /** sgUblock on file `f`; at a non-quarter offset a probe miss does nothing more. */
  function UpdateOutcome(e: Endpoint, u: Unknowns, f: FileDesc, buf: Block): Outcome
    requires |e.slots| == CACHE_SIZE
  {
    var ref := TargetBlock(f);
    var q := QuarterOffset(f.pos);
    var p := CacheGet(e, ref.nodeId, ProbeKey(ref));
    if p.block.Some? then CachedQuarterOutcome(p.e, ref, q, buf)
    else if IsQuarter(q) then RemoteUpdateOutcome(p.e, u, ref, q, buf)
    else Outcome(Done, buf, p.e, None)
  }

  /** The rest of sgCblock once the reply decoded cleanly. */
  function AdoptOutcome(e: Endpoint, u: Unknowns, d: Header, block: Block): Outcome
    requires |e.slots| == CACHE_SIZE
  {
    var e1 := Record(e, d.rem, d.rseq);
    var e2 := e1.(remote := LastRseq(e1.records, d.rem));
    if d.loc == u.node then Outcome(Failed, block, e2, None)
    else Outcome(Done, block, CachePut(e2, d.rem, d.blk, block).(localNodeId := d.rem), Some(BlockRef(d.blk, d.rem)))
  }

  /** sgCblock: the reply's payload overwrites the caller's buffer even when its status is bad. */
  function CreateOutcome(e: Endpoint, u: Unknowns, buf: Block): Outcome
    requires |e.slots| == CACHE_SIZE
  {
    CreateReply(Post(e.(localSeqno := NextSeq(e.localSeqno)), CreateRequest(u, e.localNodeId, e.localSeqno), Some(buf)), u, buf)
  }

  /** What sgCblock does with the Create's reply. */
  function CreateReply(o: Sent, u: Unknowns, buf: Block): Outcome
    requires |o.e.slots| == CACHE_SIZE && Decoded(o)
  {
    if o.resp.None? then Outcome(Failed, buf, o.e, None)
    else if o.resp.value.status != PacketOk then Outcome(Failed, o.resp.value.data.value, o.e, None)
    else AdoptOutcome(o.e, u, o.resp.value.header, o.resp.value.data.value)
  }

  /** sgwrite's block operation: create at the end of the file on a block boundary, update otherwise. */
  function WriteOutcome(e: Endpoint, u: Unknowns, f: FileDesc, buf: Block): Outcome
    requires |e.slots| == CACHE_SIZE
  {
    if f.pos == f.size && f.pos % BLOCK_SIZE == 0 then CreateOutcome(e, u, buf) else UpdateOutcome(e, u, f, buf)
  }

  /**
   * With the all-zero sentinels sgCblock only consumes a local sequence number:
   * nothing is posted and the buffer, cache, sequence table and file stay as they were.
   */
  lemma CreateFailsWithZeroSentinels(e: Endpoint, buf: Block)
    requires |e.slots| == CACHE_SIZE
    ensures CreateOutcome(e, ZERO_UNKNOWNS, buf) == Outcome(Failed, buf, e.(localSeqno := NextSeq(e.localSeqno)), None)
  {
    CreateRequestRejected(e.localNodeId, e.localSeqno, buf);
  }

  /** Only a successful create extends a file, and only sgwrite's create branch creates. */
  lemma OnlyCreateExtendsFile(e: Endpoint, u: Unknowns, f: FileDesc, buf: Block)
    requires |e.slots| == CACHE_SIZE
    ensures ObtainOutcome(e, u, f, buf).added.None?
    ensures UpdateOutcome(e, u, f, buf).added.None?
    ensures var o := WriteOutcome(e, u, f, buf);
      o.added.Some? ==> o.st == Done && f.pos == f.size && f.pos % BLOCK_SIZE == 0
  {
    var ref := TargetBlock(f);
    var q := QuarterOffset(f.pos);
    var p := CacheGet(e, ref.nodeId, ProbeKey(ref));
    FetchAddsNothing(p.e, u, ref, q, buf);
    RemoteUpdateAddsNothing(p.e, u, ref, q, buf);
    CreateAddsOnSuccess(e, u, buf);
  }

  lemma FetchAddsNothing(e: Endpoint, u: Unknowns, ref: BlockRef, q: nat, buf: Block)
    requires |e.slots| == CACHE_SIZE
    ensures FetchOutcome(e, u, ref, q, buf).added.None?
  {
  }

  lemma RemoteUpdateAddsNothing(e: Endpoint, u: Unknowns, ref: BlockRef, q: nat, buf: Block)
    ensures RemoteUpdateOutcome(e, u, ref, q, buf).added.None?
  {
  }

  lemma CreateAddsOnSuccess(e: Endpoint, u: Unknowns, buf: Block)
    requires |e.slots| == CACHE_SIZE
    ensures var o := CreateOutcome(e, u, buf); o.added.Some? ==> o.st == Done
  {
  }

  /**
   * Appending 256 bytes at a time to a file: the n-th sgwrite creates a block exactly when
   * n is a multiple of four, and otherwise updates quarter n % 4 of block n / 4.
   */
  lemma SequentialWritesCreateEveryFourth(e: Endpoint, u: Unknowns, f: FileDesc, buf: Block, n: nat)
    requires |e.slots| == CACHE_SIZE && f.pos == f.size == n * QUARTER_SIZE
    ensures WriteOutcome(e, u, f, buf) == if n % 4 == 0 then CreateOutcome(e, u, buf) else UpdateOutcome(e, u, f, buf)
    ensures TargetBlock(f) == BlockAt(f, n / 4) && QuarterOffset(f.pos) == (n % 4) * QUARTER_SIZE
  {
    SequentialQuarters(n);
  }

  /** With the all-zero sentinels sgwrite never extends a file. */
  lemma ZeroSentinelsNeverExtend(e: Endpoint, f: FileDesc, buf: Block)
    requires |e.slots| == CACHE_SIZE
    ensures WriteOutcome(e, ZERO_UNKNOWNS, f, buf).added.None?
  {
    CreateFailsWithZeroSentinels(e, buf);
    OnlyCreateExtendsFile(e, ZERO_UNKNOWNS, f, buf);
  }

  /**
   * A successful sgCblock sent the caller's buffer in one Create, took the reply's payload
   * as the buffer, cached it under the reply's (node, block) and appends that pair to the file.
   */
  lemma CreateDoneEffects(e: Endpoint, u: Unknowns, buf: Block)
    requires |e.slots| == CACHE_SIZE
    ensures var o := CreateOutcome(e, u, buf);
      o.st == Done ==>
        && Serialize(CreateRequest(u, e.localNodeId, e.localSeqno), Some(buf)).Packet?
        && o.e.sent == e.sent + [Serialize(CreateRequest(u, e.localNodeId, e.localSeqno), Some(buf)).bytes]
        && o.e.replies == Rest(e.replies)
        && Response(e.replies).Some?
        && var d := Response(e.replies).value;
        && d.status == PacketOk && d.header.loc != u.node
        && o.out == d.data.value
        && o.added == Some(BlockRef(d.header.blk, d.header.rem))
        && o.e.records == Recorded(e.records, d.header.rem, d.header.rseq)
        && o.e.slots == Inserted(e.slots, d.header.rem, d.header.blk, o.out)
        && o.e.localNodeId == d.header.rem
        && o.e.localSeqno == NextSeq(e.localSeqno)
  {
  }

  /**
   * sgUblock never writes the cache: whatever path it takes, every key looks up the same
   * buffer afterwards (only the timers and counters move).
   */
  lemma UpdateKeepsCacheContents(e: Endpoint, u: Unknowns, f: FileDesc, buf: Block, nde: uint64, blk: uint64)
    requires |e.slots| == CACHE_SIZE
    ensures Lookup(UpdateOutcome(e, u, f, buf).e.slots, nde, blk) == Lookup(e.slots, nde, blk)
  {
    var ref := TargetBlock(f);
    var p := CacheGet(e, ref.nodeId, ProbeKey(ref));
    TouchedKeepsContents(e.slots, FindSlot(e.slots, ref.nodeId, ProbeKey(ref)), nde, blk);
    var q := QuarterOffset(f.pos);
    if p.block.Some? {
      assert UpdateOutcome(e, u, f, buf) == CachedQuarterOutcome(p.e, ref, q, buf);
      TouchedKeepsContents(p.e.slots, FindSlot(p.e.slots, ref.nodeId, ref.blockId), nde, blk);
    } else if IsQuarter(q) {
      assert UpdateOutcome(e, u, f, buf) == RemoteUpdateOutcome(p.e, u, ref, q, buf);
      RemoteUpdateKeepsSlots(p.e, u, ref, q, buf);
    }
  }

  lemma RemoteUpdateKeepsSlots(e: Endpoint, u: Unknowns, ref: BlockRef, q: nat, buf: Block)
    ensures RemoteUpdateOutcome(e, u, ref, q, buf).e.slots == e.slots
  {
  }

  /**
   * A successful remote update sent two packets, an Obtain of the block and then an Update
   * carrying that block with the caller's bytes patched in at the quarter; the caller's
   * buffer ends up holding the Update reply's payload.
   */
  lemma RemoteUpdateDoneEffects(e: Endpoint, u: Unknowns, ref: BlockRef, q: nat, buf: Block)
    ensures var o := RemoteUpdateOutcome(e, u, ref, q, buf);
      o.st == Done ==>
        && |o.e.sent| == |e.sent| + 2 && o.e.sent[..|e.sent|] == e.sent
        && o.e.replies == Rest(Rest(e.replies))
        && o.e.localSeqno == NextSeq(NextSeq(e.localSeqno))
        && Response(e.replies).Some? && Response(Rest(e.replies)).Some?
        && var d1 := Response(e.replies).value;
        && var d2 := Response(Rest(e.replies)).value;
        && var h1 := ObtainRequest(e.localNodeId, ref, e.localSeqno, NextSeq(LastRseq(e.records, ref.nodeId)));
        && Serialize(h1, None).Packet?
        && o.e.sent[|e.sent|] == Serialize(h1, None).bytes
        && d1.status == PacketOk
        && var rseq := NextSeq(LastRseq(Recorded(e.records, d1.header.rem, d1.header.rseq), ref.nodeId));
        && var h2 := UpdateRequest(e.localNodeId, ref, NextSeq(e.localSeqno), rseq);
        && Serialize(h2, Some(PatchQuarter(d1.data.value, q, buf))).Packet?
        && o.e.sent[|e.sent| + 1] == Serialize(h2, Some(PatchQuarter(d1.data.value, q, buf))).bytes
        && d2.status == PacketOk && d2.header.loc != u.node
        && o.out == d2.data.value
        && o.e.records == Recorded(Recorded(e.records, d1.header.rem, d1.header.rseq), d2.header.rem, d2.header.rseq)
        && o.e.localNodeId == d2.header.rem
  {
  }

  /**
   * On a probe hit sgOblock and sgUblock both serve the quarter from the cache: nothing is
   * posted, the sequence table, local id and sequence numbers are unchanged, two lookups
   * are counted as misses, and a cached block yields its quarter.
   */
  lemma ProbeHitServesFromCache(e: Endpoint, u: Unknowns, f: FileDesc, buf: Block)
    requires |e.slots| == CACHE_SIZE && ProbeHits(e.slots, TargetBlock(f))
    ensures ObtainOutcome(e, u, f, buf) == UpdateOutcome(e, u, f, buf)
    ensures var o := ObtainOutcome(e, u, f, buf);
      && o.e == o.e.(sent := e.sent, replies := e.replies, records := e.records, localNodeId := e.localNodeId,
                     localSeqno := e.localSeqno, remote := e.remote)
      && o.e.miss == e.miss + 2
    ensures var ref := TargetBlock(f); var o := ObtainOutcome(e, u, f, buf);
      Lookup(e.slots, ref.nodeId, ref.blockId).Some? ==>
        o.st == Done && o.out == CopyQuarterOut(Lookup(e.slots, ref.nodeId, ref.blockId).value, QuarterOffset(f.pos), buf)
  {
    var ref := TargetBlock(f);
    var s0 := e.slots;
    TouchedKeepsContents(s0, FindSlot(s0, ref.nodeId, ProbeKey(ref)), ref.nodeId, ref.blockId);
  }

  /**
   * On a probe miss sgOblock posts one Obtain, consuming one local sequence number. When
   * the request serializes and the reply decodes cleanly, the quarter comes from the
   * reply's block, the reply's number is recorded and that very block is cached under the
   * file's key (after the probe's touch), and only then does a reply naming the unknown local node fail the call. On every
   * other path the call fails with the buffer, sequence table and cache buffers unchanged.
   */
  lemma ObtainMissFetches(e: Endpoint, u: Unknowns, f: FileDesc, buf: Block)
    requires |e.slots| == CACHE_SIZE && !ProbeHits(e.slots, TargetBlock(f))
    ensures var o := ObtainOutcome(e, u, f, buf);
      && o.st != NullBlock
      && o.e.localSeqno == NextSeq(e.localSeqno)
    ensures var ref := TargetBlock(f); var o := ObtainOutcome(e, u, f, buf);
      var h := ObtainRequest(e.localNodeId, ref, e.localSeqno, NextSeq(LastRseq(e.records, ref.nodeId)));
      var r := Response(e.replies);
      if Serialize(h, None).Packet? && r.Some? && r.value.status == PacketOk then
        && o.e.sent == e.sent + [Serialize(h, None).bytes]
        && o.out == CopyQuarterOut(r.value.data.value, QuarterOffset(f.pos), buf)
        && o.e.records == Recorded(e.records, r.value.header.rem, r.value.header.rseq)
        && o.e.slots == Inserted(Touched(e.slots, FindSlot(e.slots, ref.nodeId, ProbeKey(ref))),
                                 ref.nodeId, ref.blockId, r.value.data.value)
        && FindSlot(o.e.slots, ref.nodeId, ref.blockId).Some?
        && (o.st == Done <==> r.value.header.loc != u.node)
      else
        && o.st == Failed && o.out == buf && o.e.records == e.records
        && forall i :: 0 <= i < |e.slots| ==> o.e.slots[i].buf == e.slots[i].buf
  {
    var ref := TargetBlock(f);
    var p := CacheGet(e, ref.nodeId, ProbeKey(ref));
    assert ObtainOutcome(e, u, f, buf) == FetchOutcome(p.e, u, ref, QuarterOffset(f.pos), buf);
    var o := ObtainSent(p.e, ref);
    if o.resp.Some? && o.resp.value.status == PacketOk {
      LookupAfterInsert(o.e.slots, ref.nodeId, ref.blockId, o.resp.value.data.value);
    }
  }

  /** Endpoint `e'` follows `e` after at most `n` posts, each of which consumed one reply. */
  predicate Posted(e: Endpoint, e': Endpoint, n: nat)
  {
    && e.sent <= e'.sent
    && |e'.sent| <= |e.sent| + n
    && e'.replies == Drop(e.replies, |e'.sent| - |e.sent|)
  }

  lemma {:induction false} DropDrop(rs: seq<Reply>, i: nat, j: nat)
    ensures Drop(Drop(rs, i), j) == Drop(rs, i + j)
  {
    if i > 0 {
      DropDrop(Rest(rs), i - 1, j);
    }
  }

  /** Posts compose: up to `m` and then up to `n` more is up to `m + n`. */
  lemma PostedThen(a: Endpoint, b: Endpoint, c: Endpoint, m: nat, n: nat)
    requires Posted(a, b, m) && Posted(b, c, n)
    ensures Posted(a, c, m + n)
  {
    DropDrop(a.replies, |b.sent| - |a.sent|, |c.sent| - |b.sent|);
  }

  /** One post logs at most one packet and consumes the reply it reads. */
  lemma PostPosts(e: Endpoint, h: Header, payload: Option<Block>)
    ensures Posted(e, Post(e, h, payload).e, 1)
  {
    assert Drop(e.replies, 1) == Rest(e.replies);
  }

  /**
   * The transport log only grows, and every packet logged consumed exactly one reply:
   * sgOblock posts at most once, sgwrite's block operation at most twice.
   */
  lemma TransportLog(e: Endpoint, u: Unknowns, f: FileDesc, buf: Block)
    requires |e.slots| == CACHE_SIZE
    ensures Posted(e, ObtainOutcome(e, u, f, buf).e, 1)
    ensures Posted(e, WriteOutcome(e, u, f, buf).e, 2)
  {
    ObtainPostsOnce(e, u, f, buf);
    UpdatePostsTwice(e, u, f, buf);
    CreatePosts(e, u, buf);
    PostedWeaken(e, CreateOutcome(e, u, buf).e, 1, 2);
  }

  lemma PostedWeaken(a: Endpoint, b: Endpoint, m: nat, n: nat)
    requires Posted(a, b, m) && m <= n
    ensures Posted(a, b, n)
  {
  }

  lemma ObtainPostsOnce(e: Endpoint, u: Unknowns, f: FileDesc, buf: Block)
    requires |e.slots| == CACHE_SIZE
    ensures Posted(e, ObtainOutcome(e, u, f, buf).e, 1)
  {
    var ref := TargetBlock(f);
    var q := QuarterOffset(f.pos);
    var p := CacheGet(e, ref.nodeId, ProbeKey(ref));
    assert Posted(e, p.e, 0);
    ProbePosts(p.e, ref, q, buf, u);
    if p.block.Some? {
      assert ObtainOutcome(e, u, f, buf) == CachedQuarterOutcome(p.e, ref, q, buf);
      PostedThen(e, p.e, CachedQuarterOutcome(p.e, ref, q, buf).e, 0, 0);
    } else {
      assert ObtainOutcome(e, u, f, buf) == FetchOutcome(p.e, u, ref, q, buf);
      PostedThen(e, p.e, FetchOutcome(p.e, u, ref, q, buf).e, 0, 1);
    }
  }

  lemma UpdatePostsTwice(e: Endpoint, u: Unknowns, f: FileDesc, buf: Block)
    requires |e.slots| == CACHE_SIZE
    ensures Posted(e, UpdateOutcome(e, u, f, buf).e, 2)
  {
    var ref := TargetBlock(f);
    var q := QuarterOffset(f.pos);
    var p := CacheGet(e, ref.nodeId, ProbeKey(ref));
    assert Posted(e, p.e, 0);
    ProbePosts(p.e, ref, q, buf, u);
    if p.block.Some? {
      assert UpdateOutcome(e, u, f, buf) == CachedQuarterOutcome(p.e, ref, q, buf);
      PostedThen(e, p.e, CachedQuarterOutcome(p.e, ref, q, buf).e, 0, 0);
    } else if IsQuarter(q) {
      assert UpdateOutcome(e, u, f, buf) == RemoteUpdateOutcome(p.e, u, ref, q, buf);
      PostedThen(e, p.e, RemoteUpdateOutcome(p.e, u, ref, q, buf).e, 0, 2);
    }
  }

  /** The three continuations of the cache probe. */
  lemma ProbePosts(e: Endpoint, ref: BlockRef, q: nat, buf: Block, u: Unknowns)
    requires |e.slots| == CACHE_SIZE
    ensures Posted(e, CachedQuarterOutcome(e, ref, q, buf).e, 0)
    ensures Posted(e, FetchOutcome(e, u, ref, q, buf).e, 1)
    ensures Posted(e, RemoteUpdateOutcome(e, u, ref, q, buf).e, 2)
  {
    var o := ObtainSent(e, ref);
    ObtainPosts(e, ref);
    FetchReplyPostsNothing(o, u, ref, q, buf);
    PostedThen(e, o.e, FetchReply(o, u, ref, q, buf).e, 1, 0);
    FirstReplyPosts(o, u, ref, q, buf);
    PostedThen(e, o.e, UpdateFirstReply(o, u, ref, q, buf).e, 1, 1);
  }

  lemma ObtainPosts(e: Endpoint, ref: BlockRef)
    ensures Posted(e, ObtainSent(e, ref).e, 1)
  {
    var remote := NextSeq(LastRseq(e.records, ref.nodeId));
    var e0 := e.(remote := remote, localSeqno := NextSeq(e.localSeqno));
    PostPosts(e0, ObtainRequest(e.localNodeId, ref, e.localSeqno, remote), None);
    assert Posted(e, e0, 0);
    PostedThen(e, e0, ObtainSent(e, ref).e, 0, 1);
  }

  lemma FetchReplyPostsNothing(o: Sent, u: Unknowns, ref: BlockRef, q: nat, buf: Block)
    requires |o.e.slots| == CACHE_SIZE && Decoded(o)
    ensures Posted(o.e, FetchReply(o, u, ref, q, buf).e, 0)
  {
  }

  lemma FirstReplyPosts(o1: Sent, u: Unknowns, ref: BlockRef, q: nat, buf: Block)
    requires Decoded(o1)
    ensures Posted(o1.e, UpdateFirstReply(o1, u, ref, q, buf).e, 1)
  {
    if o1.resp.Some? && o1.resp.value.status == PacketOk {
      var d1 := o1.resp.value;
      var e1 := Record(o1.e, d1.header.rem, d1.header.rseq);
      var rseq := NextSeq(LastRseq(e1.records, ref.nodeId));
      var e2 := e1.(remote := if q == 0 then NextSeq(rseq) else rseq, localSeqno := NextSeq(e1.localSeqno));
      var h := UpdateRequest(e1.localNodeId, ref, e1.localSeqno, rseq);
      var pl := Some(PatchQuarter(d1.data.value, q, buf));
      var o2 := Post(e2, h, pl);
      PostPosts(e2, h, pl);
      SecondReplyPostsNothing(o2, u, buf);
      PostedThen(e2, o2.e, UpdateSecondReply(o2, u, buf).e, 1, 0);
      assert Posted(o1.e, e2, 0);
      PostedThen(o1.e, e2, UpdateSecondReply(o2, u, buf).e, 0, 1);
    }
  }

  lemma SecondReplyPostsNothing(o2: Sent, u: Unknowns, buf: Block)
    requires Decoded(o2)
    ensures Posted(o2.e, UpdateSecondReply(o2, u, buf).e, 0)
  {
  }

  lemma CreatePosts(e: Endpoint, u: Unknowns, buf: Block)
    requires |e.slots| == CACHE_SIZE
    ensures Posted(e, CreateOutcome(e, u, buf).e, 1)
  {
    var e0 := e.(localSeqno := NextSeq(e.localSeqno));
    var o := Post(e0, CreateRequest(u, e.localNodeId, e.localSeqno), Some(buf));
    PostPosts(e0, CreateRequest(u, e.localNodeId, e.localSeqno), Some(buf));
    CreateReplyPostsNothing(o, u, buf);
    assert Posted(e, e0, 0);
    PostedThen(e, e0, o.e, 0, 1);
    PostedThen(e, o.e, CreateReply(o, u, buf).e, 1, 0);
  }

  lemma CreateReplyPostsNothing(o: Sent, u: Unknowns, buf: Block)
    requires |o.e.slots| == CACHE_SIZE && Decoded(o)
    ensures Posted(o.e, CreateReply(o, u, buf).e, 0)
  {
  }

  class Driver {
    var files: seq<FileDesc>
    var fileCount: nat
    const cache: BlockCache
    const seqs: SequenceTable
    /** The header's sentinel values, fixed for the run. */
    const unknown: Unknowns
    var localNodeId: uint64
    var localSeqno: uint16
    var remote: uint16
    var replies: seq<Reply>
    var sent: seq<seq<byte>>

    ghost predicate Valid()
      reads this, cache, cache.slots
    {
      FileTable(files, fileCount) && cache.Valid()
    }

    /** The endpoint state as a value. */
    ghost function Snapshot(): Endpoint
      reads this, cache, cache.slots, seqs
    {
      Endpoint(sent, replies, seqs.records, cache.slots[..], cache.hit, cache.miss,
               localNodeId, localSeqno, remote)
    }

    /**
     * Process start plus the first sgopen's initialisation: zero-filled tables,
     * initSGCache(32), and the endpoint handshake's outcome (`nodeId`, `seqno`) as inputs.
     */
    constructor(u: Unknowns, nodeId: uint64, seqno: uint16, script: seq<Reply>)
      ensures Valid() && fresh(cache) && fresh(cache.slots) && fresh(seqs)
      ensures files == seq(MAX_FILES, _ => UNUSED_FILE) && fileCount == 0
      ensures unknown == u
      ensures Snapshot() == Endpoint([], script, [], seq(CACHE_SIZE, _ => EMPTY_SLOT), 0, 0, nodeId, seqno, INITIAL_SEQNO)
    {
      files := seq(MAX_FILES, _ => UNUSED_FILE);
      fileCount := 0;
      cache := new BlockCache();
      seqs := new SequenceTable();
      unknown := u;
      localNodeId, localSeqno, remote := nodeId, seqno, INITIAL_SEQNO;
      replies, sent := script, [];
      new;
      var _ := cache.Init(32);
      assert cache.slots[..] == seq(CACHE_SIZE, _ => EMPTY_SLOT);
    }

    /** sgopen's handle allocation: the next table entry becomes an open, empty file. */
    method Open() returns (fh: int)
      requires Valid() && fileCount < MAX_FILES
      modifies this`files, this`fileCount
      ensures Valid()
      ensures fh == old(fileCount) && fileCount == old(fileCount) + 1
      ensures files == old(files)[fh := FileDesc(fh, true, [], 0, 0)]
    {
      fh := fileCount;
      files := files[fh := FileDesc(fh, true, [], 0, 0)];
      fileCount := fileCount + 1;
    }

    /** searchFh over the table's valid indices. */
    method SearchFh(fh: int) returns (found: bool)
      ensures found == Found(files, fh)
    {
      var tmpcount := 0;
      while tmpcount < |files|
        invariant 0 <= tmpcount <= |files|
        invariant forall i :: 0 <= i < tmpcount ==> files[i].fhandle != fh
      {
        if files[tmpcount].fhandle == fh {
          return true;
        }
        tmpcount := tmpcount + 1;
      }
      return false;
    }

    /** Serialize, post, and deserialize the reply into a data buffer; None when either of the first two fails. */
    method Exchange(h: Header, payload: Option<Block>) returns (resp: Option<Unpacked>)
      modifies this`sent, this`replies
      ensures Sent(resp, Snapshot()) == Post(old(Snapshot()), h, payload)
    {
      var pkt := Serialize(h, payload);
      if pkt.Rejected? {
        return None;
      }
      sent := sent + [pkt.bytes];
      var frame := NextFrame(replies);
      replies := Rest(replies);
      if frame.None? {
        return None;
      }
      return Some(Deserialize(frame.value, true));
    }

    /** getSGDataBlock, seen as a step on the endpoint state. */
    method CacheLookup(nde: uint64, blk: uint64) returns (r: Option<Block>)
      requires cache.Valid()
      modifies cache, cache.slots
      ensures cache.Valid()
      ensures Probe(r, Snapshot()) == CacheGet(old(Snapshot()), nde, blk)
    {
      r := cache.Get(nde, blk);
    }

    /** putSGDataBlock, seen as a step on the endpoint state. */
    method CacheStore(nde: uint64, blk: uint64, b: Block)
      requires cache.Valid()
      modifies cache, cache.slots
      ensures cache.Valid() && |old(Snapshot()).slots| == CACHE_SIZE
      ensures Snapshot() == CachePut(old(Snapshot()), nde, blk, b)
    {
      var _ := cache.Put(nde, blk, b);
    }

    /** updateRseq, seen as a step on the endpoint state. */
    method Remember(nid: uint64, s: uint16)
      modifies seqs
      ensures Snapshot() == Record(old(Snapshot()), nid, s)
    {
      seqs.UpdateRseq(nid, s);
    }

    /** The hit branch's second lookup, by the real block id, and the copy of the addressed quarter out of it. */
    method CachedQuarter(ref: BlockRef, q: nat, buf: Block) returns (st: OpStatus, out: Block)
      requires cache.Valid()
      modifies cache, cache.slots
      ensures cache.Valid()
      ensures Outcome(st, out, Snapshot(), None) == CachedQuarterOutcome(old(Snapshot()), ref, q, buf)
    {
      var tmp := CacheLookup(ref.nodeId, ref.blockId);
      if tmp.Some? {
        return Done, CopyQuarterOut(tmp.value, q, buf);
      } else if IsQuarter(q) {
        return NullBlock, buf;
      }
      return Done, buf;
    }

    /** `remote = getLastRseq(node) + 1`, then an Obtain of the block sent with the next local sequence number. */
    method Obtain(ref: BlockRef) returns (resp: Option<Unpacked>)
      modifies this`remote, this`localSeqno, this`sent, this`replies
      ensures Sent(resp, Snapshot()) == ObtainSent(old(Snapshot()), ref)
    {
      var last := seqs.GetLastRseq(ref.nodeId);
      remote := NextSeq(last);
      var sseq := localSeqno;
      localSeqno := NextSeq(localSeqno);
      resp := Exchange(ObtainRequest(localNodeId, ref, sseq, remote), None);
    }

    /** sgOblock's miss branch: obtain the block, copy the quarter out, cache the block, check the reply's local id. */
    method FetchQuarter(ref: BlockRef, q: nat, buf: Block) returns (st: OpStatus, out: Block)
      requires cache.Valid()
      modifies this, cache, cache.slots, seqs
      ensures cache.Valid() && files == old(files) && fileCount == old(fileCount)
      ensures Outcome(st, out, Snapshot(), None) == FetchOutcome(old(Snapshot()), unknown, ref, q, buf)
    {
      var resp := Obtain(ref);
      ghost var o := Sent(resp, Snapshot());
      if resp.None? || resp.value.status != PacketOk {
        return Failed, buf;
      }
      var d := resp.value;
      Remember(d.header.rem, d.header.rseq);
      out := CopyQuarterOut(d.data.value, q, buf);
      CacheStore(ref.nodeId, ref.blockId, d.data.value);
      assert Snapshot() == CachePut(Record(o.e, d.header.rem, d.header.rseq), ref.nodeId, ref.blockId, d.data.value);
      if d.header.loc == unknown.node {
        return Failed, out;
      }
      localNodeId := d.header.rem;
      return Done, out;
    }

    /** sgOblock: fill the caller's buffer with the addressed quarter, from the cache or by an Obtain. */
    method ObtainBlock(fh: nat, buf: Block) returns (st: OpStatus, out: Block)
      requires Valid() && fh < |files|
      modifies this, cache, cache.slots, seqs
      ensures Valid()
      ensures files == old(files) && fileCount == old(fileCount)
      ensures Outcome(st, out, Snapshot(), None) == ObtainOutcome(old(Snapshot()), unknown, old(files[fh]), buf)
    {
      var f := files[fh];
      var ref := BlockAt(f, BlockIndex(f.pos));
      var q := QuarterOffset(f.pos);
      ghost var e0 := Snapshot();
      var probe := CacheLookup(ref.nodeId, ProbeKey(ref));
      assert Probe(probe, Snapshot()) == CacheGet(e0, ref.nodeId, ProbeKey(ref));
      if probe.Some? {
        st, out := CachedQuarter(ref, q, buf);
      } else {
        st, out := FetchQuarter(ref, q, buf);
      }
    }

    /**
     * sgUblock's miss branch at a quarter offset: obtain the block, patch the caller's first
     * 256 bytes in at the quarter, and send the whole block back in an Update whose reply
     * payload overwrites the caller's buffer. The receiver number is post-incremented only at
     * offset 0.
     */
    method RemoteUpdate(ref: BlockRef, q: nat, buf: Block) returns (st: OpStatus, out: Block)
      modifies this`remote, this`localSeqno, this`sent, this`replies, this`localNodeId, seqs
      ensures Outcome(st, out, Snapshot(), None) == RemoteUpdateOutcome(old(Snapshot()), unknown, ref, q, buf)
    {
      var r1 := Obtain(ref);
      if r1.None? || r1.value.status != PacketOk {
        return Failed, buf;
      }
      Remember(r1.value.header.rem, r1.value.header.rseq);
      var tmp := PatchQuarter(r1.value.data.value, q, buf);
      var last := seqs.GetLastRseq(ref.nodeId);
      remote := NextSeq(last);
      var rseq := remote;
      if q == 0 {
        remote := NextSeq(remote);
      }
      var sseq := localSeqno;
      localSeqno := NextSeq(localSeqno);
      var r2 := Exchange(UpdateRequest(localNodeId, ref, sseq, rseq), Some(tmp));
      if r2.None? {
        return Failed, buf;
      }
      out := r2.value.data.value;
      if r2.value.status != PacketOk {
        return Failed, out;
      }
      Remember(r2.value.header.rem, r2.value.header.rseq);
      if r2.value.header.loc == unknown.node {
        return Failed, out;
      }
      localNodeId := r2.value.header.rem;
      return Done, out;
    }

    /**
     * sgUblock. On a probe hit the addressed quarter is copied from the cache into the
     * caller's buffer and nothing is sent. On a miss at a quarter offset the block is
     * updated remotely; the cache is not written. At any other offset nothing is sent.
     */
    method UpdateBlock(fh: nat, buf: Block) returns (st: OpStatus, out: Block)
      requires Valid() && fh < |files|
      modifies this, cache, cache.slots, seqs
      ensures Valid()
      ensures files == old(files) && fileCount == old(fileCount)
      ensures Outcome(st, out, Snapshot(), None) == UpdateOutcome(old(Snapshot()), unknown, old(files[fh]), buf)
    {
      var f := files[fh];
      var ref := BlockAt(f, BlockIndex(f.pos));
      var q := QuarterOffset(f.pos);
      ghost var e0 := Snapshot();
      var probe := CacheLookup(ref.nodeId, ProbeKey(ref));
      assert Probe(probe, Snapshot()) == CacheGet(e0, ref.nodeId, ProbeKey(ref));
      if probe.Some? {
        st, out := CachedQuarter(ref, q, buf);
      } else if IsQuarter(q) {
        st, out := RemoteUpdate(ref, q, buf);
      } else {
        st, out := Done, buf;
      }
    }

    /**
     * sgCblock: send the caller's buffer in a Create; the reply's payload overwrites the
     * buffer, is cached under the reply's (node, block), and that pair is appended to the file.
     */
    method CreateBlock(fh: nat, buf: Block) returns (st: OpStatus, out: Block)
      requires Valid() && fh < |files|
      modifies this, cache, cache.slots, seqs
      ensures Valid() && fileCount == old(fileCount)
      ensures var o := CreateOutcome(old(Snapshot()), unknown, buf);
        && st == o.st && out == o.out && Snapshot() == o.e
        && files == old(files)[fh := WithBlock(old(files[fh]), o.added)]
    {
      var sseq := localSeqno;
      localSeqno := NextSeq(localSeqno);
      var r := Exchange(CreateRequest(unknown, localNodeId, sseq), Some(buf));
      if r.None? {
        return Failed, buf;
      }
      out := r.value.data.value;
      if r.value.status != PacketOk {
        return Failed, out;
      }
      st := AdoptCreated(fh, r.value.header, out);
    }

    /**
     * The rest of sgCblock once the reply decoded cleanly: record the remote number, check
     * the local id, then cache the block, adopt the new local id and extend the file.
     */
    method AdoptCreated(fh: nat, d: Header, block: Block) returns (st: OpStatus)
      requires Valid() && fh < |files|
      modifies this`remote, this`localNodeId, this`files, cache, cache.slots, seqs
      ensures Valid() && fileCount == old(fileCount)
      ensures var o := AdoptOutcome(old(Snapshot()), unknown, d, block);
        && st == o.st && Snapshot() == o.e
        && files == old(files)[fh := WithBlock(old(files[fh]), o.added)]
    {
      Remember(d.rem, d.rseq);
      remote := seqs.GetLastRseq(d.rem);
      if d.loc == unknown.node {
        return Failed;
      }
      CacheStore(d.rem, d.blk, block);
      localNodeId := d.rem;
      AppendBlock(fh, BlockRef(d.blk, d.rem));
      return Done;
    }

    /** Record a newly created block at the end of a file's block list. */
    method AppendBlock(fh: nat, r: BlockRef)
      requires FileTable(files, fileCount) && fh < |files|
      modifies this`files
      ensures FileTable(files, fileCount)
      ensures files == old(files)[fh := old(files[fh]).(blocks := old(files[fh].blocks) + [r])]
    {
      files := files[fh := files[fh].(blocks := files[fh].blocks + [r])];
    }

    /**
     * sgread: -1 for an unknown handle, a closed file or a position at the end; otherwise
     * obtain the addressed quarter into the buffer and advance the position by `len`,
     * whatever the block operation reported.
     */
    method Read(fh: int, buf: Block, len: nat) returns (n: int, out: Block)
      requires Valid()
      modifies this, cache, cache.slots, seqs
      ensures Valid() && fileCount == old(fileCount)
      ensures n == -1 <==> !(0 <= fh < MAX_FILES && Found(old(files), fh) && old(files[fh]).open
                             && old(files[fh]).pos != old(files[fh]).size)
      ensures n == -1 ==> out == buf && files == old(files) && Snapshot() == old(Snapshot())
      ensures n != -1 ==>
        && 0 <= fh < MAX_FILES && n == len
        && var o := ObtainOutcome(old(Snapshot()), unknown, old(files[fh]), buf);
        && out == o.out && Snapshot() == o.e
        && files == old(files)[fh := old(files[fh]).(pos := old(files[fh]).pos + len)]
    {
      var found := SearchFh(fh);
      FoundHandles(files, fileCount, fh);
      if !found || !files[fh].open || files[fh].pos == files[fh].size {
        return -1, buf;
      }
      var st: OpStatus;
      st, out := ObtainBlock(fh, buf);
      files := files[fh := files[fh].(pos := files[fh].pos + len)];
      return len, out;
    }

    /**
     * sgwrite: -1 for an unknown handle or a closed file; otherwise create a block when
     * writing at the end on a block boundary and update one otherwise, then grow both size
     * and position by `len` whatever the block operation reported.
     */
    method Write(fh: int, buf: Block, len: nat) returns (n: int, out: Block)
      requires Valid()
      modifies this, cache, cache.slots, seqs
      ensures Valid() && fileCount == old(fileCount)
      ensures n == -1 <==> !(0 <= fh < MAX_FILES && Found(old(files), fh) && old(files[fh]).open)
      ensures n == -1 ==> out == buf && files == old(files) && Snapshot() == old(Snapshot())
      ensures n != -1 ==>
        && 0 <= fh < MAX_FILES && n == len
        && var o := WriteOutcome(old(Snapshot()), unknown, old(files[fh]), buf);
        && out == o.out && Snapshot() == o.e
        && files == old(files)[fh := WithBlock(old(files[fh]), o.added).(size := old(files[fh]).size + len,
                                                                          pos := old(files[fh]).pos + len)]
    {
      var found := SearchFh(fh);
      FoundHandles(files, fileCount, fh);
      if !found || !files[fh].open {
        return -1, buf;
      }
      var st: OpStatus;
      st, out := WriteBlock(fh, buf);
      files := files[fh := files[fh].(size := files[fh].size + len, pos := files[fh].pos + len)];
      return len, out;
    }

    /** sgwrite's choice of block operation: sgCblock at the end of the file on a block boundary, sgUblock otherwise. */
    method WriteBlock(fh: nat, buf: Block) returns (st: OpStatus, out: Block)
      requires Valid() && fh < |files|
      modifies this, cache, cache.slots, seqs
      ensures Valid() && fileCount == old(fileCount)
      ensures var o := WriteOutcome(old(Snapshot()), unknown, old(files[fh]), buf);
        && st == o.st && out == o.out && Snapshot() == o.e
        && files == old(files)[fh := WithBlock(old(files[fh]), o.added)]
    {
      if files[fh].pos == files[fh].size && files[fh].pos % BLOCK_SIZE == 0 {
        st, out := CreateBlock(fh, buf);
      } else {
        st, out := UpdateBlock(fh, buf);
      }
    }

    /** sgseek: -1 for an unknown handle or a closed file; otherwise `off`, moving there only when it is within the file. */
    method Seek(fh: int, off: nat) returns (r: int)
      requires Valid()
      modifies this`files
      ensures Valid()
      ensures r == -1 <==> !(0 <= fh < MAX_FILES && Found(old(files), fh) && old(files[fh]).open)
      ensures r == -1 ==> files == old(files)
      ensures r != -1 ==>
        && 0 <= fh < MAX_FILES && r == off
        && files == if off <= old(files[fh]).size then old(files)[fh := old(files[fh]).(pos := off)] else old(files)
    {
      var found := SearchFh(fh);
      FoundHandles(files, fileCount, fh);
      if !found || !files[fh].open {
        return -1;
      }
      if off <= files[fh].size {
        files := files[fh := files[fh].(pos := off)];
      }
      return off;
    }

    /** sgclose: -1 for an unknown handle or a closed file; otherwise rewind and mark closed. */
    method Close(fh: int) returns (r: int)
      requires Valid()
      modifies this`files
      ensures Valid()
      ensures r == -1 <==> !(0 <= fh < MAX_FILES && Found(old(files), fh) && old(files[fh]).open)
      ensures r == -1 ==> files == old(files)
      ensures r == 0 ==> 0 <= fh < MAX_FILES && files == old(files)[fh := old(files[fh]).(pos := 0, open := false)]
      ensures r == -1 || r == 0
    {
      var found := SearchFh(fh);
      FoundHandles(files, fileCount, fh);
      if !found || !files[fh].open {
        return -1;
      }
      files := files[fh := files[fh].(pos := 0, open := false)];
      return 0;
    }
  }
}
