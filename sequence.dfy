/**
 * The remote-sequence table of the driver (updateRseq / getLastRseq): one record per
 * remote node ever answered, appended on first contact and overwritten afterwards.
 */
module Sequence {
  import opened Types

  /** SG_INITIAL_SEQNO: the value a record starts with. */
  const INITIAL_SEQNO: uint16 := 1

  datatype NodeRecord = NodeRecord(nodeId: uint64, rseq: uint16)

  /** Index of the first record for `nid`, if any. */
  function FindNode(records: seq<NodeRecord>, nid: uint64): (k: Option<nat>)
    ensures k.Some? ==> k.value < |records| && records[k.value].nodeId == nid
    ensures k.Some? ==> forall i :: 0 <= i < k.value ==> records[i].nodeId != nid
    ensures k.None? ==> forall i :: 0 <= i < |records| ==> records[i].nodeId != nid
  {
    if |records| == 0 then None
    else if records[0].nodeId == nid then Some(0)
    else match FindNode(records[1..], nid)
      case Some(k) => Some(k + 1)
      case None => None
  }

  /** What getLastRseq returns: the first matching record's number, or 0 for an unknown node. */
  function LastRseq(records: seq<NodeRecord>, nid: uint64): uint16
  {
    match FindNode(records, nid)
    case Some(k) => records[k].rseq
    case None => 0
  }

  /** The table after updateRseq(nid, s). */
  function Recorded(records: seq<NodeRecord>, nid: uint64, s: uint16): seq<NodeRecord>
  {
    match FindNode(records, nid)
    case Some(k) => records[k := records[k].(rseq := s)]
    case None => records + [NodeRecord(nid, INITIAL_SEQNO)]
  }

  /** `getLastRseq(n) + 1` stored into a 16-bit SG_SeqNum. */
  function NextSeq(s: uint16): (r: uint16)
    ensures s < 0xffff ==> r == s + 1
    ensures s == 0xffff ==> r == 0
  {
    (s + 1) % 0x1_0000
  }

  /** A known node reads back the number just recorded; a new node reads back SG_INITIAL_SEQNO, not `s`. */
  lemma RecordedThenLast(records: seq<NodeRecord>, nid: uint64, s: uint16)
    ensures LastRseq(Recorded(records, nid, s), nid) == if FindNode(records, nid).Some? then s else INITIAL_SEQNO
  {
    var r' := Recorded(records, nid, s);
    match FindNode(records, nid)
    case Some(k) =>
      assert r'[k].nodeId == nid;
      assert FindNode(r', nid) == Some(k) by {
        var j := FindNode(r', nid);
        assert j.Some? && j.value <= k;
      }
    case None =>
      assert r'[|records|].nodeId == nid;
      assert FindNode(r', nid) == Some(|records|) by {
        var j := FindNode(r', nid);
        assert j.Some? && j.value <= |records|;
      }
  }

  /** Recording for `nid` changes nothing another node reads back. */
  lemma RecordedKeepsOthers(records: seq<NodeRecord>, nid: uint64, s: uint16, other: uint64)
    requires other != nid
    ensures LastRseq(Recorded(records, nid, s), other) == LastRseq(records, other)
  {
    var r' := Recorded(records, nid, s);
    assert forall i :: 0 <= i < |records| ==> r'[i].nodeId == records[i].nodeId;
    assert forall i :: 0 <= i < |records| && records[i].nodeId == other ==> r'[i] == records[i];
    match FindNode(records, other)
    case Some(k) =>
      assert FindNode(r', other) == Some(k) by {
        var j := FindNode(r', other);
        assert j.Some? && j.value <= k;
      }
    case None =>
      assert FindNode(r', other).None?;
  }

  /** The table grows by one record exactly on first contact, and only by appending. */
  lemma RecordedGrowth(records: seq<NodeRecord>, nid: uint64, s: uint16)
    ensures var r' := Recorded(records, nid, s);
      && |r'| == |records| + (if FindNode(records, nid).Some? then 0 else 1)
      && forall i :: 0 <= i < |records| ==> r'[i].nodeId == records[i].nodeId
  {
  }

  /** The process-wide nArray / nodecount pair. */
  class SequenceTable {
    var records: seq<NodeRecord>

    constructor()
      ensures records == []
    {
      records := [];
    }

    /** updateRseq: overwrite the first record for `nid`, or append (nid, SG_INITIAL_SEQNO). */
    method UpdateRseq(nid: uint64, s: uint16)
      modifies this
      ensures records == Recorded(old(records), nid, s)
    {
      var x := 0;
      while x < |records|
        invariant 0 <= x <= |records|
        invariant records == old(records)
        invariant forall i :: 0 <= i < x ==> records[i].nodeId != nid
      {
        if records[x].nodeId == nid {
          assert FindNode(records, nid) == Some(x);
          records := records[x := records[x].(rseq := s)];
          return;
        }
        x := x + 1;
      }
      records := records + [NodeRecord(nid, INITIAL_SEQNO)];
    }

    /** getLastRseq. */
    method GetLastRseq(nid: uint64) returns (s: uint16)
      ensures s == LastRseq(records, nid)
    {
      var x := 0;
      while x < |records|
        invariant 0 <= x <= |records|
        invariant forall i :: 0 <= i < x ==> records[i].nodeId != nid
      {
        if records[x].nodeId == nid {
          assert FindNode(records, nid) == Some(x);
          return records[x].rseq;
        }
        x := x + 1;
      }
      return 0;
    }
  }
}
