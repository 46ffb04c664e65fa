/**
 * The block cache (sg_cache.c): a fixed array of 128 slots keyed by (node, block), with a
 * per-slot aging timer and the process-wide hit/miss counters.
 */
module Cache {
  import opened Types

  /** SG_MAX_CACHE_ELEMENTS, the size of the slot array. */
  const CACHE_SIZE: nat := 128

  /** One `struct datacache`; `buf` is None for the NULL pointer of an unused slot. */
  datatype Slot = Slot(nodeId: uint64, blockId: uint64, buf: Option<Block>, timer: int)

  const EMPTY_SLOT: Slot := Slot(0, 0, None, 0)

  predicate Holds(sl: Slot, nde: uint64, blk: uint64)
  {
    sl.blockId == blk && sl.nodeId == nde
  }

  /** The lowest slot holding (nde, blk), if any. */
  function FindSlot(s: seq<Slot>, nde: uint64, blk: uint64): (k: Option<nat>)
    ensures k.Some? ==> k.value < |s| && Holds(s[k.value], nde, blk)
    ensures k.Some? ==> forall i :: 0 <= i < k.value ==> !Holds(s[i], nde, blk)
    ensures k.None? ==> forall i :: 0 <= i < |s| ==> !Holds(s[i], nde, blk)
  {
    if |s| == 0 then None
    else if Holds(s[0], nde, blk) then Some(0)
    else match FindSlot(s[1..], nde, blk)
      case Some(k) => Some(k + 1)
      case None => None
  }

  /** What getSGDataBlock returns: the buffer of the lowest matching slot, or NULL. */
  function Lookup(s: seq<Slot>, nde: uint64, blk: uint64): Option<Block>
  {
    match FindSlot(s, nde, blk)
    case Some(k) => s[k].buf
    case None => None
  }

  /**
   * The slots after a lookup whose first match is `k`: every slot scanned before the
   * match ages by one, the match is reset to 0, later slots are not visited; on a miss
   * every slot ages.
   */
  function Touched(s: seq<Slot>, k: Option<nat>): (t: seq<Slot>)
    ensures |t| == |s|
  {
    seq(|s|, i requires 0 <= i < |s| =>
      if k.None? || i < k.value then s[i].(timer := s[i].timer + 1)
      else if i == k.value then s[i].(timer := 0)
      else s[i])
  }

  /** Slot `j` is a new running maximum of the timers: strictly above every earlier one. */
  predicate NewMax(s: seq<Slot>, j: int)
    requires 0 <= j < |s|
  {
    forall i :: 0 <= i < j ==> s[i].timer < s[j].timer
  }

  /** The running maximum of the eviction scan after the first `n` slots (ArgMaxUpToIsFirstMax says what it is). */
  function ArgMaxUpTo(s: seq<Slot>, n: nat): (k: nat)
    requires 0 < n <= |s|
    ensures k < n
  {
    if n == 1 then 0
    else
      var k := ArgMaxUpTo(s, n - 1);
      if s[k].timer < s[n - 1].timer then n - 1 else k
  }

  /** The running maximum is the lowest index whose timer is maximal among the first `n` slots. */
  lemma {:induction false} ArgMaxUpToIsFirstMax(s: seq<Slot>, n: nat)
    requires 0 < n <= |s|
    ensures forall i :: 0 <= i < n ==> s[i].timer <= s[ArgMaxUpTo(s, n)].timer
    ensures forall i :: 0 <= i < ArgMaxUpTo(s, n) ==> s[i].timer < s[ArgMaxUpTo(s, n)].timer
  {
    if n > 1 {
      ArgMaxUpToIsFirstMax(s, n - 1);
    }
  }

  /** The lowest index whose timer is maximal. */
  function FirstArgMax(s: seq<Slot>): (k: nat)
    requires |s| > 0
    ensures k < |s|
    ensures forall i :: 0 <= i < |s| ==> s[i].timer <= s[k].timer
    ensures forall i :: 0 <= i < k ==> s[i].timer < s[k].timer
  {
    ArgMaxUpToIsFirstMax(s, |s|);
    ArgMaxUpTo(s, |s|)
  }

  /** The lowest free slot (node id 0); one exists because the last slot is free. */
  function FirstFree(s: seq<Slot>): (z: nat)
    requires |s| > 0 && s[|s| - 1].nodeId == 0
    ensures z < |s| && s[z].nodeId == 0
    ensures forall i :: 0 <= i < z ==> s[i].nodeId != 0
  {
    if s[0].nodeId == 0 then 0 else 1 + FirstFree(s[1..])
  }

  /** Whether putSGDataBlock takes the eviction path: the last slot is occupied. */
  predicate Full(s: seq<Slot>)
    requires |s| == CACHE_SIZE
  {
    s[CACHE_SIZE - 1].nodeId != 0
  }

  /** The slot putSGDataBlock writes. */
  function InsertIndex(s: seq<Slot>): (w: nat)
    requires |s| == CACHE_SIZE
    ensures w < CACHE_SIZE
  {
    if Full(s) then FirstArgMax(s) else FirstFree(s)
  }

  /**
   * How much the eviction scan ages slot `i`: one when the next slot beats the first
   * maximum of the slots up to `i` (ScanBumpIsNewMax: when it is a new running maximum).
   */
  function ScanBump(s: seq<Slot>, i: nat): nat
    requires i < |s|
  {
    if i + 1 < |s| && s[ArgMaxUpTo(s, i + 1)].timer < s[i + 1].timer then 1 else 0
  }

  /** ScanBump for every slot. */
  function ScanBumps(s: seq<Slot>): (b: seq<nat>)
    ensures |b| == |s|
  {
    seq(|s|, i requires 0 <= i < |s| => ScanBump(s, i))
  }

  /** Timers after the eviction scan: the slot just before each new running maximum ages by one. */
  function Scanned(s: seq<Slot>): (t: seq<Slot>)
    ensures |t| == |s|
  {
    seq(|s|, i requires 0 <= i < |s| => s[i].(timer := s[i].timer + ScanBump(s, i)))
  }

  /** The slots after putSGDataBlock(nde, blk, b). */
  function Inserted(s: seq<Slot>, nde: uint64, blk: uint64, b: Block): (t: seq<Slot>)
    requires |s| == CACHE_SIZE
    ensures |t| == CACHE_SIZE
  {
    var entry := Slot(nde, blk, Some(b), 0);
    if Full(s) then Scanned(s)[FirstArgMax(s) := entry] else s[FirstFree(s) := entry]
  }

  predicate TimersNonNegative(s: seq<Slot>)
  {
    forall i :: 0 <= i < |s| ==> s[i].timer >= 0
  }

  /** Slot j beats the first maximum of the slots before it exactly when it is a new running maximum. */
  lemma NewMaxBeatsArgMax(s: seq<Slot>, j: nat)
    requires 0 < j < |s|
    ensures NewMax(s, j) <==> s[ArgMaxUpTo(s, j)].timer < s[j].timer
  {
    ArgMaxUpToIsFirstMax(s, j);
  }

  /** The scan ages exactly the slots that precede a new running maximum. */
  lemma ScanBumpIsNewMax(s: seq<Slot>, i: nat)
    requires i < |s|
    ensures ScanBump(s, i) == if i + 1 < |s| && NewMax(s, i + 1) then 1 else 0
  {
    if i + 1 < |s| {
      NewMaxBeatsArgMax(s, i + 1);
    }
  }

  lemma TakeOneMore<T>(s: seq<T>, n: nat)
    requires n < |s|
    ensures s[..n + 1] == s[..n] + [s[n]]
  {
  }

  /** The first |bump| slots aged by the matching bump; the rest unchanged. */
  function Aged(s: seq<Slot>, bump: seq<nat>): (t: seq<Slot>)
    ensures |t| == |s|
  {
    seq(|s|, i requires 0 <= i < |s| => if i < |bump| then s[i].(timer := s[i].timer + bump[i]) else s[i])
  }

  /** One more bump ages one more slot. */
  lemma AgedStep(s: seq<Slot>, bump: seq<nat>, b: nat)
    requires |bump| < |s|
    ensures Aged(s, bump + [b]) == Aged(s, bump)[|bump| := s[|bump|].(timer := s[|bump|].timer + b)]
  {
    var n := |bump|;
    forall i | 0 <= i < |s|
      ensures Aged(s, bump + [b])[i] == Aged(s, bump)[n := s[n].(timer := s[n].timer + b)][i]
    {
      if i < n {
        assert (bump + [b])[i] == bump[i];
      }
    }
  }

  /** Aging all but the last slot by its scan bump gives the scanned slots. */
  lemma ScanComplete(s: seq<Slot>, bump: seq<nat>)
    requires |s| == CACHE_SIZE
    requires bump == ScanBumps(s)[..CACHE_SIZE - 1]
    ensures Aged(s, bump) == Scanned(s)
    ensures TimersNonNegative(s) ==> TimersNonNegative(Scanned(s))
  {
    forall i | 0 <= i < CACHE_SIZE
      ensures Aged(s, bump)[i] == Scanned(s)[i]
    {
      if i < CACHE_SIZE - 1 {
        assert bump[i] == ScanBump(s, i);
      }
    }
  }

  /** Two slot arrays with the same keys at every index give the same first match. */
  lemma {:induction false} FindSlotKeysOnly(s: seq<Slot>, t: seq<Slot>, nde: uint64, blk: uint64)
    requires |s| == |t|
    requires forall i :: 0 <= i < |s| ==> s[i].nodeId == t[i].nodeId && s[i].blockId == t[i].blockId
    ensures FindSlot(s, nde, blk) == FindSlot(t, nde, blk)
  {
    if |s| > 0 {
      FindSlotKeysOnly(s[1..], t[1..], nde, blk);
    }
  }

  /** A lookup changes only timers, so a second lookup of any key finds the same slot and buffer. */
  lemma TouchedKeepsContents(s: seq<Slot>, k: Option<nat>, nde: uint64, blk: uint64)
    ensures FindSlot(Touched(s, k), nde, blk) == FindSlot(s, nde, blk)
    ensures Lookup(Touched(s, k), nde, blk) == Lookup(s, nde, blk)
  {
    FindSlotKeysOnly(Touched(s, k), s, nde, blk);
  }

  /** Both kinds of update keep timers non-negative. */
  lemma TimersStayNonNegative(s: seq<Slot>, k: Option<nat>, nde: uint64, blk: uint64, b: Block)
    requires |s| == CACHE_SIZE && TimersNonNegative(s)
    ensures TimersNonNegative(Touched(s, k))
    ensures TimersNonNegative(Inserted(s, nde, blk, b))
  {
  }

  /**
   * putSGDataBlock writes exactly one slot: the lowest free one when the last slot is
   * free, otherwise the lowest slot with the largest timer (slot 0 as baseline). No other
   * slot's ids or buffer change.
   */
  lemma InsertedWritesOneSlot(s: seq<Slot>, nde: uint64, blk: uint64, b: Block)
    requires |s| == CACHE_SIZE
    ensures var t := Inserted(s, nde, blk, b); var w := InsertIndex(s);
      && t[w] == Slot(nde, blk, Some(b), 0)
      && (forall i :: 0 <= i < CACHE_SIZE && i != w ==>
            t[i].nodeId == s[i].nodeId && t[i].blockId == s[i].blockId && t[i].buf == s[i].buf)
      && (!Full(s) ==> s[w].nodeId == 0 && forall i :: 0 <= i < w ==> s[i].nodeId != 0)
      && (Full(s) ==> (forall i :: 0 <= i < CACHE_SIZE ==> s[i].timer <= s[w].timer)
                      && forall i :: 0 <= i < w ==> s[i].timer < s[w].timer)
  {
  }

  /** After an insert, a lookup of the same key finds a slot at or before the one written. */
  lemma LookupAfterInsert(s: seq<Slot>, nde: uint64, blk: uint64, b: Block)
    requires |s| == CACHE_SIZE
    ensures var t := Inserted(s, nde, blk, b);
      && FindSlot(t, nde, blk).Some?
      && FindSlot(t, nde, blk).value <= InsertIndex(s)
    ensures (forall i :: 0 <= i < CACHE_SIZE && i != InsertIndex(s) ==> !Holds(s[i], nde, blk))
      ==> Lookup(Inserted(s, nde, blk, b), nde, blk) == Some(b)
  {
    var t := Inserted(s, nde, blk, b);
    var w := InsertIndex(s);
    assert Holds(t[w], nde, blk);
    if forall i :: 0 <= i < CACHE_SIZE && i != w ==> !Holds(s[i], nde, blk) {
      assert forall i :: 0 <= i < CACHE_SIZE && i != w ==> !Holds(t[i], nde, blk);
      assert FindSlot(t, nde, blk) == Some(w);
    }
  }

  /**
   * No dedupe: inserting a key that is already cached, while a free slot remains, leaves
   * two slots holding that key.
   */
  lemma InsertMayDuplicate(s: seq<Slot>, nde: uint64, blk: uint64, b: Block)
    requires |s| == CACHE_SIZE && !Full(s)
    requires nde != 0 && FindSlot(s, nde, blk).Some?
    ensures var t := Inserted(s, nde, blk, b); var k := FindSlot(s, nde, blk).value;
      && k != InsertIndex(s)
      && Holds(t[k], nde, blk) && Holds(t[InsertIndex(s)], nde, blk)
  {
  }

  /**
   * Aging gives some recency: right after a hit on slot k > 0, slot k has timer 0 while
   * every slot before it has aged, so an eviction scan then does not pick slot k.
   */
  lemma HitSlotNotEvicted(s: seq<Slot>, k: nat)
    requires |s| == CACHE_SIZE && TimersNonNegative(s)
    requires 0 < k < CACHE_SIZE
    ensures FirstArgMax(Touched(s, Some(k))) != k
  {
    var t := Touched(s, Some(k));
    assert t[0].timer > 0 == t[k].timer;
  }

  class BlockCache {
    const slots: array<Slot>
    var hit: int
    var miss: int

    ghost predicate Valid()
      reads this, slots
    {
      slots.Length == CACHE_SIZE && TimersNonNegative(slots[..])
    }

    /** The zero-initialised global storage. */
    constructor()
      ensures Valid() && fresh(slots)
      ensures hit == 0 && miss == 0
      ensures forall i :: 0 <= i < CACHE_SIZE ==> slots[i] == EMPTY_SLOT
    {
      slots := new Slot[CACHE_SIZE](_ => EMPTY_SLOT);
      hit, miss := 0, 0;
    }

    /** initSGCache: every slot unused, counters reset; `maxElements` is ignored. */
    method Init(maxElements: uint16) returns (r: int)
      requires Valid()
      modifies this, slots
      ensures Valid() && r == 0
      ensures forall i :: 0 <= i < CACHE_SIZE ==> slots[i] == EMPTY_SLOT
      ensures hit == 0 && miss == 0
    {
      for x := 0 to CACHE_SIZE
        invariant forall i :: 0 <= i < x ==> slots[i] == EMPTY_SLOT
      {
        slots[x] := EMPTY_SLOT;
      }
      hit := 0;
      miss := 0;
      return 0;
    }

    /** getSGDataBlock. Every call counts one miss and one hit; a match counts a second hit. */
    method Get(nde: uint64, blk: uint64) returns (r: Option<Block>)
      requires Valid()
      modifies this, slots
      ensures Valid()
      ensures r == Lookup(old(slots[..]), nde, blk)
      ensures slots[..] == Touched(old(slots[..]), FindSlot(old(slots[..]), nde, blk))
      ensures miss == old(miss) + 1
      ensures hit == old(hit) + if FindSlot(old(slots[..]), nde, blk).Some? then 2 else 1
    {
      ghost var s0 := slots[..];
      miss := miss + 1;
      hit := hit + 1;
      var x := 0;
      while x < CACHE_SIZE
        invariant 0 <= x <= CACHE_SIZE
        invariant hit == old(hit) + 1 && miss == old(miss) + 1
        invariant forall i :: 0 <= i < x ==> !Holds(s0[i], nde, blk)
        invariant forall i :: 0 <= i < x ==> slots[i] == s0[i].(timer := s0[i].timer + 1)
        invariant forall i :: x <= i < CACHE_SIZE ==> slots[i] == s0[i]
      {
        slots[x] := slots[x].(timer := slots[x].timer + 1);
        if slots[x].blockId == blk && slots[x].nodeId == nde {
          slots[x] := slots[x].(timer := 0);
          hit := hit + 1;
          assert FindSlot(s0, nde, blk) == Some(x);
          assert slots[..] == Touched(s0, Some(x));
          return slots[x].buf;
        }
        x := x + 1;
      }
      assert FindSlot(s0, nde, blk) == None;
      assert slots[..] == Touched(s0, None);
      return None;
    }

    /** putSGDataBlock. Always counts a miss; never checks whether the key is already cached. */
    method Put(nde: uint64, blk: uint64, block: Block) returns (r: int)
      requires Valid()
      modifies this, slots
      ensures Valid() && r == 0
      ensures slots[..] == Inserted(old(slots[..]), nde, blk, block)
      ensures hit == old(hit) && miss == old(miss) + 1
    {
      ghost var s0 := slots[..];
      miss := miss + 1;
      var w;
      if slots[CACHE_SIZE - 1].nodeId != 0 {
        w := EvictionScan();
      } else {
        w := FreeSlot();
      }
      slots[w] := Slot(nde, blk, Some(block), 0);
      assert slots[..] == Inserted(s0, nde, blk, block);
      TimersStayNonNegative(s0, None, nde, blk, block);
      return 0;
    }

    /**
     * The eviction loop of putSGDataBlock: a running maximum `count` seeded with slot 0's
     * timer; each time slot y + 1 beats it, slot y ages by one and y + 1 becomes the victim.
     */
    method EvictionScan() returns (number: nat)
      requires Valid()
      modifies slots
      ensures Valid()
      ensures number == FirstArgMax(old(slots[..]))
      ensures slots[..] == Scanned(old(slots[..]))
    {
      ghost var s0 := slots[..];
      ghost var bump: seq<nat> := [];
      var count := slots[0].timer;
      number := 0;
      for y := 0 to CACHE_SIZE - 1
        invariant number <= y && number == ArgMaxUpTo(s0, y + 1) && count == s0[number].timer
        invariant |bump| == y
        invariant bump == ScanBumps(s0)[..y]
        invariant forall i :: 0 <= i < CACHE_SIZE ==> slots[i] == Aged(s0, bump)[i]
      {
        ghost var b := ScanBump(s0, y);
        assert slots[y + 1] == s0[y + 1];
        assert b == if count < slots[y + 1].timer then 1 else 0;
        TakeOneMore(ScanBumps(s0), y);
        AgedStep(s0, bump, b);
        if count < slots[y + 1].timer {
          count := slots[y + 1].timer;
          number := y + 1;
          slots[y] := slots[y].(timer := slots[y].timer + 1);
        }
        bump := bump + [b];
      }
      assert slots[..] == Aged(s0, bump);
      ScanComplete(s0, bump);
    }

    /** The free-slot loop of putSGDataBlock: it stops at slot 127 at the latest, which is free. */
    method FreeSlot() returns (z: nat)
      requires Valid() && slots[CACHE_SIZE - 1].nodeId == 0
      ensures z == FirstFree(slots[..])
    {
      z := 0;
      while slots[z].nodeId != 0
        invariant 0 <= z < CACHE_SIZE
        invariant forall i :: 0 <= i < z ==> slots[i].nodeId != 0
        decreases CACHE_SIZE - z
      {
        z := z + 1;
      }
    }
  }
}
