/**
 * Block addressing of the driver: a file position names block `pos / 1024` and, inside it,
 * the 256-byte quarter that starts at `pos % 1024`. Reads copy that quarter out of a block
 * into the caller's buffer; updates patch it into a block before the whole block is sent.
 */
module Addressing {
  import opened Types

  const QUARTER_SIZE: nat := 256

  function BlockIndex(pos: nat): nat
  {
    pos / BLOCK_SIZE
  }

  function QuarterOffset(pos: nat): nat
  {
    pos % BLOCK_SIZE
  }

  /** The four offsets the driver copies at; any other offset copies nothing. */
  predicate IsQuarter(q: nat)
  {
    q == 0 || q == 256 || q == 512 || q == 768
  }

  /** memcpy(buf, tmp + q, 256) for a quarter offset `q`; the rest of `buf` is kept. */
  function CopyQuarterOut(block: Block, q: nat, buf: Block): (r: Block)
    ensures IsQuarter(q) ==> forall i :: 0 <= i < BLOCK_SIZE ==>
      r[i] == if i < QUARTER_SIZE then block[q + i] else buf[i]
    ensures !IsQuarter(q) ==> r == buf
  {
    if IsQuarter(q) then
      var r := block[q..q + QUARTER_SIZE] + buf[QUARTER_SIZE..];
      assert forall i :: 0 <= i < QUARTER_SIZE ==> r[i] == block[q + i];
      assert forall i :: QUARTER_SIZE <= i < BLOCK_SIZE ==> r[i] == buf[i];
      r
    else buf
  }

  /** memcpy(tmp + q, buf, 256) for a quarter offset `q`; the rest of the block is kept. */
  function PatchQuarter(block: Block, q: nat, buf: Block): (r: Block)
    ensures IsQuarter(q) ==> forall i :: 0 <= i < BLOCK_SIZE ==>
      r[i] == if q <= i < q + QUARTER_SIZE then buf[i - q] else block[i]
    ensures !IsQuarter(q) ==> r == block
  {
    if IsQuarter(q) then block[..q] + buf[..QUARTER_SIZE] + block[q + QUARTER_SIZE..] else block
  }

  /**
   * A sequence of 256-byte reads or writes from the start of a file: the n-th one lands in
   * block n / 4 at quarter n % 4, so only every fourth one starts a new block.
   */
  lemma SequentialQuarters(n: nat)
    ensures BlockIndex(n * QUARTER_SIZE) == n / 4
    ensures QuarterOffset(n * QUARTER_SIZE) == (n % 4) * QUARTER_SIZE
    ensures (n * QUARTER_SIZE) % BLOCK_SIZE == 0 <==> n % 4 == 0
  {
  }

  /**
   * Positions reached by 256-byte steps stay on quarter boundaries: if `pos` is a multiple
   * of 256 its offset is one of the four the driver copies at.
   */
  lemma AlignedPositionIsQuarter(pos: nat)
    requires pos % QUARTER_SIZE == 0
    ensures IsQuarter(QuarterOffset(pos))
  {
    var q := QuarterOffset(pos);
    var a, b := pos / BLOCK_SIZE, pos / QUARTER_SIZE;
    assert pos == BLOCK_SIZE * a + q;
    assert pos == QUARTER_SIZE * b;
    var c := b - 4 * a;
    assert q == QUARTER_SIZE * c;
    assert 0 <= c < 4;
  }

  /** Reading back a quarter just patched returns the bytes written. */
  lemma ReadAfterPatch(block: Block, q: nat, data: Block, buf: Block)
    requires IsQuarter(q)
    ensures CopyQuarterOut(PatchQuarter(block, q, data), q, buf)[..QUARTER_SIZE] == data[..QUARTER_SIZE]
  {
    var r := CopyQuarterOut(PatchQuarter(block, q, data), q, buf);
    forall i | 0 <= i < QUARTER_SIZE
      ensures r[i] == data[i]
    {
      assert r[i] == PatchQuarter(block, q, data)[q + i];
    }
  }

  /** Patching one quarter leaves what every other quarter reads back unchanged. */
  lemma PatchKeepsOtherQuarters(block: Block, q: nat, data: Block, q': nat, buf: Block)
    requires IsQuarter(q) && IsQuarter(q') && q != q'
    ensures CopyQuarterOut(PatchQuarter(block, q, data), q', buf) == CopyQuarterOut(block, q', buf)
  {
    var p := PatchQuarter(block, q, data);
    var a := CopyQuarterOut(p, q', buf);
    var b := CopyQuarterOut(block, q', buf);
    forall i | 0 <= i < BLOCK_SIZE
      ensures a[i] == b[i]
    {
      if i < QUARTER_SIZE {
        assert a[i] == p[q' + i];
      }
    }
  }
}
