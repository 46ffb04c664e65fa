/** Machine types shared by every component of the scatter/gather client. */
module Types {

  /** Fixed-width unsigned integers of the C source, as bounded mathematical integers. */
  type byte = x: int | 0 <= x < 0x100
  type uint16 = x: int | 0 <= x < 0x1_0000
  type uint32 = x: int | 0 <= x < 0x1_0000_0000
  type uint64 = x: int | 0 <= x < 0x1_0000_0000_0000_0000

  /** SG_BLOCK_SIZE: the unit of remote storage. */
  const BLOCK_SIZE: nat := 1024

  /** The contents of one remote block, owned by whoever holds it. */
  type Block = s: seq<byte> | |s| == BLOCK_SIZE witness seq(1024, _ => 0)

  /** A value that may be missing: a NULL pointer in the source. */
  datatype Option<T> = None | Some(value: T)
}
