/** Shared-memory layout constants and the fixed-size message slot. */
module Shm {
  import opened Wrap

  const SLOT_COUNT: nat := 64
  const PAYLOAD_SIZE: nat := 1018

  const STATE_OFFLINE: u32 := 0
  const STATE_READY: u32 := 1
  const STATE_ERROR: u32 := 2

  datatype RawSlot = RawSlot(sequence: u32, length: u16, payload: seq<bv8>)

  /** A slot carries the whole payload area; length says how much is used, and
      nothing but the transport's own checks keeps it in range. */
  type Slot = m: RawSlot | |m.payload| == PAYLOAD_SIZE witness RawSlot(0, 0, seq(PAYLOAD_SIZE, _ => 0))

  const BLANK: Slot := RawSlot(0, 0, seq(PAYLOAD_SIZE, _ => 0))

  /** A message that the ring accepts. */
  predicate Sendable(m: Slot) {
    m.length <= PAYLOAD_SIZE
  }

  /** The payload area with `bytes` at its start and zeros behind them. */
  function Padded(bytes: seq<bv8>): (r: seq<bv8>)
    requires |bytes| <= PAYLOAD_SIZE
    ensures |r| == PAYLOAD_SIZE && r[..|bytes|] == bytes
  {
    bytes + seq(PAYLOAD_SIZE - |bytes|, _ => 0)
  }
}
