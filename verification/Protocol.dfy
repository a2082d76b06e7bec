/** Constants shared by gateway and node firmware (src/tdma_protocol.h). */
module Protocol {
  import opened Words

  const MAX_NODES := 8
  const NODE_TIMEOUT_SFS := 8

  const BEACON_MS := 40
  const BEACON_AIR_MS := 18
  const SLOT_DL_MS := 50
  const SLOT_UL_MS := 100
  const SLOT_GUARD_MS := 15
  const SLOT_PAIR_MS := SLOT_DL_MS + SLOT_UL_MS + SLOT_GUARD_MS
  const CONTENTION_UL_MS := 60
  const CONTENTION_DL_MS := 40
  const IDLE_MS := 1520
  const END_GUARD_MS := 20
  const SUPERFRAME_MS :=
    BEACON_MS + MAX_NODES * SLOT_PAIR_MS + CONTENTION_UL_MS + CONTENTION_DL_MS + IDLE_MS + END_GUARD_MS

  const PENDING_TIMEOUT_MS := 15000
  const MAX_DL_RETRIES := 3
  const HISTORY_MAX_POINTS := 120
  const FRAM_WRITE_N := 10
  const BROADCAST_ADDR: UInt8 := 0xFF

  const PKT_RELAY_MANUAL: UInt8 := 0x02
  const PKT_RELAY_SCHEDULE: UInt8 := 0x03
  const PKT_RELAY_CLEAR: UInt8 := 0x05
  const PKT_THRESHOLD: UInt8 := 0x06
  const PKT_NUDGE: UInt8 := 0x07

  /** Every downlink frame is zero-padded to the largest command. */
  const MAX_DL_PAYLOAD_LEN := 7
}
