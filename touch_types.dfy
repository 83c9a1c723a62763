/**
 * The value types and constants the touch manager declares: the touch point
 * record, the size of the table of touch slots, the capability bitmask
 * sizes and the values the injector uses for its single synthetic contact.
 */
module TouchTypes {
  import opened Geometry

  /** Bits in a byte, and the byte count the capability bit test is bounded by. */
  const KByteBitSize := 8
  const KEvByteSize := 64

  /** Width in bytes and in bits (sizeof(unsigned long) * kByteBitSize) of `unsigned long` on a 64-bit target. */
  const LongBytes := 8
  const LongBits := LongBytes * KByteBitSize

  /** Number of entries in the device's slot table. */
  const SlotCount := 10

  /** `tracking_id` of a slot without a contact. */
  const NoContact := -1

  /** Slot and tracking id of the injected contact. */
  const InjectedSlot := 9
  const InjectedTrackingId := 5200

  /** A contact: its slot, its tracking id (-1 when released) and its position. */
  datatype TouchPoint = TouchPoint(slot: int, trackingId: int, pos: Vector2)

  /** A default-initialised touch point. */
  function FreshTouchPoint(): (p: TouchPoint)
    ensures p.slot == -1 && p.trackingId == NoContact && p.pos == Zero
  {
    TouchPoint(-1, -1, Vector2(0.0, 0.0))
  }

  /** A default-initialised slot table. */
  function FreshTable(): (t: seq<TouchPoint>)
    ensures |t| == SlotCount
    ensures forall i :: 0 <= i < |t| ==> t[i] == FreshTouchPoint()
  {
    seq(SlotCount, _ => FreshTouchPoint())
  }
}
