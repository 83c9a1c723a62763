/**
 * Raw records of the Linux input event stream and the event codes of the
 * multi-touch "type B" slot protocol used here, with the values of
 * linux/input-event-codes.h. The timestamp of a record is left out: nothing
 * in the touch manager reads or sets it.
 */
module InputEvents {

  const EvSyn := 0
  const EvAbs := 3
  const SynReport := 0
  const AbsMtSlot := 0x2f
  const AbsMtPositionX := 0x35
  const AbsMtPositionY := 0x36
  const AbsMtTrackingId := 0x39

  /** Size in bytes of one record on a 64-bit kernel: a 16-byte timestamp, two 16-bit fields, a 32-bit value. */
  const InputEventSize := 24

  /** One record: `type`, `code` and `value`. */
  datatype InputEvent = InputEvent(eventType: int, code: int, value: int)

  function SlotEvent(slot: int): InputEvent { InputEvent(EvAbs, AbsMtSlot, slot) }
  function TrackingIdEvent(id: int): InputEvent { InputEvent(EvAbs, AbsMtTrackingId, id) }
  function PositionXEvent(x: int): InputEvent { InputEvent(EvAbs, AbsMtPositionX, x) }
  function PositionYEvent(y: int): InputEvent { InputEvent(EvAbs, AbsMtPositionY, y) }
  const SynReportEvent := InputEvent(EvSyn, SynReport, 0)

  /**
   * The C conversion of a floating value to `int`: truncation toward zero,
   * so the result never has a larger magnitude than the input and lies
   * within one of it.
   */
  function TruncateToInt(r: real): (t: int)
    ensures 0.0 <= r ==> 0 <= t && t as real <= r < t as real + 1.0
    ensures r < 0.0 ==> t <= 0 && t as real - 1.0 < r <= t as real
  {
    if r >= 0.0 then r.Floor else -((-r).Floor)
  }

  /** Converting a whole number and truncating it back gives the number itself. */
  lemma TruncateWhole(n: int)
    ensures TruncateToInt(n as real) == n
  {
  }
}
