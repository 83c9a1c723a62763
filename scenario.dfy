/**
 * One injected tap, from a fresh manager: initialise against a listing with
 * one touch device, put the contact down, and lift it twice.
 */
module Scenario {
  import opened Options
  import opened Geometry
  import opened InputEvents
  import opened TouchTypes
  import opened Capability
  import opened Discovery
  import opened Manager

  /** The device node the listing offers, with scale (0.5, 0.5) and a full multi-touch mask. */
  function TapProbe(path: string): Probe
  {
    if path == "/dev/input/event2" then Opened(5, Some(SyntheticMask(TouchAxesWord)), Vector2(0.5, 0.5))
    else OpenFailed
  }

  /** The listing holds one event node, and its device is selected. */
  lemma TapListing()
    ensures forall path :: ProbeWellFormed(TapProbe(path))
    ensures EventPaths(["mice", "event2"]) == ["/dev/input/event2"]
    ensures FirstTouchDevice(["/dev/input/event2"], TapProbe) == Some(0)
  {
    SyntheticTouchMaskClassifies();
    assert ["mice", "event2"][..1] == ["mice"];
    assert ["mice"][..0] == [];
    assert EventPaths(["mice"]) == [];
    assert InputDir + "event2" == "/dev/input/event2";
  }

  /**
   * Down at screen point (200, 200) in orientation 0 stores (400, 400) and
   * writes the full contact frame on slot 9; the first Up writes the release
   * frame and the second only a SYN_REPORT.
   */
  method Tap() returns (down: seq<InputEvent>, up: seq<InputEvent>, again: seq<InputEvent>)
    ensures down == [SlotEvent(9), TrackingIdEvent(5200), PositionXEvent(400), PositionYEvent(400), SynReportEvent]
    ensures up == [SlotEvent(9), TrackingIdEvent(NoContact), SynReportEvent]
    ensures again == [SynReportEvent]
  {
    var m := new TouchManager();
    TapListing();
    var closed := m.Init(Vector2(1080.0, 2400.0), false, Some(["mice", "event2"]), TapProbe);
    assert m.touchDevice.scale == Vector2(0.5, 0.5);
    down := m.Down(Vector2(200.0, 200.0));
    assert m.touchPoint.pos == Vector2(400.0, 400.0);
    TruncateWhole(400);
    up := m.Up();
    again := m.Up();
  }
}
