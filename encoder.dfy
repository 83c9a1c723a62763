/**
 * The frame the injector writes for its single contact, and what that frame
 * means to a reader of the slot protocol. The frame is a pure function of
 * the contact and of the "first down" flag; the writing method of the
 * manager is proved against it.
 */
module Encoder {
  import opened Geometry
  import opened InputEvents
  import opened TouchTypes
  import opened Transform
  import opened Reader

  /** Records in the upload buffer. */
  const UploadBufferRecords := 221

  /**
   * The records written for contact `tp` and the new value of the flag.
   * An active contact sends its slot, tracking id and truncated position and
   * clears the flag; a released contact sends its slot and tracking id -1
   * only if the flag is clear, and sets it. Every frame ends with the one
   * SYN_REPORT it contains, and the flag afterwards says whether the contact
   * is released.
   */
  function EncodeFrame(tp: TouchPoint, firstDown: bool): (r: (seq<InputEvent>, bool))
    ensures 1 <= |r.0| <= UploadBufferRecords
    ensures r.0[|r.0| - 1] == SynReportEvent
    ensures forall i :: 0 <= i < |r.0| - 1 ==> r.0[i].eventType == EvAbs
    ensures r.1 <==> tp.trackingId == NoContact
  {
    var body :=
      if tp.trackingId != NoContact then ContactRecords(tp)
      else if !firstDown then
        [SlotEvent(tp.slot), TrackingIdEvent(NoContact)]
      else [];
    (body + [SynReportEvent], tp.trackingId == NoContact)
  }

  /** A frame releases the contact when it carries tracking id -1. */
  predicate IsRelease(frame: seq<InputEvent>)
  {
    TrackingIdEvent(NoContact) in frame
  }

  /** Only a release frame carries tracking id -1: it is written for a released contact while the flag is clear. */
  lemma ReleaseIff(tp: TouchPoint, firstDown: bool)
    ensures IsRelease(EncodeFrame(tp, firstDown).0) <==> tp.trackingId == NoContact && !firstDown
  {
  }

  /** The position a reader sees for `pos` after it went through the frame's `int` fields. */
  function Transmitted(pos: Vector2): Vector2
  {
    Vector2(TruncateToInt(pos.x) as real, TruncateToInt(pos.y) as real)
  }

  /**
   * What a slot-protocol reader makes of the frame of an active contact: the
   * contact's slot becomes current with its tracking id and transmitted
   * position, and the SYN_REPORT reports the pointer down there.
   */
  lemma ActiveFrameDecodes(st: ReaderState, tp: TouchPoint, firstDown: bool, view: View, hasContext: bool)
    requires ValidState(st) && 0 <= tp.slot < SlotCount && tp.trackingId >= 0
    ensures AllSlotsInRange(EncodeFrame(tp, firstDown).0)
    ensures var r := Run(st, EncodeFrame(tp, firstDown).0, view, hasContext);
            r.0 == ReaderState(tp.slot, st.table[tp.slot := st.table[tp.slot].(trackingId := tp.trackingId, pos := Transmitted(tp.pos))])
            && r.1 == if hasContext then [PointerDown(PhysicalToScreen(view.orientation, view.screen, Transmitted(tp.pos), view.scale))] else []
  {
    var records := ContactRecords(tp);
    ContactRecordsDecode(st, tp, view, hasContext);
    RunSnoc(st, records, SynReportEvent, view, hasContext);
    assert EncodeFrame(tp, firstDown).0 == records + [SynReportEvent];
  }

  /**
   * The four records that describe an active contact: all EV_ABS, carrying
   * each of the four axes once, the axes the multi-touch test requires of the device, and
   * no SYN_REPORT.
   */
  function ContactRecords(tp: TouchPoint): (r: seq<InputEvent>)
    ensures |r| == 4
    ensures forall i :: 0 <= i < |r| ==> r[i].eventType == EvAbs && !IsSynReport(r[i])
    ensures forall i :: 0 <= i < |r| ==> r[i].code in {AbsMtSlot, AbsMtTrackingId, AbsMtPositionX, AbsMtPositionY}
    ensures forall i, j :: 0 <= i < j < |r| ==> r[i].code != r[j].code
  {
    [SlotEvent(tp.slot), TrackingIdEvent(tp.trackingId),
     PositionXEvent(TruncateToInt(tp.pos.x)), PositionYEvent(TruncateToInt(tp.pos.y))]
  }

  /** Decoding them makes the contact's slot current with its tracking id and transmitted position, and reports nothing. */
  lemma ContactRecordsDecode(st: ReaderState, tp: TouchPoint, view: View, hasContext: bool)
    requires ValidState(st) && 0 <= tp.slot < SlotCount
    ensures AllSlotsInRange(ContactRecords(tp))
    ensures Run(st, ContactRecords(tp), view, hasContext)
         == (ReaderState(tp.slot, st.table[tp.slot := st.table[tp.slot].(trackingId := tp.trackingId, pos := Transmitted(tp.pos))]), [])
  {
    var head := [SlotEvent(tp.slot), TrackingIdEvent(tp.trackingId)];
    SlotAndIdDecode(st, tp, view, hasContext);
    var x, y := PositionXEvent(TruncateToInt(tp.pos.x)), PositionYEvent(TruncateToInt(tp.pos.y));
    var s2 := Run(st, head, view, hasContext).0;
    var entry := st.table[tp.slot].(trackingId := tp.trackingId);
    assert s2 == ReaderState(tp.slot, st.table[tp.slot := entry]);
    RunSnoc(st, head, x, view, hasContext);
    var s3 := Apply(s2, x);
    assert s3 == ReaderState(tp.slot, st.table[tp.slot := entry.(pos := entry.pos.(x := TruncateToInt(tp.pos.x) as real))]);
    assert Run(st, head + [x], view, hasContext).0 == s3;
    assert Run(st, head + [x], view, hasContext).1 == [];
    RunSnoc(st, head + [x], y, view, hasContext);
    assert Apply(s3, y) == ReaderState(tp.slot, st.table[tp.slot := entry.(pos := Transmitted(tp.pos))]);
    assert ContactRecords(tp) == head + [x] + [y];
  }

  /**
   * The frame of a release after a contact: the slot becomes current with
   * tracking id -1 and its position untouched, and the pointer is reported up.
   */
  lemma ReleaseFrameDecodes(st: ReaderState, tp: TouchPoint, view: View, hasContext: bool)
    requires ValidState(st) && 0 <= tp.slot < SlotCount && tp.trackingId == NoContact
    ensures AllSlotsInRange(EncodeFrame(tp, false).0)
    ensures var r := Run(st, EncodeFrame(tp, false).0, view, hasContext);
            r.0 == ReaderState(tp.slot, st.table[tp.slot := st.table[tp.slot].(trackingId := NoContact)])
            && r.1 == if hasContext then [PointerUp] else []
  {
    var head := [SlotEvent(tp.slot), TrackingIdEvent(tp.trackingId)];
    SlotAndIdDecode(st, tp, view, hasContext);
    RunSnoc(st, head, SynReportEvent, view, hasContext);
    assert EncodeFrame(tp, false).0 == head + [SynReportEvent];
  }

  /** A frame holding only a SYN_REPORT changes nothing and reports the reader's current slot. */
  lemma IdleFrameDecodes(st: ReaderState, tp: TouchPoint, view: View, hasContext: bool)
    requires ValidState(st) && tp.trackingId == NoContact
    ensures AllSlotsInRange(EncodeFrame(tp, true).0)
    ensures Run(st, EncodeFrame(tp, true).0, view, hasContext) == (st, Report(st, view, hasContext))
  {
    assert Run(st, [], view, hasContext) == (st, []);
    RunSnoc(st, [], SynReportEvent, view, hasContext);
    assert EncodeFrame(tp, true).0 == [] + [SynReportEvent];
    assert Apply(st, SynReportEvent) == st;
    assert [] + Report(st, view, hasContext) == Report(st, view, hasContext);
  }

  /** The slot and tracking-id records of a frame make the contact's slot current with its tracking id. */
  lemma SlotAndIdDecode(st: ReaderState, tp: TouchPoint, view: View, hasContext: bool)
    requires ValidState(st) && 0 <= tp.slot < SlotCount
    ensures AllSlotsInRange([SlotEvent(tp.slot), TrackingIdEvent(tp.trackingId)])
    ensures Run(st, [SlotEvent(tp.slot), TrackingIdEvent(tp.trackingId)], view, hasContext)
         == (ReaderState(tp.slot, st.table[tp.slot := st.table[tp.slot].(trackingId := tp.trackingId)]), [])
  {
    var e1, e2 := SlotEvent(tp.slot), TrackingIdEvent(tp.trackingId);
    assert Run(st, [], view, hasContext) == (st, []);
    RunSnoc(st, [], e1, view, hasContext);
    assert [] + [e1] == [e1];
    var s1 := Apply(st, e1);
    assert s1 == ReaderState(tp.slot, st.table);
    assert !IsSynReport(e1);
    assert Run(st, [e1], view, hasContext).0 == s1;
    assert Run(st, [e1], view, hasContext).1 == [];
    RunSnoc(st, [e1], e2, view, hasContext);
    assert [e1] + [e2] == [e1, e2];
    assert Apply(s1, e2) == ReaderState(tp.slot, st.table[tp.slot := st.table[tp.slot].(trackingId := tp.trackingId)]);
  }

  /** The commands of a touch gesture: `Down`/`Move` to a stored position, or `Up`. */
  datatype Command = Press(pos: Vector2) | Lift

  /** The injected contact after one command: `Up` keeps the stored position. */
  function ContactAfter(slot: int, pos: Vector2, c: Command): TouchPoint
  {
    match c
    case Press(p) => TouchPoint(slot, InjectedTrackingId, p)
    case Lift => TouchPoint(slot, NoContact, pos)
  }

  /** The frames written for a sequence of commands, starting from flag `firstDown`. */
  function Session(slot: int, pos: Vector2, firstDown: bool, cmds: seq<Command>): (frames: seq<seq<InputEvent>>)
    ensures |frames| == |cmds|
    decreases |cmds|
  {
    if cmds == [] then []
    else
      var tp := ContactAfter(slot, pos, cmds[0]);
      var step := EncodeFrame(tp, firstDown);
      [step.0] + Session(slot, tp.pos, step.1, cmds[1..])
  }

  /**
   * A release frame is written exactly for an `Up` that directly follows a
   * `Down` or `Move` (or, for the first command, when the flag starts clear):
   * repeated `Up`s release once, and an `Up` with no contact before it
   * writes only a SYN_REPORT.
   */
  lemma {:induction false} ReleasesFollowPresses(slot: int, pos: Vector2, firstDown: bool, cmds: seq<Command>)
    ensures forall i :: 0 <= i < |cmds| ==>
              (IsRelease(Session(slot, pos, firstDown, cmds)[i])
               <==> cmds[i].Lift? && if i == 0 then !firstDown else cmds[i - 1].Press?)
    decreases |cmds|
  {
    if cmds != [] {
      var tp := ContactAfter(slot, pos, cmds[0]);
      var step := EncodeFrame(tp, firstDown);
      var rest := cmds[1..];
      ReleasesFollowPresses(slot, tp.pos, step.1, rest);
      var frames := Session(slot, pos, firstDown, cmds);
      assert frames == [step.0] + Session(slot, tp.pos, step.1, rest);
      ReleaseIff(tp, firstDown);
      assert tp.trackingId == NoContact <==> cmds[0].Lift?;
      forall i | 0 <= i < |cmds|
        ensures IsRelease(frames[i]) <==> cmds[i].Lift? && if i == 0 then !firstDown else cmds[i - 1].Press?
      {
        if i == 0 {
          assert frames[0] == step.0;
        } else {
          assert frames[i] == Session(slot, tp.pos, step.1, rest)[i - 1];
          assert rest[i - 1] == cmds[i];
          if i == 1 {
            assert step.1 <==> !cmds[0].Press?;
          } else {
            assert rest[i - 2] == cmds[i - 1];
          }
        }
      }
    }
  }

  /** After the first `Down`, any number of `Up`s write one release frame, the first of them. */
  lemma DownThenUps(slot: int, pos: Vector2, cmds: seq<Command>)
    requires |cmds| >= 1 && cmds[0].Press?
    requires forall i :: 1 <= i < |cmds| ==> cmds[i].Lift?
    ensures forall i :: 0 <= i < |cmds| ==> (IsRelease(Session(slot, pos, true, cmds)[i]) <==> i == 1)
  {
    ReleasesFollowPresses(slot, pos, true, cmds);
    forall i | 0 <= i < |cmds|
      ensures IsRelease(Session(slot, pos, true, cmds)[i]) <==> i == 1
    {
      if i >= 2 {
        assert cmds[i - 1].Lift?;
      }
    }
  }
}
