/**
 * The reader's decoding of the device's event stream: the current slot
 * and the slot table it updates, the pointer state it reports on every
 * SYN_REPORT, and the acceptance test of one `read` of the record buffer.
 * These are the specification functions that the reading method of the
 * manager is proved against.
 */
module Reader {
  import opened Geometry
  import opened InputEvents
  import opened TouchTypes
  import opened Transform

  /** What one SYN_REPORT reports to the UI: the pointer is down at a screen position, or up. */
  datatype PointerOutput = PointerDown(pos: Vector2) | PointerUp

  /** The rotation, stored screen size and device scale the reader converts positions with. */
  datatype View = View(orientation: int, screen: Vector2, scale: Vector2)

  /** The decoder's state: the current slot and the device's slot table. */
  datatype ReaderState = ReaderState(slot: int, table: seq<TouchPoint>)

  /** Records in the read buffer. */
  const ReadBufferRecords := 788

  /** The current slot indexes the table. */
  predicate ValidState(st: ReaderState)
  {
    0 <= st.slot < SlotCount && |st.table| == SlotCount
  }

  predicate IsAbs(e: InputEvent, code: int)
  {
    e.eventType == EvAbs && e.code == code
  }

  predicate IsSynReport(e: InputEvent)
  {
    e.eventType == EvSyn && e.code == SynReport
  }

  /**
   * The reader indexes the table with the value of an ABS_MT_SLOT record
   * without a bounds check; the model requires the device to report slots
   * within the table.
   */
  predicate SlotInRange(e: InputEvent)
  {
    IsAbs(e, AbsMtSlot) ==> 0 <= e.value < SlotCount
  }

  predicate AllSlotsInRange(events: seq<InputEvent>)
  {
    forall i :: 0 <= i < |events| ==> SlotInRange(events[i])
  }

  /**
   * The effect of one record on the state. ABS_MT_SLOT selects a slot;
   * ABS_MT_TRACKING_ID, ABS_MT_POSITION_X and ABS_MT_POSITION_Y set that one
   * field of the current slot's entry; any other record changes nothing.
   */
  function Apply(st: ReaderState, e: InputEvent): (r: ReaderState)
    requires ValidState(st) && SlotInRange(e)
    ensures ValidState(r)
    ensures IsAbs(e, AbsMtSlot) ==> r.slot == e.value && r.table == st.table
    ensures !IsAbs(e, AbsMtSlot) ==> r.slot == st.slot
    ensures forall j :: 0 <= j < SlotCount && j != st.slot ==> r.table[j] == st.table[j]
    ensures r.table[st.slot].slot == st.table[st.slot].slot
    ensures r.table[st.slot].trackingId
         == if IsAbs(e, AbsMtTrackingId) then e.value else st.table[st.slot].trackingId
    ensures r.table[st.slot].pos.x
         == if IsAbs(e, AbsMtPositionX) then e.value as real else st.table[st.slot].pos.x
    ensures r.table[st.slot].pos.y
         == if IsAbs(e, AbsMtPositionY) then e.value as real else st.table[st.slot].pos.y
  {
    var tp := st.table[st.slot];
    if e.eventType != EvAbs then st
    else if e.code == AbsMtSlot then st.(slot := e.value)
    else if e.code == AbsMtTrackingId then st.(table := st.table[st.slot := tp.(trackingId := e.value)])
    else if e.code == AbsMtPositionX then st.(table := st.table[st.slot := tp.(pos := tp.pos.(x := e.value as real))])
    else if e.code == AbsMtPositionY then st.(table := st.table[st.slot := tp.(pos := tp.pos.(y := e.value as real))])
    else st
  }

  /**
   * What a SYN_REPORT reports: nothing without a UI context; otherwise the
   * pointer is down at the converted position of the current slot's contact
   * when its tracking id is non-negative, and up when it is negative.
   */
  function Report(st: ReaderState, view: View, hasContext: bool): (out: seq<PointerOutput>)
    requires ValidState(st)
    ensures !hasContext <==> out == []
    ensures out == [PointerUp] <==> hasContext && st.table[st.slot].trackingId < 0
    ensures forall p :: out == [PointerDown(p)] <==>
              hasContext && st.table[st.slot].trackingId >= 0
              && p == PhysicalToScreen(view.orientation, view.screen, st.table[st.slot].pos, view.scale)
  {
    if !hasContext then []
    else
      var tp := st.table[st.slot];
      if tp.trackingId >= 0 then [PointerDown(PhysicalToScreen(view.orientation, view.screen, tp.pos, view.scale))]
      else [PointerUp]
  }

  /** Decodes a run of records in order: the final state and the reports made along the way. */
  function Run(st: ReaderState, events: seq<InputEvent>, view: View, hasContext: bool): (r: (ReaderState, seq<PointerOutput>))
    requires ValidState(st) && AllSlotsInRange(events)
    ensures ValidState(r.0)
    decreases |events|
  {
    if events == [] then (st, [])
    else
      var prefix := Run(st, events[..|events| - 1], view, hasContext);
      var e := events[|events| - 1];
      (Apply(prefix.0, e), prefix.1 + if IsSynReport(e) then Report(prefix.0, view, hasContext) else [])
  }

  /** Decoding one more record: apply it to the state reached, and report if it is a SYN_REPORT. */
  lemma RunSnoc(st: ReaderState, events: seq<InputEvent>, e: InputEvent, view: View, hasContext: bool)
    requires ValidState(st) && AllSlotsInRange(events) && SlotInRange(e)
    ensures AllSlotsInRange(events + [e])
    ensures var prefix := Run(st, events, view, hasContext);
            Run(st, events + [e], view, hasContext)
            == (Apply(prefix.0, e), prefix.1 + if IsSynReport(e) then Report(prefix.0, view, hasContext) else [])
  {
    assert (events + [e])[..|events|] == events;
  }

  /** Number of SYN_REPORT records in a run. */
  function SynCount(events: seq<InputEvent>): nat
  {
    if events == [] then 0
    else SynCount(events[..|events| - 1]) + if IsSynReport(events[|events| - 1]) then 1 else 0
  }

  /** With a UI context there is exactly one report per SYN_REPORT; without one there are none. */
  lemma {:induction false} OneReportPerSyn(st: ReaderState, events: seq<InputEvent>, view: View, hasContext: bool)
    requires ValidState(st) && AllSlotsInRange(events)
    ensures hasContext ==> |Run(st, events, view, hasContext).1| == SynCount(events)
    ensures !hasContext ==> Run(st, events, view, hasContext).1 == []
    decreases |events|
  {
    if events != [] {
      OneReportPerSyn(st, events[..|events| - 1], view, hasContext);
    }
  }

  /** Does the run contain an ABS_MT_SLOT record selecting slot `j`? */
  predicate SelectsSlot(events: seq<InputEvent>, j: int)
  {
    exists i :: 0 <= i < |events| && events[i] == SlotEvent(j)
  }

  /**
   * A slot that is not current at the start and that no record of the run
   * selects is never current during the run, so its entry is unchanged.
   */
  lemma {:induction false} UnselectedSlotUnchanged(st: ReaderState, events: seq<InputEvent>, view: View, hasContext: bool, j: int)
    requires ValidState(st) && AllSlotsInRange(events)
    requires 0 <= j < SlotCount && j != st.slot && !SelectsSlot(events, j)
    ensures Run(st, events, view, hasContext).0.slot != j
    ensures Run(st, events, view, hasContext).0.table[j] == st.table[j]
    decreases |events|
  {
    if events != [] {
      var init := events[..|events| - 1];
      UnselectedSlotUnchanged(st, init, view, hasContext, j);
      if IsAbs(events[|events| - 1], AbsMtSlot) {
        assert events[|events| - 1] != SlotEvent(j);
      }
    }
  }

  /** Decoding two runs one after the other is decoding their concatenation. */
  lemma {:induction false} RunAppend(st: ReaderState, a: seq<InputEvent>, b: seq<InputEvent>, view: View, hasContext: bool)
    requires ValidState(st) && AllSlotsInRange(a) && AllSlotsInRange(b)
    ensures AllSlotsInRange(a + b)
    ensures Run(st, a + b, view, hasContext)
         == (Run(Run(st, a, view, hasContext).0, b, view, hasContext).0,
             Run(st, a, view, hasContext).1 + Run(Run(st, a, view, hasContext).0, b, view, hasContext).1)
    decreases |b|
  {
    if b == [] {
      assert a + b == a;
      var mid := Run(st, a, view, hasContext);
      assert Run(mid.0, b, view, hasContext) == (mid.0, []);
      assert mid.1 + [] == mid.1;
    } else {
      var b' := b[..|b| - 1];
      assert (a + b)[..|a + b| - 1] == a + b';
      assert a + b == (a + b') + [b[|b| - 1]];
      RunAppend(st, a, b', view, hasContext);
      var mid := Run(st, a, view, hasContext);
      var inner := Run(mid.0, b', view, hasContext);
      var e := b[|b| - 1];
      var report := if IsSynReport(e) then Report(inner.0, view, hasContext) else [];
      assert Run(mid.0, b, view, hasContext) == (Apply(inner.0, e), inner.1 + report);
      assert Run(st, a + b, view, hasContext) == (Apply(inner.0, e), (mid.1 + inner.1) + report);
      assert (mid.1 + inner.1) + report == mid.1 + (inner.1 + report);
    }
  }

  /**
   * `size_t` conversion of the value `read` returns: an error (-1) becomes
   * the largest `size_t`.
   */
  function ToSizeT(n: int): (r: nat)
    ensures r < 0x1_0000_0000_0000_0000
    ensures 0 <= n < 0x1_0000_0000_0000_0000 ==> r == n
  {
    n % 0x1_0000_0000_0000_0000
  }

  /** One `read`: the number it returns (-1 on error) and the buffer's records afterwards. */
  datatype ReadResult = ReadResult(size: int, buffer: seq<InputEvent>)

  /** A `read` fills at most the buffer, or fails with -1. */
  predicate ReadWellFormed(rd: ReadResult)
  {
    |rd.buffer| == ReadBufferRecords && -1 <= rd.size <= ReadBufferRecords * InputEventSize
  }

  /**
   * The records a `read` delivers: the first size/24 records of the buffer
   * when the byte count is positive and a whole number of records, and none
   * otherwise (the read is skipped). An error return is always skipped.
   */
  function Batch(rd: ReadResult): (batch: seq<InputEvent>)
    requires ReadWellFormed(rd)
    ensures 0 < rd.size && rd.size % InputEventSize == 0 ==>
              |batch| * InputEventSize == rd.size && batch == rd.buffer[..|batch|]
    ensures rd.size <= 0 || rd.size % InputEventSize != 0 ==> batch == []
  {
    var readSize := ToSizeT(rd.size);
    if readSize <= 0 || readSize % InputEventSize != 0 then []
    else rd.buffer[..readSize / InputEventSize]
  }

  predicate ReadsWellFormed(results: seq<ReadResult>)
  {
    forall k :: 0 <= k < |results| ==> ReadWellFormed(results[k]) && AllSlotsInRange(Batch(results[k]))
  }

  /** Decodes a sequence of results; the current slot carries over from one read to the next. */
  function RunReads(st: ReaderState, results: seq<ReadResult>, view: View, hasContext: bool): (r: (ReaderState, seq<PointerOutput>))
    requires ValidState(st) && ReadsWellFormed(results)
    ensures ValidState(r.0)
    decreases |results|
  {
    if results == [] then (st, [])
    else
      var prefix := RunReads(st, results[..|results| - 1], view, hasContext);
      var last := Run(prefix.0, Batch(results[|results| - 1]), view, hasContext);
      (last.0, prefix.1 + last.1)
  }
}
