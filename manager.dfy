/**
 * The touch manager: its state, the device record it owns with the
 * device's slot table, and the operations that change them. System calls
 * are parameters and results: the directory listing and the probe of each
 * candidate come in, the records of each `read` come in, and the frames
 * written to the device and the descriptors closed go out.
 */
module Manager {
  import opened Options
  import opened Geometry
  import opened InputEvents
  import opened TouchTypes
  import opened Capability
  import opened Discovery
  import opened Transform
  import opened Reader
  import opened Encoder

  /** The selected device: its descriptor (-1 when none), path, scale and slot table. */
  class TouchDevice {
    var fd: int
    var path: string
    var scale: Vector2
    const touchPoints: array<TouchPoint>

    /** A fresh device has no descriptor, an empty path, scale (0, 0) and ten fresh slots. */
    constructor ()
      ensures fd == -1 && path == "" && scale == Zero
      ensures fresh(touchPoints) && touchPoints.Length == SlotCount
      ensures touchPoints[..] == FreshTable()
    {
      fd := -1;
      path := "";
      scale := Vector2(0.0, 0.0);
      touchPoints := new TouchPoint[SlotCount](_ => FreshTouchPoint());
    }
  }

  /** The size stored by `Init`: the given size with its long side first. */
  function Landscape(screen: Vector2): (r: Vector2)
    ensures r.x >= r.y
    ensures r == screen || r == Vector2(screen.y, screen.x)
  {
    if screen.x > screen.y then screen else Vector2(screen.y, screen.x)
  }

  class TouchManager {
    var isUploading: bool
    var initialized: bool
    var screenOrientation: int
    var screenSize: Vector2
    var isPhysicalPos: bool
    /** The injected contact. */
    var touchPoint: TouchPoint
    /** Whether no contact has been written since the last release (a function-static flag in the source). */
    var isFirstDown: bool
    const touchDevice: TouchDevice

    /**
     * The manager is initialised exactly when it holds a device descriptor;
     * the injected contact is either released or carries the injected
     * tracking id, and the upload flags agree with which.
     */
    predicate Valid()
      reads this, touchDevice
    {
      && touchDevice.touchPoints.Length == SlotCount
      && (initialized <==> touchDevice.fd != -1)
      && (touchPoint.trackingId == NoContact || touchPoint.trackingId == InjectedTrackingId)
      && (touchPoint.slot == -1 || touchPoint.slot == InjectedSlot)
      && (isFirstDown <==> touchPoint.trackingId == NoContact)
      && (isUploading <==> touchPoint.trackingId != NoContact)
    }

    /** The reader's conversion parameters. */
    function CurrentView(): View
      reads this, touchDevice
    {
      View(screenOrientation, screenSize, touchDevice.scale)
    }

    /** A fresh manager: not initialised, not uploading, orientation 0, no screen size, screen coordinates. */
    constructor ()
      ensures Valid()
      ensures !initialized && !isUploading && screenOrientation == 0
      ensures screenSize == Zero && !isPhysicalPos
      ensures touchPoint == FreshTouchPoint() && isFirstDown
      ensures fresh(touchDevice) && fresh(touchDevice.touchPoints)
      ensures touchDevice.fd == -1 && touchDevice.path == "" && touchDevice.scale == Zero
      ensures touchDevice.touchPoints[..] == FreshTable()
    {
      isUploading := false;
      initialized := false;
      screenOrientation := 0;
      screenSize := Vector2(0.0, 0.0);
      isPhysicalPos := false;
      touchPoint := FreshTouchPoint();
      isFirstDown := true;
      touchDevice := new TouchDevice();
    }

    method SetScreenOrientation(orientation: int)
      requires Valid()
      modifies this`screenOrientation
      ensures Valid() && screenOrientation == orientation
    {
      screenOrientation := orientation;
    }

    /**
     * Releases the device: a no-op when not initialised, otherwise closes the
     * descriptor and clears it. Returns the descriptor it closed. A second
     * call is therefore always a no-op.
     */
    method Close() returns (closed: Option<int>)
      requires Valid()
      modifies this`initialized, touchDevice`fd
      ensures Valid() && !initialized && touchDevice.fd == -1
      ensures !old(initialized) ==> closed == None
      ensures old(initialized) ==> closed == Some(old(touchDevice.fd))
    {
      if !initialized {
        return None;
      }
      initialized := false;
      closed := Some(touchDevice.fd);
      touchDevice.fd := -1;
    }

    /**
     * Tries the candidates in order and keeps the first that opens and passes
     * the multi-touch test, and stops there. Returns the candidates it
     * opened (always a prefix of `paths`) and the descriptors it closed
     * again, those of the earlier candidates that opened but failed the test.
     */
    method SetTouchDevices(paths: seq<string>, probe: string -> Probe) returns (attempted: seq<string>, closedFds: seq<nat>)
      requires forall path :: ProbeWellFormed(probe(path))
      modifies touchDevice`fd, touchDevice`path, touchDevice`scale
      ensures match FirstTouchDevice(paths, probe)
        case Some(k) =>
          && touchDevice.fd == probe(paths[k]).fd
          && touchDevice.path == paths[k]
          && touchDevice.scale == probe(paths[k]).scale
          && attempted == paths[..k + 1]
          && closedFds == RejectedFds(paths[..k], probe)
        case None =>
          && touchDevice.fd == old(touchDevice.fd)
          && touchDevice.path == old(touchDevice.path)
          && touchDevice.scale == old(touchDevice.scale)
          && attempted == paths
          && closedFds == RejectedFds(paths, probe)
    {
      closedFds := [];
      var i := 0;
      var found := false;
      while i < |paths|
        invariant 0 <= i <= |paths|
        invariant forall j :: 0 <= j < i ==> !Qualifies(probe(paths[j]))
        invariant closedFds == RejectedFds(paths[..i], probe)
        invariant !found
        invariant touchDevice.fd == old(touchDevice.fd) && touchDevice.path == old(touchDevice.path)
        invariant touchDevice.scale == old(touchDevice.scale)
      {
        var outcome := probe(paths[i]);
        assert paths[..i + 1][..i] == paths[..i];
        if outcome.OpenFailed? {
          i := i + 1;
          continue;
        }
        if CheckIsTouchDevice(outcome.absBits) {
          touchDevice.scale := outcome.scale;
          touchDevice.fd := outcome.fd;
          touchDevice.path := paths[i];
          found := true;
          break;
        } else {
          closedFds := closedFds + [outcome.fd];
        }
        i := i + 1;
      }
      if found {
        attempted := paths[..i + 1];
      } else {
        assert paths[..i] == paths;
        attempted := paths;
      }
    }

    /**
     * The reader loop, over the reads the device delivers before it stops.
     * It returns at once when the manager is not initialised; otherwise it
     * decodes each accepted read into the device's slot table, starting with
     * slot 0 current, and returns the pointer reports.
     */
    method ReadTouchEvent(results: seq<ReadResult>, hasContext: bool) returns (outputs: seq<PointerOutput>)
      requires Valid() && ReadsWellFormed(results)
      modifies touchDevice.touchPoints
      ensures !initialized ==> outputs == [] && touchDevice.touchPoints[..] == old(touchDevice.touchPoints[..])
      ensures initialized ==>
                var r := RunReads(ReaderState(0, old(touchDevice.touchPoints[..])), results, CurrentView(), hasContext);
                touchDevice.touchPoints[..] == r.0.table && outputs == r.1
    {
      var table := touchDevice.touchPoints;
      var view := CurrentView();
      ghost var start := ReaderState(0, table[..]);
      var currentSlot := 0;
      outputs := [];
      if !initialized {
        return;
      }
      var k := 0;
      while k < |results|
        invariant 0 <= k <= |results|
        invariant RunReads(start, results[..k], view, hasContext) == (ReaderState(currentSlot, table[..]), outputs)
      {
        if !initialized {
          return;
        }
        assert results[..k + 1][..k] == results[..k];
        var batchOutputs;
        currentSlot, batchOutputs := ProcessRead(table, currentSlot, results[k], view, hasContext);
        outputs := outputs + batchOutputs;
        k := k + 1;
      }
      assert results[..k] == results;
    }

    /**
     * Builds the frame for the injected contact in a buffer of 221 records,
     * updating the first-down flag; the frame is what is written to the
     * device.
     */
    method UploadTouchEvent() returns (frame: seq<InputEvent>)
      modifies this`isFirstDown
      ensures frame == EncodeFrame(touchPoint, old(isFirstDown)).0
      ensures isFirstDown == EncodeFrame(touchPoint, old(isFirstDown)).1
    {
      var events := new InputEvent[UploadBufferRecords](_ => InputEvent(0, 0, 0));
      var eventCount := 0;
      if touchPoint.trackingId != NoContact {
        events[eventCount] := SlotEvent(touchPoint.slot);
        eventCount := eventCount + 1;
        events[eventCount] := TrackingIdEvent(touchPoint.trackingId);
        eventCount := eventCount + 1;
        events[eventCount] := PositionXEvent(TruncateToInt(touchPoint.pos.x));
        eventCount := eventCount + 1;
        events[eventCount] := PositionYEvent(TruncateToInt(touchPoint.pos.y));
        eventCount := eventCount + 1;
        if isFirstDown {
          isFirstDown := false;
        }
      } else {
        if !isFirstDown {
          events[eventCount] := SlotEvent(touchPoint.slot);
          eventCount := eventCount + 1;
          events[eventCount] := TrackingIdEvent(NoContact);
          eventCount := eventCount + 1;
          isFirstDown := true;
        }
      }
      events[eventCount] := SynReportEvent;
      eventCount := eventCount + 1;
      frame := events[..eventCount];
    }

    /**
     * Injects a contact at `pos`: marks the upload as in progress, gives the
     * contact the injected tracking id, stores the position converted to
     * device units, and writes the contact's frame. Nothing checks that the
     * manager is initialised; the division needs a nonzero device scale.
     */
    method Down(pos: Vector2) returns (frame: seq<InputEvent>)
      requires Valid() && touchDevice.scale.NotHaveZero()
      modifies this`isUploading, this`touchPoint, this`isFirstDown
      ensures Valid() && isUploading && !isFirstDown
      ensures touchPoint == old(touchPoint).(trackingId := InjectedTrackingId,
                pos := InjectedPosition(isPhysicalPos, screenOrientation, screenSize, touchDevice.scale, pos))
      ensures frame == EncodeFrame(touchPoint, old(isFirstDown)).0
    {
      isUploading := true;
      var physicalPos := if isPhysicalPos then Vector2(pos.x, pos.y) else ScreenToPhysical(screenOrientation, screenSize, pos);
      touchPoint := touchPoint.(trackingId := InjectedTrackingId,
        pos := Vector2(physicalPos.x / touchDevice.scale.x, physicalPos.y / touchDevice.scale.y));
      frame := UploadTouchEvent();
    }

    /** Moving the contact is the same operation as putting it down. */
    method Move(pos: Vector2) returns (frame: seq<InputEvent>)
      requires Valid() && touchDevice.scale.NotHaveZero()
      modifies this`isUploading, this`touchPoint, this`isFirstDown
      ensures Valid() && isUploading && !isFirstDown
      ensures touchPoint == old(touchPoint).(trackingId := InjectedTrackingId,
                pos := InjectedPosition(isPhysicalPos, screenOrientation, screenSize, touchDevice.scale, pos))
      ensures frame == EncodeFrame(touchPoint, old(isFirstDown)).0
    {
      frame := Down(pos);
    }

    /**
     * Lifts the contact: gives it tracking id -1 (slot and position stay),
     * writes its frame, then clears the upload flag.
     */
    method Up() returns (frame: seq<InputEvent>)
      requires Valid()
      modifies this`isUploading, this`touchPoint, this`isFirstDown
      ensures Valid() && !isUploading && isFirstDown
      ensures touchPoint == old(touchPoint).(trackingId := NoContact)
      ensures frame == EncodeFrame(touchPoint, old(isFirstDown)).0
    {
      touchPoint := touchPoint.(trackingId := NoContact);
      frame := UploadTouchEvent();
      isUploading := false;
    }

    /**
     * The device part of `Init`: scans the input directory and, when it lists
     * any event node, selects the first touch device among them. Returns the
     * descriptors of the rejected candidates: those that opened but failed
     * the test, up to the selected one or among all when none qualifies.
     */
    method DiscoverDevice(listing: Option<seq<string>>, probe: string -> Probe) returns (rejected: seq<nat>)
      requires forall path :: ProbeWellFormed(probe(path))
      modifies touchDevice`fd, touchDevice`path, touchDevice`scale
      ensures var paths := ListedPaths(listing);
              match FirstTouchDevice(paths, probe)
              case Some(k) =>
                && touchDevice.fd == probe(paths[k]).fd
                && touchDevice.path == paths[k]
                && touchDevice.scale == probe(paths[k]).scale
              case None =>
                && touchDevice.fd == old(touchDevice.fd)
                && touchDevice.path == old(touchDevice.path)
                && touchDevice.scale == old(touchDevice.scale)
      ensures rejected == SelectionRejects(ListedPaths(listing), probe)
    {
      var inputDevicesPath := ScanInputDevicesPath(listing);
      if inputDevicesPath == [] {
        return [];
      }
      var attempted;
      attempted, rejected := SetTouchDevices(inputDevicesPath, probe);
    }

    /**
     * (Re)initialises: closes any open device, records the coordinate mode,
     * fixes the injected slot at 9, stores the screen size with its long
     * side first, scans for event nodes and selects the first touch device.
     * The manager ends initialised exactly when a device was selected.
     * Returns the descriptors closed along the way: the previous device's,
     * if the manager was initialised, then those of the rejected candidates.
     */
    method Init(screen: Vector2, isPhysical: bool, listing: Option<seq<string>>, probe: string -> Probe)
      returns (closedFds: seq<int>)
      requires Valid() && forall path :: ProbeWellFormed(probe(path))
      modifies this`initialized, this`isPhysicalPos, this`touchPoint, this`screenSize
      modifies touchDevice`fd, touchDevice`path, touchDevice`scale
      ensures Valid()
      ensures isPhysicalPos == isPhysical && screenSize == Landscape(screen)
      ensures touchPoint == old(touchPoint).(slot := InjectedSlot)
      ensures var paths := ListedPaths(listing);
              match FirstTouchDevice(paths, probe)
              case Some(k) =>
                && initialized
                && touchDevice.fd == probe(paths[k]).fd
                && touchDevice.path == paths[k]
                && touchDevice.scale == probe(paths[k]).scale
              case None =>
                && !initialized && touchDevice.fd == -1
                && touchDevice.path == old(touchDevice.path)
                && touchDevice.scale == old(touchDevice.scale)
      ensures closedFds == (if old(initialized) then [old(touchDevice.fd)] else [])
                           + SelectionRejects(ListedPaths(listing), probe)
    {
      var closed := Close();
      closedFds := if closed.Some? then [closed.value] else [];
      assert closedFds == if old(initialized) then [old(touchDevice.fd)] else [];
      isPhysicalPos := isPhysical;
      touchPoint := touchPoint.(slot := InjectedSlot);
      screenSize := Landscape(screen);
      var rejected := DiscoverDevice(listing, probe);
      closedFds := closedFds + rejected;
      if touchDevice.fd == -1 {
        return;
      }
      initialized := true;
    }
  }

  /**
   * The body of the reader's inner loop over one record: selects a slot or
   * sets one field of the current slot's entry in place, and reports the
   * pointer on a SYN_REPORT.
   */
  method HandleEvent(table: array<TouchPoint>, slot: int, event: InputEvent, view: View, hasContext: bool)
    returns (newSlot: int, out: seq<PointerOutput>)
    requires table.Length == SlotCount && 0 <= slot < SlotCount && SlotInRange(event)
    modifies table
    ensures ReaderState(newSlot, table[..]) == Apply(ReaderState(slot, old(table[..])), event)
    ensures out == if IsSynReport(event) then Report(ReaderState(slot, old(table[..])), view, hasContext) else []
  {
    newSlot, out := slot, [];
    if event.eventType == EvAbs {
      if event.code == AbsMtSlot {
        newSlot := event.value;
        return;
      }
      if event.code == AbsMtTrackingId {
        table[slot] := table[slot].(trackingId := event.value);
        return;
      }
      if event.code == AbsMtPositionX {
        var tp := table[slot];
        table[slot] := tp.(pos := tp.pos.(x := event.value as real));
        return;
      }
      if event.code == AbsMtPositionY {
        var tp := table[slot];
        table[slot] := tp.(pos := tp.pos.(y := event.value as real));
        return;
      }
    }
    if event.eventType == EvSyn && event.code == SynReport {
      if !hasContext {
        return;
      }
      var tp := table[slot];
      if tp.trackingId >= 0 {
        var pos := PhysicalToScreen(view.orientation, view.screen, tp.pos, view.scale);
        out := [PointerDown(pos)];
      } else {
        out := [PointerUp];
      }
    }
  }

  /**
   * One pass of the reader loop: skips the read unless its byte count is a
   * positive whole number of records, and otherwise decodes those records.
   */
  method ProcessRead(table: array<TouchPoint>, slot: int, rd: ReadResult, view: View, hasContext: bool)
    returns (newSlot: int, out: seq<PointerOutput>)
    requires table.Length == SlotCount && 0 <= slot < SlotCount
    requires ReadWellFormed(rd) && AllSlotsInRange(Batch(rd))
    modifies table
    ensures (ReaderState(newSlot, table[..]), out) == Run(ReaderState(slot, old(table[..])), Batch(rd), view, hasContext)
  {
    var readSize := ToSizeT(rd.size);
    if readSize <= 0 || readSize % InputEventSize != 0 {
      return slot, [];
    }
    var eventCount := readSize / InputEventSize;
    newSlot, out := DecodeBatch(table, slot, rd.buffer, eventCount, view, hasContext);
  }

  /** The reader's inner loop: decodes the first `eventCount` records of the read buffer in order. */
  method DecodeBatch(table: array<TouchPoint>, slot: int, buffer: seq<InputEvent>, eventCount: nat, view: View, hasContext: bool)
    returns (newSlot: int, out: seq<PointerOutput>)
    requires table.Length == SlotCount && 0 <= slot < SlotCount
    requires eventCount <= |buffer| && AllSlotsInRange(buffer[..eventCount])
    modifies table
    ensures (ReaderState(newSlot, table[..]), out) == Run(ReaderState(slot, old(table[..])), buffer[..eventCount], view, hasContext)
  {
    ghost var start := ReaderState(slot, table[..]);
    newSlot, out := slot, [];
    var i := 0;
    while i < eventCount
      invariant 0 <= i <= eventCount
      invariant (ReaderState(newSlot, table[..]), out) == Run(start, buffer[..i], view, hasContext)
    {
      var event := buffer[i];
      assert buffer[..i + 1] == buffer[..i] + [event];
      assert buffer[..eventCount][i] == event;
      RunSnoc(start, buffer[..i], event, view, hasContext);
      var eventOut;
      newSlot, eventOut := HandleEvent(table, newSlot, event, view, hasContext);
      out := out + eventOut;
      i := i + 1;
    }
  }
}
