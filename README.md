# Kernel touch driver library: model of the touch manager

This project models `TouchManager`, a user-space touch injector for Linux
touchscreens in Dafny, and proves properties about the model. The manager:

- finds the touchscreen among the event nodes under `/dev/input/`;
- classifies a node by testing four bits of its absolute-axis capability
  bitmask;
- decodes the device's multi-touch "type B" slot protocol stream
  (Documentation/input/multi-touch-protocol.rst, "Protocol Example B") into
  a ten-entry slot table and pointer reports;
- converts between the panel's physical frame and the landscape screen frame
  for the screen rotations;
- injects one synthetic contact (slot 9, tracking id 5200) by writing
  `(type, code, value)` frames back to the same device.

Events use the codes of linux/input-event-codes.h: EV_SYN=0, EV_ABS=3,
SYN_REPORT=0, ABS_MT_SLOT=0x2f, ABS_MT_POSITION_X=0x35,
ABS_MT_POSITION_Y=0x36 and ABS_MT_TRACKING_ID=0x39.

## Modules

| module | file | what it holds |
|---|---|---|
| `Options` | options.dfy | the `Option` datatype |
| `Geometry` | vector2.dfy | `Vector2`: value operators as datatype members, and the compound assignments as methods of the class `Vector2Var` |
| `InputEvents` | input_events.dfy | event codes, the `InputEvent` record, and C's float-to-int truncation |
| `TouchTypes` | touch_types.dfy | `TouchPoint`, the table size, the injected slot and tracking id, and the bitmask sizes |
| `Capability` | capability.dfy | `CheckKeyBit` over 64-bit words, and `CheckIsTouchDevice` |
| `Discovery` | discovery.dfy | `std::string::find`, the directory scan (a loop), and first-match device selection |
| `Transform` | transform.dfy | the two orientation remaps, and the position stored for an injected point |
| `Reader` | reader.dfy | the slot-protocol decoder as specification functions |
| `Encoder` | encoder.dfy | the frame written for the injected contact, and what a slot-protocol reader makes of it |
| `Manager` | manager.dfy | the classes `TouchDevice` and `TouchManager`, whose methods are proved against the functions above |
| `Scenario` | scenario.dfy | one concrete tap: `Init`, then `Down`, `Up`, `Up` |

### How system calls appear in the model

- **Directory listing:** `Option<seq<string>>`. `None` means `opendir` failed.
- **`open` and the capability query on each path:** a function `path -> Probe`. `OpenFailed` stands for `open` returning -1. `Opened(fd, absBits, scale)` gives the descriptor, the words from `EVIOCGBIT` (or `None` if that `ioctl` failed), and the device scale.
- **Each `read`:** a `ReadResult` with the raw return value and the 788-record buffer.
- **`write` and `close`:** become results. Methods return the frame written and the descriptors closed.
- **ImGui:** the reader's calls into ImGui become a list of `PointerDown(p)` and `PointerUp` reports. A flag says whether a UI context exists.

### Properties of the code worth knowing

- **Fall-through orientation.** The two remaps are inverse only for orientations 0, 1 and 3.
  - For any other value, screen→physical→screen swaps the two components (`ScreenToPhysical` ensures).
  - Physical→screen→physical gives `(H−W+y, W−H+x)` (`PhysicalRoundTrip`). It returns the point only when `x − y = H − W` (`FallThroughRoundTripIff`).
- **Worked example.** Orientation 1 on a 1920x1080 screen shows physical (100, 200) at (200, 1080 − 100) = (200, 980) (`RotationOneExample`).
- **No initialisation guard.** `Down`/`Move`/`Up` do not check that the manager is initialised: they build and write the frame regardless, and `Down` divides by the device scale. The model keeps the writes. `Down` requires a nonzero scale (see "Left out").

## Model

| member | source | states |
|---|---|---|
| Geometry.Vector2.Plus | vector2.h:15-17 | vector sum; subtracting the addend again gives back the original |
| Geometry.Vector2.PlusScalar | vector2.h:19-21 | adding a scalar is adding the vector (s, s) |
| Geometry.Vector2.Minus | vector2.h:23-25 | componentwise difference: adding the subtrahend back gives each original component |
| Geometry.Vector2.MinusScalar | vector2.h:27-29 | subtracting a scalar is subtracting (s, s), and adding the scalar back undoes it |
| Geometry.Vector2.Times | vector2.h:31-33 | componentwise product, for every factor; guarded division by a factor without zeros undoes it |
| Geometry.Vector2.TimesScalar | vector2.h:35-37 | scaling by s is the product with (s, s) |
| Geometry.Vector2.DividedBy | vector2.h:39-44 | with no zero in the divisor, the result times the divisor is the dividend; otherwise the result is (0, 0) |
| Geometry.Vector2.DividedByScalar | vector2.h:46-51 | division by a nonzero scalar is inverted by multiplying; division by 0 gives (0, 0) |
| Geometry.Vector2.Negated | vector2.h:53-55 | the negation added to the vector is (0, 0) |
| Geometry.Vector2.Equals | vector2.h:106-108 | `==` holds exactly when the two vectors are equal |
| Geometry.Vector2.NotEquals | vector2.h:110-112 | `!=` is exactly the negation of `==` |
| Geometry.PlusMinusInverse | vector2.h:15-25 | `+` commutes, and `-` undoes `+` in both orders |
| Geometry.TimesCommutes | vector2.h:31-33 | `*` commutes |
| Geometry.NotHaveZeroIffProduct | vector2.h:122-124 | a vector has no zero component exactly when the product of its components is nonzero |
| Geometry.DividedByInvertsTimes | vector2.h:39-44 | division undoes multiplication when the divisor has no zero; `NotHaveZero` is exactly the condition under which the guard lets division through |
| Geometry.DividedByScalarInvertsTimes | vector2.h:46-51 | scalar division and multiplication undo each other for a nonzero scalar |
| Geometry.NegatedTwice | vector2.h:53-55 | `-(-v) == v` |
| Geometry.MinusIsPlusNegated | vector2.h:23-25 | `a - b == a + (-b)` |
| Geometry.Vector2Var.constructor | vector2.h:10 | the default constructor gives (0, 0) |
| Geometry.Vector2Var.Of | vector2.h:12 | the two-argument constructor stores the components |
| Geometry.Vector2Var.PlusAssign | vector2.h:57-61 | `+=` leaves the variable equal to the old value `+` the operand |
| Geometry.Vector2Var.MinusAssign | vector2.h:64-68 | `-=` leaves the old value `-` the operand |
| Geometry.Vector2Var.PlusAssignScalar | vector2.h:70-74 | scalar `+=` matches scalar `+` |
| Geometry.Vector2Var.MinusAssignScalar | vector2.h:76-80 | scalar `-=` matches scalar `-` |
| Geometry.Vector2Var.TimesAssignScalar | vector2.h:82-86 | scalar `*=` matches scalar `*` |
| Geometry.Vector2Var.TimesAssign | vector2.h:88-92 | vector `*=` matches vector `*` |
| Geometry.Vector2Var.DivideAssignScalar | vector2.h:94-98 | `/=` has no guard, so it needs a nonzero divisor; it then matches guarded `/` |
| Geometry.Vector2Var.Assign | vector2.h:100-104 | `=` copies both components |
| Geometry.Vector2Var.SetZero | vector2.h:126-128 | `zero()` resets the variable to (0, 0) |
| InputEvents.TruncateToInt | touchc.cpp:256-261 | `(int)` conversion truncates toward zero: the result lies within one of the value, on the same side of zero |
| InputEvents.TruncateWhole | touchc.cpp:256-261 | a whole number survives the conversion unchanged |
| TouchTypes.FreshTouchPoint | touchc.h:47-51 | a fresh touch point has slot -1, tracking id -1 and position (0, 0) |
| TouchTypes.FreshTable | touchc.h:56 | a fresh table has exactly ten entries, all fresh |
| Capability.MaskedWord | touchc.cpp:62-63 | masking with `1UL << k` is nonzero exactly when bit k of the word is set |
| Capability.CheckKeyBit | touchc.cpp:58-64 | true iff the bit is below 512 and bit `bit % 64` of word `bit / 64` is set; at or beyond 512 it is false for any array, even an empty one |
| Capability.CheckIsTouchDevice | touchc.cpp:67-78 | true iff the query succeeded and bits 47, 57, 53 and 54 are all set |
| Capability.TouchAxesWordHasTheFourBits | touchc.cpp:72-75 | the sample word is exactly those four bits |
| Capability.SyntheticMask | touchc.cpp:68 | a 64-word mask with the given word first and the rest zero |
| Capability.SyntheticTouchMaskClassifies | touchc.cpp:67-78 | a mask with the four axes classifies as a touch device |
| Capability.SyntheticMaskMissingAxisRejected | touchc.cpp:72-77 | clearing any one of the four bits makes it not classify |
| Capability.FailedQueryRejects | touchc.cpp:69-71 | a failed capability query yields false |
| Discovery.FindFrom | touchc.cpp:49 | `find` gives an occurrence, and no earlier one exists; `npos` means none exists at all |
| Discovery.Find | touchc.cpp:49 | `s.find(pat)` is the first position where `pat` occurs, and `npos` means it occurs nowhere |
| Discovery.IsEventNode | touchc.cpp:49 | `find("event") == 0` holds exactly for names that start with "event" |
| Discovery.EventPaths | touchc.cpp:47-52 | the result is no longer than the listing, and every path starts with "/dev/input/event" |
| Discovery.EventPathsAppend | touchc.cpp:47-52 | the scan processes entries in order: scanning a concatenation appends the scans |
| Discovery.EventPathsMembers | touchc.cpp:47-52 | a path is in the result iff it is "/dev/input/" + an entry that starts with "event" |
| Discovery.ScanInputDevicesPath | touchc.cpp:38-55 | an unopenable directory yields no paths; otherwise the loop returns the event paths of the listing in directory order |
| Discovery.Qualifies | touchc.cpp:84-86 | a candidate qualifies iff it opens, its capability query succeeds, and the four axis bits are set |
| Discovery.FirstTouchDevice | touchc.cpp:83-98 | the selected index (if any) qualifies and no earlier candidate does; no selection means no candidate qualifies |
| Discovery.RejectedFds | touchc.cpp:95-97 | at most one descriptor per candidate, and a descriptor is closed iff some candidate opened with it and failed the test |
| Discovery.RejectedFdsBeforeMatch | touchc.cpp:95-97 | when no candidate qualifies, one descriptor is closed for every candidate that opened |
| Transform.ScreenToPhysical | touchc.cpp:286-307 | for orientations 0, 1 and 3, converting the result back to the screen at scale (1, 1) gives the input point; for any other value it gives the point with x and y swapped |
| Transform.PhysicalToScreen | touchc.cpp:22-36 | orientation 0 scales each axis and does not rotate |
| Transform.PanelOntoScreen | touchc.cpp:22-36 | a scaled point on the portrait panel lands on the landscape screen for orientations 1 and 3, and stays on the panel rectangle otherwise |
| Transform.ScaleThenRotate | touchc.cpp:22-36 | physical→screen scales each axis first and then applies the rotation |
| Transform.PhysicalRoundTrip | touchc.cpp:286-307 | physical→screen→physical is the identity for 0, 1 and 3, and gives (H−W+y, W−H+x) otherwise |
| Transform.FallThroughRoundTripIff | touchc.cpp:301-303 | in the fall-through branch (against line 32 of the forward remap), the round trip gives back the point iff x − y = H − W |
| Transform.RotationOneExample | touchc.cpp:27-29 | a 1920x1080 screen in orientation 1 shows physical (100, 200) at (200, 980), and the inverse maps it back |
| Transform.InjectedPosition | touchc.cpp:313-320 | multiplying the stored position by the scale gives back the physical point: the requested point in physical mode, otherwise its unscaled screen-to-physical remap |
| Transform.InjectedPointReadsBack | touchc.cpp:309-320 | the reader's conversion of the stored position shows the requested point for 0, 1 and 3, and the swapped point otherwise; in physical mode it shows the point in orientation 0 |
| Reader.Apply | touchc.cpp:120-139 | ABS_MT_SLOT sets the current slot and nothing else; TRACKING_ID, POSITION_X and POSITION_Y change only that field of the current slot's entry; every other slot is unchanged |
| Reader.Report | touchc.cpp:140-155 | no report without a UI context; otherwise "up" iff the current slot's tracking id is negative, and "down at p" iff it is non-negative and p is the converted position |
| Reader.Run | touchc.cpp:120-156 | decoding keeps the current slot inside the table |
| Reader.RunSnoc | touchc.cpp:120-156 | one more record extends the decoding by one `Apply` and its report |
| Reader.OneReportPerSyn | touchc.cpp:140-155 | with a context there is exactly one report per SYN_REPORT; without one there are none |
| Reader.UnselectedSlotUnchanged | touchc.cpp:123-138 | a slot that is not current at the start and not selected by any record never becomes current, and its entry is unchanged |
| Reader.RunAppend | touchc.cpp:120-156 | decoding a concatenation is decoding the parts in sequence |
| Reader.ToSizeT | touchc.cpp:114 | the `ssize_t`→`size_t` conversion is the identity on non-negative values and stays below 2^64 |
| Reader.Batch | touchc.cpp:114-121 | a read is accepted iff its byte count is a positive multiple of 24, and it then yields `size / 24` records; an error return (-1) is skipped |
| Reader.RunReads | touchc.cpp:111-157 | the current slot stays inside the table across reads |
| Encoder.EncodeFrame | touchc.cpp:237-285 | every frame has between 1 and 221 records, ends with its only SYN_REPORT, and every other record is EV_ABS; afterwards the flag says whether the contact is released |
| Encoder.ReleaseIff | touchc.cpp:243-278 | a frame carries tracking id -1 iff the contact is released and the flag was clear |
| Encoder.ContactRecords | touchc.cpp:244-262 | four EV_ABS records, no SYN_REPORT, each of the four multi-touch axes exactly once |
| Encoder.ActiveFrameDecodes | touchc.cpp:243-263 | for an active contact, a slot-protocol reader ends on the contact's slot with its tracking id and transmitted position, and reports the pointer down there |
| Encoder.ContactRecordsDecode | touchc.cpp:244-262 | the four contact records select the slot and set its tracking id and position |
| Encoder.ReleaseFrameDecodes | touchc.cpp:266-277 | a release frame makes the slot current with tracking id -1 and reports the pointer up |
| Encoder.IdleFrameDecodes | touchc.cpp:279-282 | a frame of only SYN_REPORT changes nothing, and reports the reader's current slot |
| Encoder.SlotAndIdDecode | touchc.cpp:244-252 | SLOT then TRACKING_ID makes the slot current with that tracking id |
| Encoder.Session | touchc.cpp:309-330 | a sequence of Down/Move/Up commands writes one frame per command |
| Encoder.ReleasesFollowPresses | touchc.cpp:264-277 | a release frame is written exactly for an Up directly after a Down/Move (or as the first command while the flag is clear) |
| Encoder.DownThenUps | touchc.cpp:264-277 | after a Down, any number of Ups write exactly one release frame, the first |
| Manager.TouchDevice.constructor | touchc.h:52-57 | a fresh device has fd -1, an empty path, scale (0, 0) and ten fresh slots |
| Manager.Landscape | touchc.cpp:164-168 | the stored screen size has x ≥ y and is the given size or its transpose |
| Manager.TouchManager.constructor | touchc.h:58-69 | a fresh manager is not initialised and not uploading, with orientation 0, screen size (0, 0), screen coordinates, a fresh contact, the flag set and a fresh device |
| Manager.TouchManager.SetScreenOrientation | touchc.cpp:332-334 | stores the orientation and changes nothing else |
| Manager.TouchManager.Close | touchc.cpp:230-235 | a no-op when not initialised; otherwise closes the descriptor and resets it to -1; it always ends uninitialised, so a second call is a no-op |
| Manager.TouchManager.SetTouchDevices | touchc.cpp:81-99 | takes the first qualifying candidate's fd, path and scale and stops, opening no later candidate; closes the earlier ones that opened; with no match the device is unchanged |
| Manager.TouchManager.ReadTouchEvent | touchc.cpp:107-158 | returns at once when not initialised; otherwise the table and the reports are those of `RunReads`, starting from slot 0 |
| Manager.TouchManager.UploadTouchEvent | touchc.cpp:237-285 | the frame written and the new flag are those of `EncodeFrame` for the contact and the old flag |
| Manager.TouchManager.Down | touchc.cpp:309-322 | sets the tracking id to 5200 and `is_uploading`, stores `InjectedPosition` of the point, keeps the slot, and writes the contact's frame |
| Manager.TouchManager.Move | touchc.cpp:324 | the same as `Down` |
| Manager.TouchManager.Up | touchc.cpp:325-330 | sets the tracking id to -1 (slot and position stay), writes the frame, and clears `is_uploading` |
| Manager.TouchManager.DiscoverDevice | touchc.cpp:170-176 | scanning and selecting leave the device of the first qualifying event node, or the device unchanged if none qualifies; returns the descriptors of the rejected candidates before the selection (all of them if none qualifies) |
| Manager.TouchManager.Init | touchc.cpp:160-190 | records the mode, fixes slot 9, stores the landscape size, and ends initialised exactly when a device was selected (with that device's fd, path and scale); otherwise fd is -1; the descriptors closed are the previous device's (when it was initialised) followed by the rejected candidates' |
| Manager.HandleEvent | touchc.cpp:121-155 | one record updates the table in place exactly as `Apply` and reports as `Report` |
| Manager.ProcessRead | touchc.cpp:114-156 | one pass of the read loop decodes exactly `Batch` of the read |
| Manager.DecodeBatch | touchc.cpp:118-156 | the inner loop's table, slot and reports are those of `Run` on the first `event_count` records |
| Scenario.TapListing | touchc.cpp:83-98 | a listing with one touch node yields that node's path, and it is selected |
| Scenario.Tap | touchc.cpp:309-330 | Down at (200, 200) with scale (0.5, 0.5) writes [SLOT 9, TRACKING_ID 5200, X 400, Y 400, SYN]; the first Up writes [SLOT 9, TRACKING_ID -1, SYN] and the second only [SYN] |

`TouchManager.Valid()` is required and ensured by the constructor, `SetScreenOrientation`, `Close`, `Down`, `Move`, `Up` and `Init`. `ReadTouchEvent` keeps it because its frame only allows it to change the slot table. `SetTouchDevices` and `DiscoverDevice` do not keep it: selecting a device sets a descriptor while `initialized` is still false. Inside `Init` the invariant is broken in that way for a moment, until `initialized` is set. `UploadTouchEvent` does not state it either. `Valid()` holds these invariants:

- `initialized` holds iff the device descriptor is not -1;
- the contact's tracking id is -1 or 5200, and its slot is -1 or 9;
- `isFirstDown` holds iff the contact is released;
- `isUploading` holds iff the contact is active.

## Left out

- System calls are inputs and outputs, not operations: `opendir`/`readdir`/`closedir`, `open`/`close`, `ioctl`, `read` and `write`. Their failures are inputs. `write`'s result is ignored in the source and is not modelled.
- Threads, the spinlock, the atomic nature of `is_uploading` and the detached reader and watchdog threads (touchc.cpp:184-188) are out. `Init` does not start `ReadTouchEvent`; the reader is a separate method over a finite sequence of reads. The source's `while (true)` loop runs until the manager is no longer initialised.
- `ConfirmHasUp` (touchc.cpp:198-206) is a sleep loop with no effect, so it is not modelled.
- The ImGui `io` writes and the `std::function` callback (including `SetHandleTouchPointCallback`) are out. Only the abstract pointer report is modelled.
- Positions are real numbers, not `float`. The model has no rounding, infinities or NaN. Truncation to `int` is exact, with no 32-bit range limit on the value.
- The device scale, `screen_size.y / abs_x.maximum` and `screen_size.x / abs_y.maximum`, is not computed. Note that the axes are swapped in it. The scale comes from the probe of the selected device (touchc.cpp:88-91).
- `Manager.TouchManager.Down`: requires a scale with no zero component. With the (0, 0) scale of a manager that was never initialised, the source divides by zero, and real numbers cannot represent the resulting infinities. `Move` inherits the same requirement.
- `Reader.Apply`: requires ABS_MT_SLOT values in 0..9. The source indexes the ten-entry table with the reported slot unchecked, which is undefined behaviour out of range. `AllSlotsInRange` and `ReadsWellFormed` pass the requirement to batches.
- `Reader.Batch`: requires the read's return value to be -1 or at most the buffer's 788 × 24 bytes, as `read` guarantees.
- `Discovery.FirstTouchDevice`: the probe of a path is a function, so opening the same path twice is assumed to give the same outcome.
- `Manager.TouchManager.ReadTouchEvent`: reports `PointerDown`/`PointerUp` where the source sets `io.MousePos` and `io.MouseDown[0]`.
- `Vector2::length` (which uses `sqrt`) and the pointer-arithmetic `operator[]` (vector2.h:114-120, 130-132) are not modelled.
- `GetInstance` and the deleted copy and move operations (touchc.h:32-36, 71-74) make the manager a singleton. Dafny has no static state, so the model works with one `TouchManager` object instead. The source's function-static `isFirstDown` becomes its field `isFirstDown`.
- touchc.cpp:208-228 is unreachable text that does not compile (a second `ReadTouchEvent`, and a file-scope assignment of slot 15), so it is not modelled. The model uses the definition at touchc.cpp:107 and the slot value 9 that `Init` sets.
- No record carries timestamps, and nothing in the manager reads or sets them.
- The model assumes a 64-bit (LP64) target: `sizeof(unsigned long)` is 8, so the bitmask words are 64 bits and the bit test is bounded by 512, and an `input_event` is 24 bytes. A 32-bit build has 32-bit words, a 256-bit bound and 16-byte records.
- The `std::cerr` messages (touchc.cpp:43, 172, 178) are output only and are not modelled.
- The compound assignment operators of vector2.h (for example vector2.h:60) return `*this` for chaining; the methods of `Vector2Var` return nothing.
