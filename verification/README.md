# Safety-zone monitor, modelled in Dafny

The monitor watches a camera feed. On every frame it asks whether any detected
person overlaps a fixed rectangular safety zone. It then runs edge-triggered
logic on that yes/no signal. On the false→true edge ("enter") it logs an enter
line. It also saves a snapshot if the save cooldown has elapsed, and sounds the
alarm if the alarm cooldown has elapsed. On the true→false edge ("exit") it logs
an exit line. The occupancy memory always takes the frame's decision.

This project models that per-frame logic and proves properties of it:

- `zone.dfy` (module `Zone`) covers the geometry. It holds the zone rectangle
  and the detections, the strict axis-aligned overlap test, and the "any person
  inside" scan. The scan appears twice: as a pure function, and as the source's
  loop that breaks at the first match.
- `monitor.dfy` (module `Monitor`) holds the monitor state
  `(wasInside, lastSaveTime, lastAlarmTime, violationCount)`, the four events
  Enter, Exit, Save and Alarm, and the one-frame step.
- `trace.dfy` (module `Trace`) folds the step over a sequence of
  `(inside, now)` frames. It proves the trace properties: edge detection,
  one Enter per maximal run of frames inside the zone, Enter/Exit alternation,
  the count of saves, and the cooldown spacing of saves and alarms.
- `loop.dfy` (module `Loop`) is the main loop over (detections, time) inputs.
  Each iteration takes the whole-frame step `Monitor.Tick`, and the loop is
  proved equal to the fold.
- `scenarios.dfy` (module `Scenarios`) holds concrete runs on the default
  configuration: zone (400, 20, 630, 200) and both cooldowns 5.

Time is an integer clock. The two cooldowns are parameters of a `Config`, and
`Monitor.Default` holds the source's values. Side effects are modelled as the
events a frame emits: the log line, the snapshot file and the sound.

## Model

| member | source | states |
|---|---|---|
| Zone.Overlaps | main.py:75 | For rectangles of positive size, the strict test holds exactly when the box and the zone share a region of positive area, so partial overlap counts. A box on or beyond any edge of the zone, touching edges included, never counts |
| Zone.InsideZone | main.py:68-78 | The frame counts as inside exactly when some detection is labelled "person" and its box overlaps the zone |
| Zone.FirstIntruder | main.py:68-78 | The loop with `break` finds a match exactly when the frame is inside; the match is an overlapping person, and no earlier detection is one |
| Zone.OverlapsSymmetric | main.py:75 | The strict overlap test gives the same answer with the two rectangles swapped |
| Zone.ContainedOverlaps | main.py:75 | A positive-size box lying wholly inside the zone overlaps it |
| Zone.InsideZoneAppend | main.py:68-78 | Splitting the detection list anywhere, the frame is inside exactly when either part has a person inside |
| Zone.NonPersonIgnored | main.py:70-71 | Inserting a detection with any label other than "person", anywhere in the list, never changes the decision |
| Zone.OrderIrrelevant | main.py:69-78 | Any reordering of the detections gives the same decision |
| Monitor.Step | main.py:81-98 | `wasInside` takes the frame's decision. Enter fires exactly on false→true and Exit exactly on true→false, never together, and a frame without an edge emits nothing. Save and Alarm each fire exactly on an Enter whose own cooldown has elapsed. Each timer moves to `now` only when its event fires. The count rises by one exactly on a Save |
| Monitor.Tick | main.py:67-98 | One whole loop iteration in terms of the detections. `wasInside` becomes "some person overlaps the zone". Enter fires exactly when some person overlaps and `wasInside` was false. Exit fires exactly when no person overlaps and `wasInside` was true. Save and Alarm each fire exactly on an Enter whose own cooldown has elapsed. The timers and the count move exactly as in `Monitor.Step` |
| Monitor.StepTimer | main.py:84-92 | Either timer, by itself: its event fires exactly on an Enter whose cooldown has elapsed, and only its own event moves it, so the save and alarm timers are independent |
| Monitor.TimedNeedsEnter | main.py:81-92 | A Save or an Alarm only happens on a false→true edge |
| Monitor.FirstFrameFromInitial | main.py:13-17 | The start state is not inside, with both timers and the count at 0. So on the first frame there is no Exit, Enter is the frame's own decision, and Save or Alarm fires exactly when the frame is inside and the clock has reached that cooldown |
| Monitor.NoEnterKeepsCounters | main.py:94-95 | On exit frames and frames without an edge, both timers and the count are unchanged |
| Trace.Run | main.py:48-98 | A run emits one event set per frame. The final `wasInside` is the last frame's decision, or unchanged for no frames. The count never decreases and rises by at most one per frame |
| Trace.WasInsideTracksFrame | main.py:98 | After frame i, `wasInside` equals frame i's decision |
| Trace.EdgesInTrace | main.py:81-95 | In a run, frame i emits Enter exactly when it is inside and the previous frame was not, and Exit exactly in the reverse case. Frames with no change emit nothing |
| Trace.CountTracksSaves | main.py:84-88 | The final violation count is the starting count plus the number of frames that saved |
| Trace.EnterExitBalance | main.py:81-95 | Enter and Exit alternate: the Enters minus the Exits equal the change in `wasInside` over the run |
| Trace.TimedAtMostEnters | main.py:81-92 | A run never has more Saves, or more Alarms, than Enters |
| Trace.EntersCountRuns | main.py:81-98 | Number of Enters = number of maximal runs of consecutive inside frames, minus a run already under way when the start state has `wasInside` true |
| Trace.EntersFromInitial | main.py:81-98 | From the initial state, there is exactly one Enter per maximal run of consecutive inside frames |
| Trace.QuietKeepsTimer | main.py:84-92 | Frames that do not fire a timed event leave that event's timer where it was |
| Trace.CooldownBetweenFirings | main.py:84-92 | Two consecutive Saves (or Alarms) in a run are at least that event's cooldown apart in time |
| Trace.CooldownBeforeFirstFiring | main.py:84-92 | The first Save (or Alarm) in a run comes at least the cooldown after the time the starting state records for it |
| Trace.ElapsedCooldownFires | main.py:84-92 | An Enter whose cooldown has elapsed always fires the timed event: only the timer can suppress it |
| Loop.Observe | main.py:67-78 | Each input becomes a frame with the same time, marked inside exactly when a person in the detections overlaps the zone |
| Loop.MainLoop | main.py:48-98 | The loop, from the initial state, yields the same state and events as the fold. Its violation count is its number of saves, and its Enters are the maximal runs of inside frames |
| Scenarios.OverlapSamples | main.py:75 | Box (390,10,410,30) overlaps the default zone. Boxes (630,20,650,200), which touches the right edge, and (640,20,650,200) do not. The zero-width box (500,50,500,100) passes the test |
| Scenarios.DecisionSamples | main.py:68-78 | A car alone inside the zone gives "not inside". So does a car with the box (390,10,410,30), which counts when labelled "person". A car in the zone next to that person gives "inside". A dog in the zone with a person only touching its edge gives "not inside" |
| Scenarios.StayingOutsideIsSilent | main.py:81-98 | Two frames outside emit no events |
| Scenarios.OneVisit | main.py:81-98 | Out, in, in, out gives one Enter (with Save and Alarm) at index 1 and one Exit at index 3, and count 1 |
| Scenarios.QuickReentrySuppressed | main.py:84-92 | Enters at 10, 13 and 16 with cooldown 5: the enter at 13 neither saves nor alarms, the one at 16 does both, and the count ends at 2 |
| Scenarios.ReentryAfterEarlierSave | main.py:84-92 | Start with both timers at -5 and enters at 0, 3 and 6. The enter at 0 saves and alarms, the one at 3 does neither, the one at 6 does both again, and the count ends at 2 |
| Scenarios.EarlyEnterSuppressed | main.py:84-92 | The timers start at 0, so on the integer clock an enter at time 3 neither saves nor alarms |

## Left out

- Object detection (main.py:1, 23, 58-59, 70): the detector is an external model. The model takes each frame's detections as input, as (label, box) pairs.
- Float-to-int conversion of the box corners (main.py:72): boxes are integer inputs.
- Video capture, drawing, text overlays and window display (main.py:24-28, 50-52, 63-65, 77, 102-114): device and UI I/O. `Zone.FirstIntruder` still returns the index of the box the source highlights.
- `alert_active` (main.py:99): it only mirrors the frame's decision, for the on-screen overlay.
- Log file writes and timestamp formatting (main.py:35-39, 85-86): file and clock I/O. They become the Enter, Exit and Save events.
- Audio playback (main.py:5, 30, 41-43): a foreign library. It becomes the Alarm event.
- Wall-clock time (main.py:55): the float `time.time()` becomes an integer `now`. No lemma assumes the clock is monotone.
- The quit key and the end-of-stream break (main.py:51-52, 111-112): the model runs over a finite sequence of inputs instead.
- Failures of logging, saving or playback: the source does not handle them, and the model has none.

## Notes on the source

- The timers start at 0 (main.py:13-14). The source compares them with epoch seconds, so in practice the first enter always saves and alarms. On an integer clock that starts near 0, the first enter is suppressed until time 5 (`Scenarios.EarlyEnterSuppressed`). One might expect enters at t=0, 3 and 6 to give two snapshots, at 0 and at 6. From the code's initial state, the enters at 0 and 3 give no snapshot, because neither is 5 past the timer's 0. The expected pattern appears only when the timers start at least 5 earlier, for example at -5 (`Scenarios.ReentryAfterEarlierSave`). The model follows the code.
- The overlap test (main.py:75) does not check that a box has positive size. A zero-width box inside the zone still counts. The first `ensures` of `Zone.Overlaps` states the area reading only for boxes of positive size, and `Scenarios.OverlapSamples` shows the zero-width box (500,50,500,100) passing the test.
