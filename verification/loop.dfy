/**
 The main loop: for each captured frame, scan the detections for a person in
 the zone, then take the edge-logic step. Capture, detection, drawing, the
 log file, the snapshot file and the sound are outside the model; the loop
 consumes the detections and clock readings it would have obtained and
 returns the events it would have acted on.
 */
module Loop {
  import Zone
  import opened Monitor
  import opened Trace

  /** One iteration's inputs: the detector's output and the clock reading. */
  datatype Input = Input(detections: seq<Zone.Detection>, now: int)

  /** The frames the loop's edge logic sees, one per input. */
  function Observe(cfg: Config, inputs: seq<Input>): (frames: seq<Frame>)
    ensures |frames| == |inputs|
    ensures forall i :: 0 <= i < |inputs| ==>
      frames[i].now == inputs[i].now
      && (frames[i].inside <==> exists k :: 0 <= k < |inputs[i].detections|
                                 && Zone.Intrudes(cfg.zone, inputs[i].detections[k]))
  {
    seq(|inputs|, i requires 0 <= i < |inputs| =>
      Frame(Zone.InsideZone(cfg.zone, inputs[i].detections), inputs[i].now))
  }

  /** The loop itself, from the initial state, over the inputs in order. */
  method MainLoop(cfg: Config, inputs: seq<Input>) returns (state: State, trace: seq<set<Event>>)
    ensures |trace| == |inputs|
    ensures state == Run(cfg, Initial, Observe(cfg, inputs)).final
    ensures trace == Run(cfg, Initial, Observe(cfg, inputs)).trace
    ensures state.violationCount == Count(trace, Save)
    ensures Count(trace, Enter) == Runs(Insides(Observe(cfg, inputs)))
  {
    ghost var frames := Observe(cfg, inputs);
    state := Initial;
    trace := [];
    var i := 0;
    while i < |inputs|
      invariant 0 <= i <= |inputs|
      invariant state == Before(cfg, Initial, frames, i)
      invariant trace == Run(cfg, Initial, frames[..i]).trace
    {
      var r := Tick(cfg, state, inputs[i].detections, inputs[i].now);
      RunAppend(cfg, Initial, frames[..i], [frames[i]]);
      assert frames[..i] + [frames[i]] == frames[..i + 1];
      state := r.next;
      trace := trace + [r.events];
      i := i + 1;
    }
    assert frames[..i] == frames;
    CountTracksSaves(cfg, Initial, frames);
    EntersFromInitial(cfg, frames);
  }
}
