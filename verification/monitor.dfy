/**
 The state machine half of the monitor: the state carried from frame to
 frame, the events one frame can emit, and the edge-triggered, rate-limited
 step taken once per frame after the zone decision.

 Time is an integer clock `now`; the cooldowns are non-negative integers.
 */
module Monitor {
  import Zone

  /** The static settings: the zone and the two cooldowns (5 by default). */
  datatype Config = Config(zone: Zone.Rect, saveInterval: nat, alarmInterval: nat)

  const Default: Config := Config(Zone.SafetyZone, 5, 5)

  /** What the loop remembers between frames. */
  datatype State = State(wasInside: bool, lastSaveTime: int, lastAlarmTime: int, violationCount: nat)

  const Initial: State := State(false, 0, 0, 0)

  /** The side effects of one frame: the enter and exit log lines, a saved
      snapshot, and the alarm sound. */
  datatype Event = Enter | Exit | Save | Alarm

  datatype StepResult = StepResult(next: State, events: set<Event>)

  /** The two rate-limited side effects. */
  predicate Timed(e: Event) {
    e == Save || e == Alarm
  }

  /** When the timed event `e` last fired, as far as state `s` records. */
  function LastFired(s: State, e: Event): int
    requires Timed(e)
  {
    if e == Save then s.lastSaveTime else s.lastAlarmTime
  }

  function Cooldown(cfg: Config, e: Event): nat
    requires Timed(e)
  {
    if e == Save then cfg.saveInterval else cfg.alarmInterval
  }

  /** One pass of the edge logic and the memory update, given this frame's
      zone decision and the current time. */
  function Step(cfg: Config, s: State, inside: bool, now: int): (r: StepResult)
    // the occupancy memory always takes this frame's decision
    ensures r.next.wasInside == inside
    // enter and exit are exactly the two edges, so they never coincide
    ensures Enter in r.events <==> inside && !s.wasInside
    ensures Exit in r.events <==> !inside && s.wasInside
    ensures inside == s.wasInside ==> r.events == {}
    // each cooldown is checked on the enter edge only, independently of the other
    ensures Save in r.events <==> Enter in r.events && now - s.lastSaveTime >= cfg.saveInterval
    ensures Alarm in r.events <==> Enter in r.events && now - s.lastAlarmTime >= cfg.alarmInterval
    // a timer moves to `now` when its event fires and is otherwise left alone
    ensures r.next.lastSaveTime == if Save in r.events then now else s.lastSaveTime
    ensures r.next.lastAlarmTime == if Alarm in r.events then now else s.lastAlarmTime
    // the count goes up by one with each save and never otherwise
    ensures r.next.violationCount == if Save in r.events then s.violationCount + 1 else s.violationCount
  {
    if inside && !s.wasInside then
      var saves := now - s.lastSaveTime >= cfg.saveInterval;
      var afterSave :=
        if saves then s.(lastSaveTime := now, violationCount := s.violationCount + 1) else s;
      var alarms := now - afterSave.lastAlarmTime >= cfg.alarmInterval;
      var afterAlarm :=
        if alarms then afterSave.(lastAlarmTime := now) else afterSave;
      StepResult(afterAlarm.(wasInside := inside),
                 {Enter} + (if saves then {Save} else {}) + (if alarms then {Alarm} else {}))
    else if !inside && s.wasInside then
      StepResult(s.(wasInside := inside), {Exit})
    else
      StepResult(s.(wasInside := inside), {})
  }

  /** The whole loop body for one frame: decide from the detections, then step. */
  function Tick(cfg: Config, s: State, dets: seq<Zone.Detection>, now: int): (r: StepResult)
    ensures r.next.wasInside <==> exists i :: 0 <= i < |dets| && Zone.Intrudes(cfg.zone, dets[i])
    ensures Enter in r.events <==>
      (exists i :: 0 <= i < |dets| && Zone.Intrudes(cfg.zone, dets[i])) && !s.wasInside
    ensures Exit in r.events <==>
      (forall i :: 0 <= i < |dets| ==> !Zone.Intrudes(cfg.zone, dets[i])) && s.wasInside
    ensures Save in r.events <==> Enter in r.events && now - s.lastSaveTime >= cfg.saveInterval
    ensures Alarm in r.events <==> Enter in r.events && now - s.lastAlarmTime >= cfg.alarmInterval
    ensures r.next.lastSaveTime == if Save in r.events then now else s.lastSaveTime
    ensures r.next.lastAlarmTime == if Alarm in r.events then now else s.lastAlarmTime
    ensures r.next.violationCount == if Save in r.events then s.violationCount + 1 else s.violationCount
  {
    Step(cfg, s, Zone.InsideZone(cfg.zone, dets), now)
  }

  /** The same facts about a timed event, stated once for either timer. */
  lemma StepTimer(cfg: Config, s: State, inside: bool, now: int, e: Event)
    requires Timed(e)
    ensures var r := Step(cfg, s, inside, now);
      && (e in r.events <==> Enter in r.events && now - LastFired(s, e) >= Cooldown(cfg, e))
      && LastFired(r.next, e) == if e in r.events then now else LastFired(s, e)
  {
  }

  /** A timed event only ever accompanies an enter event, so one enter edge
      yields at most one save and at most one alarm. */
  lemma TimedNeedsEnter(cfg: Config, s: State, inside: bool, now: int, e: Event)
    requires Timed(e)
    ensures e in Step(cfg, s, inside, now).events ==> inside && !s.wasInside
  {
  }

  /** The first frame after start-up: there is nothing to exit from, an
      enter is the frame's own decision, and with both timers at 0 a timed
      event fires only once the clock has reached its cooldown. */
  lemma FirstFrameFromInitial(cfg: Config, inside: bool, now: int)
    ensures var r := Step(cfg, Initial, inside, now);
      && Exit !in r.events
      && (Enter in r.events <==> inside)
      && (Save in r.events <==> inside && now >= cfg.saveInterval)
      && (Alarm in r.events <==> inside && now >= cfg.alarmInterval)
      && r.next.violationCount == (if Save in r.events then 1 else 0)
  {
  }

  /** Frames with no edge, and exit frames, leave the timers and the count untouched. */
  lemma NoEnterKeepsCounters(cfg: Config, s: State, inside: bool, now: int)
    requires !(inside && !s.wasInside)
    ensures var n := Step(cfg, s, inside, now).next;
      n.lastSaveTime == s.lastSaveTime && n.lastAlarmTime == s.lastAlarmTime
      && n.violationCount == s.violationCount
  {
  }
}
