/**
 Concrete runs of the model on the default configuration: the overlap test
 on sample boxes, the edge logic on short decision sequences, and the save
 cooldown suppressing a quick re-entry.
 */
module Scenarios {
  import Zone
  import opened Monitor
  import opened Trace

  /** A box reaching into the zone's top-left corner overlaps it; boxes that
      sit against or beyond the right edge do not. */
  lemma OverlapSamples()
    ensures Zone.Overlaps(Zone.SafetyZone, Zone.Rect(390, 10, 410, 30))
    ensures !Zone.Overlaps(Zone.SafetyZone, Zone.Rect(630, 20, 650, 200))
    ensures !Zone.Overlaps(Zone.SafetyZone, Zone.Rect(640, 20, 650, 200))
    // a zero-width box inside the zone still passes the test
    ensures Zone.Overlaps(Zone.SafetyZone, Zone.Rect(500, 50, 500, 100))
  {
  }

  /** A person reaching into the zone counts; the same box under another
      label does not, and neither does a car wholly inside the zone. */
  lemma DecisionSamples()
    ensures !Zone.InsideZone(Zone.SafetyZone, [Zone.Detection("car", Zone.Rect(450, 50, 500, 100))])
    ensures !Zone.InsideZone(Zone.SafetyZone, [Zone.Detection("car", Zone.Rect(390, 10, 410, 30))])
    ensures Zone.InsideZone(Zone.SafetyZone,
      [Zone.Detection("car", Zone.Rect(450, 50, 500, 100)),
       Zone.Detection("person", Zone.Rect(390, 10, 410, 30))])
    ensures !Zone.InsideZone(Zone.SafetyZone,
      [Zone.Detection("dog", Zone.Rect(450, 50, 500, 100)),
       Zone.Detection("person", Zone.Rect(630, 20, 650, 200))])
  {
    var a := [Zone.Detection("car", Zone.Rect(450, 50, 500, 100)),
              Zone.Detection("person", Zone.Rect(390, 10, 410, 30))];
    assert Zone.Intrudes(Zone.SafetyZone, a[1]);
  }

  /** Two frames outside the zone: no events at all. */
  lemma StayingOutsideIsSilent()
    ensures Run(Default, Initial, [Frame(false, 100), Frame(false, 101)]).trace == [{}, {}]
  {
  }

  /** Out, in, in, out: one enter (with its save and alarm) on the second
      frame, nothing while staying in, one exit on the fourth. */
  lemma OneVisit()
    ensures var r := Run(Default, Initial,
      [Frame(false, 100), Frame(true, 101), Frame(true, 102), Frame(false, 103)]);
      r.trace == [{}, {Enter, Save, Alarm}, {}, {Exit}] && r.final.violationCount == 1
  {
    var fs := [Frame(false, 100), Frame(true, 101), Frame(true, 102), Frame(false, 103)];
    var s1 := State(false, 0, 0, 0);
    var s2 := State(true, 101, 101, 1);
    assert Step(Default, Initial, false, 100) == StepResult(s1, {});
    assert Step(Default, s1, true, 101) == StepResult(s2, {Enter, Save, Alarm});
    assert Step(Default, s2, true, 102) == StepResult(s2, {});
    assert Step(Default, s2, false, 103) == StepResult(s2.(wasInside := false), {Exit});
    assert Run(Default, s2, fs[3..]).trace == [{Exit}];
    assert Run(Default, s2, fs[2..]).trace == [{}, {Exit}];
    assert Run(Default, s1, fs[1..]).trace == [{Enter, Save, Alarm}, {}, {Exit}];
  }

  /** Enters at 10, 13 and 16: the one at 13 comes 3 after the last save and
      alarm and fires neither; the one at 16 comes 6 after and fires both. */
  lemma QuickReentrySuppressed()
    ensures var r := Run(Default, Initial,
      [Frame(true, 10), Frame(false, 11), Frame(true, 13), Frame(false, 14), Frame(true, 16)]);
      r.trace == [{Enter, Save, Alarm}, {Exit}, {Enter}, {Exit}, {Enter, Save, Alarm}]
      && r.final.violationCount == 2 && r.final.lastSaveTime == 16
  {
    var fs := [Frame(true, 10), Frame(false, 11), Frame(true, 13), Frame(false, 14), Frame(true, 16)];
    var s1 := State(true, 10, 10, 1);
    var s2 := State(false, 10, 10, 1);
    var s5 := State(true, 16, 16, 2);
    assert Step(Default, Initial, true, 10) == StepResult(s1, {Enter, Save, Alarm});
    assert Step(Default, s1, false, 11) == StepResult(s2, {Exit});
    assert Step(Default, s2, true, 13) == StepResult(s1, {Enter});
    assert Step(Default, s1, false, 14) == StepResult(s2, {Exit});
    assert Step(Default, s2, true, 16) == StepResult(s5, {Enter, Save, Alarm});
    assert Run(Default, s2, fs[4..]) == Outcome(s5, [{Enter, Save, Alarm}]);
    assert Run(Default, s1, fs[3..]) == Outcome(s5, [{Exit}, {Enter, Save, Alarm}]);
    assert Run(Default, s2, fs[2..]) == Outcome(s5, [{Enter}, {Exit}, {Enter, Save, Alarm}]);
    assert Run(Default, s1, fs[1..]) == Outcome(s5, [{Exit}, {Enter}, {Exit}, {Enter, Save, Alarm}]);
  }

  /** Starting from a state whose last save and alarm were at -5, enters at
      0, 3 and 6: the one at 3 is suppressed, the one at 6 saves again. */
  lemma ReentryAfterEarlierSave()
    ensures var r := Run(Default, State(false, -5, -5, 0),
      [Frame(true, 0), Frame(false, 1), Frame(true, 3), Frame(false, 4), Frame(true, 6)]);
      r.trace == [{Enter, Save, Alarm}, {Exit}, {Enter}, {Exit}, {Enter, Save, Alarm}]
      && r.final.violationCount == 2
  {
    var fs := [Frame(true, 0), Frame(false, 1), Frame(true, 3), Frame(false, 4), Frame(true, 6)];
    var s0 := State(false, -5, -5, 0);
    var s1 := State(true, 0, 0, 1);
    var s2 := State(false, 0, 0, 1);
    var s5 := State(true, 6, 6, 2);
    assert Step(Default, s0, true, 0) == StepResult(s1, {Enter, Save, Alarm});
    assert Step(Default, s1, false, 1) == StepResult(s2, {Exit});
    assert Step(Default, s2, true, 3) == StepResult(s1, {Enter});
    assert Step(Default, s1, false, 4) == StepResult(s2, {Exit});
    assert Step(Default, s2, true, 6) == StepResult(s5, {Enter, Save, Alarm});
    assert Run(Default, s2, fs[4..]) == Outcome(s5, [{Enter, Save, Alarm}]);
    assert Run(Default, s1, fs[3..]) == Outcome(s5, [{Exit}, {Enter, Save, Alarm}]);
    assert Run(Default, s2, fs[2..]) == Outcome(s5, [{Enter}, {Exit}, {Enter, Save, Alarm}]);
    assert Run(Default, s1, fs[1..]) == Outcome(s5, [{Exit}, {Enter}, {Exit}, {Enter, Save, Alarm}]);
  }

  /** Counting maximal runs of frames inside the zone. */
  lemma RunsSamples()
    ensures Runs([false, true, true, false]) == 1
    ensures Runs([false, false]) == 0
    ensures Runs([true, false, true, true]) == 2
  {
    assert [false, true, true, false][1..] == [true, true, false];
    assert [true, true, false][1..] == [true, false];
    assert [true, false][1..] == [false];
    assert [false][1..] == [];
    assert [false, false][1..] == [false];
    assert [true, false, true, true][1..] == [false, true, true];
    assert [false, true, true][1..] == [true, true];
    assert [true, true][1..] == [true];
    assert [true][1..] == [];
  }

  /** On the integer clock the timers start at 0, so an enter before time 5
      neither saves nor sounds the alarm. */
  lemma EarlyEnterSuppressed()
    ensures Run(Default, Initial, [Frame(true, 3)]).trace == [{Enter}]
  {
  }
}
