/**
 The monitor over many frames: a left fold of the step over a sequence of
 (zone decision, time) frames, and the properties of the event traces it
 produces.
 */
module Trace {
  import opened Monitor

  /** What the loop sees on one frame once the zone decision is made. */
  datatype Frame = Frame(inside: bool, now: int)

  /** The state after the last frame, and the events of every frame in order. */
  datatype Outcome = Outcome(final: State, trace: seq<set<Event>>)

  function Run(cfg: Config, s: State, frames: seq<Frame>): (r: Outcome)
    ensures |r.trace| == |frames|
    ensures |frames| == 0 ==> r.final == s
    ensures |frames| > 0 ==> r.final.wasInside == frames[|frames| - 1].inside
    ensures s.violationCount <= r.final.violationCount <= s.violationCount + |frames|
    decreases |frames|
  {
    if |frames| == 0 then Outcome(s, [])
    else
      var first := Step(cfg, s, frames[0].inside, frames[0].now);
      var rest := Run(cfg, first.next, frames[1..]);
      Outcome(rest.final, [first.events] + rest.trace)
  }

  /** The state in front of frame `i`. */
  function Before(cfg: Config, s: State, frames: seq<Frame>, i: nat): State
    requires i <= |frames|
  {
    Run(cfg, s, frames[..i]).final
  }

  /** The number of frames whose events include `e`. */
  function Count(trace: seq<set<Event>>, e: Event): (n: nat)
    ensures n <= |trace|
    decreases |trace|
  {
    if |trace| == 0 then 0
    else (if e in trace[0] then 1 else 0) + Count(trace[1..], e)
  }

  /** The frames' zone decisions alone. */
  function Insides(frames: seq<Frame>): (xs: seq<bool>)
    ensures |xs| == |frames|
    decreases |frames|
  {
    if |frames| == 0 then [] else [frames[0].inside] + Insides(frames[1..])
  }

  /** `xs` with its leading run of `true` removed. */
  function DropTrues(xs: seq<bool>): (r: seq<bool>)
    ensures |r| <= |xs|
    decreases |xs|
  {
    if |xs| > 0 && xs[0] then DropTrues(xs[1..]) else xs
  }

  /** The number of maximal runs of consecutive `true` in `xs`. */
  function Runs(xs: seq<bool>): nat
    decreases |xs|
  {
    if |xs| == 0 then 0
    else if !xs[0] then Runs(xs[1..])
    else 1 + Runs(DropTrues(xs[1..]))
  }

  function Bit(b: bool): int { if b then 1 else 0 }

  /** Running two frame sequences one after the other is running their
      concatenation. */
  lemma {:induction false} RunAppend(cfg: Config, s: State, a: seq<Frame>, b: seq<Frame>)
    ensures var ra := Run(cfg, s, a);
      var rb := Run(cfg, ra.final, b);
      Run(cfg, s, a + b) == Outcome(rb.final, ra.trace + rb.trace)
    decreases |a|
  {
    if |a| == 0 {
      assert a + b == b;
    } else {
      var first := Step(cfg, s, a[0].inside, a[0].now);
      assert (a + b)[0] == a[0];
      assert (a + b)[1..] == a[1..] + b;
      RunAppend(cfg, first.next, a[1..], b);
    }
  }

  /** Frame `i` is the step from the state in front of it: its events are
      that step's events and the state behind it is that step's state. */
  lemma {:induction false} RunAt(cfg: Config, s: State, frames: seq<Frame>, i: nat)
    requires i < |frames|
    ensures var r := Step(cfg, Before(cfg, s, frames, i), frames[i].inside, frames[i].now);
      && Run(cfg, s, frames).trace[i] == r.events
      && Before(cfg, s, frames, i + 1) == r.next
  {
    var pre := frames[..i];
    var mid := Before(cfg, s, frames, i);
    assert frames == pre + frames[i..];
    RunAppend(cfg, s, pre, frames[i..]);
    assert frames[..i + 1] == pre + [frames[i]];
    RunAppend(cfg, s, pre, [frames[i]]);
  }

  /** After frame `i` the occupancy memory holds frame `i`'s decision. */
  lemma WasInsideTracksFrame(cfg: Config, s: State, frames: seq<Frame>, i: nat)
    requires i < |frames|
    ensures Before(cfg, s, frames, i + 1).wasInside == frames[i].inside
  {
    RunAt(cfg, s, frames, i);
  }

  /** Enter fires exactly on a rising edge of the decisions, exit exactly on
      a falling edge, and a frame without an edge has no events. */
  lemma EdgesInTrace(cfg: Config, s: State, frames: seq<Frame>, i: nat)
    requires i < |frames|
    ensures var prev := if i == 0 then s.wasInside else frames[i - 1].inside;
      var ev := Run(cfg, s, frames).trace[i];
      && (Enter in ev <==> frames[i].inside && !prev)
      && (Exit in ev <==> !frames[i].inside && prev)
      && (frames[i].inside == prev ==> ev == {})
  {
    RunAt(cfg, s, frames, i);
    if i > 0 {
      WasInsideTracksFrame(cfg, s, frames, i - 1);
    } else {
      assert frames[..0] == [];
    }
  }

  /** The violation count is the initial count plus the number of save frames. */
  lemma {:induction false} CountTracksSaves(cfg: Config, s: State, frames: seq<Frame>)
    ensures Run(cfg, s, frames).final.violationCount == s.violationCount + Count(Run(cfg, s, frames).trace, Save)
    decreases |frames|
  {
    if |frames| > 0 {
      var first := Step(cfg, s, frames[0].inside, frames[0].now);
      CountTracksSaves(cfg, first.next, frames[1..]);
      assert ([first.events] + Run(cfg, first.next, frames[1..]).trace)[1..]
        == Run(cfg, first.next, frames[1..]).trace;
    }
  }

  /** Enter and exit alternate: the enters outnumber the exits by the change
      in the occupancy memory over the run. */
  lemma {:induction false} EnterExitBalance(cfg: Config, s: State, frames: seq<Frame>)
    ensures var r := Run(cfg, s, frames);
      Count(r.trace, Enter) - Count(r.trace, Exit) == Bit(r.final.wasInside) - Bit(s.wasInside)
    decreases |frames|
  {
    if |frames| > 0 {
      var first := Step(cfg, s, frames[0].inside, frames[0].now);
      var rest := Run(cfg, first.next, frames[1..]);
      EnterExitBalance(cfg, first.next, frames[1..]);
      assert ([first.events] + rest.trace)[1..] == rest.trace;
    }
  }

  /** Each save and each alarm rides on an enter, so neither can outnumber the enters. */
  lemma {:induction false} TimedAtMostEnters(cfg: Config, s: State, frames: seq<Frame>, e: Event)
    requires Timed(e)
    ensures Count(Run(cfg, s, frames).trace, e) <= Count(Run(cfg, s, frames).trace, Enter)
    decreases |frames|
  {
    if |frames| > 0 {
      var first := Step(cfg, s, frames[0].inside, frames[0].now);
      var rest := Run(cfg, first.next, frames[1..]);
      TimedAtMostEnters(cfg, first.next, frames[1..], e);
      assert ([first.events] + rest.trace)[1..] == rest.trace;
    }
  }

  /** The number of enter events is the number of maximal runs of `true`
      among the decisions, less the run already in progress when the
      memory starts out `true`. */
  lemma {:induction false} EntersCountRuns(cfg: Config, s: State, frames: seq<Frame>)
    ensures Count(Run(cfg, s, frames).trace, Enter)
      == if s.wasInside then Runs(DropTrues(Insides(frames))) else Runs(Insides(frames))
    decreases |frames|
  {
    if |frames| > 0 {
      var first := Step(cfg, s, frames[0].inside, frames[0].now);
      var rest := Run(cfg, first.next, frames[1..]);
      EntersCountRuns(cfg, first.next, frames[1..]);
      assert ([first.events] + rest.trace)[1..] == rest.trace;
      var xs := Insides(frames);
      assert xs[0] == frames[0].inside;
      assert xs[1..] == Insides(frames[1..]);
    }
  }

  /** From the initial state, one enter per maximal run of frames inside the zone. */
  lemma EntersFromInitial(cfg: Config, frames: seq<Frame>)
    ensures Count(Run(cfg, Initial, frames).trace, Enter) == Runs(Insides(frames))
  {
    EntersCountRuns(cfg, Initial, frames);
  }

  /** Frames `lo` to `hi` - 1 without `e` leave `e`'s timer where it was. */
  lemma {:induction false} QuietKeepsTimer(cfg: Config, s: State, frames: seq<Frame>, e: Event, lo: nat, hi: nat)
    requires Timed(e)
    requires lo <= hi <= |frames|
    requires forall k :: lo <= k < hi ==> e !in Run(cfg, s, frames).trace[k]
    ensures LastFired(Before(cfg, s, frames, hi), e) == LastFired(Before(cfg, s, frames, lo), e)
    decreases hi - lo
  {
    if lo < hi {
      RunAt(cfg, s, frames, lo);
      StepTimer(cfg, Before(cfg, s, frames, lo), frames[lo].inside, frames[lo].now, e);
      QuietKeepsTimer(cfg, s, frames, e, lo + 1, hi);
    }
  }

  /** Two consecutive firings of a save (or of an alarm) are at least that
      event's cooldown apart. */
  lemma CooldownBetweenFirings(cfg: Config, s: State, frames: seq<Frame>, e: Event, i: nat, j: nat)
    requires Timed(e)
    requires i < j < |frames|
    requires e in Run(cfg, s, frames).trace[i] && e in Run(cfg, s, frames).trace[j]
    requires forall k :: i < k < j ==> e !in Run(cfg, s, frames).trace[k]
    ensures frames[j].now - frames[i].now >= Cooldown(cfg, e)
  {
    RunAt(cfg, s, frames, i);
    StepTimer(cfg, Before(cfg, s, frames, i), frames[i].inside, frames[i].now, e);
    QuietKeepsTimer(cfg, s, frames, e, i + 1, j);
    RunAt(cfg, s, frames, j);
    StepTimer(cfg, Before(cfg, s, frames, j), frames[j].inside, frames[j].now, e);
  }

  /** The first firing of a save (or of an alarm) is at least that event's
      cooldown after the time the starting state records. */
  lemma CooldownBeforeFirstFiring(cfg: Config, s: State, frames: seq<Frame>, e: Event, j: nat)
    requires Timed(e)
    requires j < |frames|
    requires e in Run(cfg, s, frames).trace[j]
    requires forall k :: 0 <= k < j ==> e !in Run(cfg, s, frames).trace[k]
    ensures frames[j].now - LastFired(s, e) >= Cooldown(cfg, e)
  {
    QuietKeepsTimer(cfg, s, frames, e, 0, j);
    assert frames[..0] == [];
    RunAt(cfg, s, frames, j);
    StepTimer(cfg, Before(cfg, s, frames, j), frames[j].inside, frames[j].now, e);
  }

  /** An enter whose cooldown has elapsed since the last firing is never
      suppressed: the timer is the only thing that holds a timed event back. */
  lemma ElapsedCooldownFires(cfg: Config, s: State, frames: seq<Frame>, e: Event, j: nat)
    requires Timed(e)
    requires j < |frames|
    requires Enter in Run(cfg, s, frames).trace[j]
    requires frames[j].now - LastFired(Before(cfg, s, frames, j), e) >= Cooldown(cfg, e)
    ensures e in Run(cfg, s, frames).trace[j]
  {
    RunAt(cfg, s, frames, j);
    StepTimer(cfg, Before(cfg, s, frames, j), frames[j].inside, frames[j].now, e);
  }
}
