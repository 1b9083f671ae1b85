/**
 * The stepping logic shared by the two number players: the number slider
 * (src/pages/Demo.jsx) and the setup timer (src/pages/Timer.jsx). Each
 * firing of a stepping interval either moves the position by one and
 * announces a value, or stops: it clears its interval and keeps the
 * position. Timers are not modelled as time; a run is a number of firings.
 */
module Sequencer {

  /** One call into the platform speech engine. */
  datatype Speech = Speak(text: string) | CancelSpeech

  /** The texts spoken by a log of speech calls, in order. */
  function Spoken(log: seq<Speech>): seq<string>
    decreases |log|
  {
    if log == [] then []
    else (if log[0].Speak? then [log[0].text] else []) + Spoken(log[1..])
  }

  lemma {:induction false} SpokenAppend(a: seq<Speech>, b: seq<Speech>)
    ensures Spoken(a + b) == Spoken(a) + Spoken(b)
    decreases |a|
  {
    if a == [] {
      assert a + b == b;
    } else {
      assert (a + b)[0] == a[0];
      assert (a + b)[1..] == a[1..] + b;
      SpokenAppend(a[1..], b);
    }
  }

  /** The two ways the sources step through a list of values.
      AnnounceThenAdvance: announce `values[i]`, then move to `i + 1`; stop
      once `i` has reached the length (the start loop of Timer.jsx), so the
      position counts the values announced so far.
      AdvanceThenAnnounce: move to `i + 1` and announce `values[i + 1]`; stop
      when `i + 1` would reach the length (the slider of Demo.jsx and the
      resume loop of Timer.jsx), so the position is the last value announced. */
  datatype Stepping = AnnounceThenAdvance | AdvanceThenAnnounce

  /** What one firing does. */
  datatype Step = Moved(index: nat, spoken: string) | Stopped

  function Fire(mode: Stepping, values: seq<string>, index: nat): (step: Step)
    ensures step.Stopped? <==> index + (if mode.AdvanceThenAnnounce? then 1 else 0) >= |values|
    ensures step.Moved? ==> step.index == index + 1 && step.index <= |values|
    ensures step.Moved? ==> step.spoken == values[if mode.AnnounceThenAdvance? then index else step.index]
  {
    match mode
    case AnnounceThenAdvance =>
      if index >= |values| then Stopped else Moved(index + 1, values[index])
    case AdvanceThenAnnounce =>
      if index + 1 >= |values| then Stopped else Moved(index + 1, values[index + 1])
  }

  /** The position reached, the values announced and whether the interval
      cleared itself, after a number of firings. */
  datatype Run = Run(index: nat, spoken: seq<string>, stopped: bool)

  /** `firings` firings of one interval from position `index`; once it has
      stopped it is cleared and fires no more. */
  function RunFrom(mode: Stepping, values: seq<string>, index: nat, firings: nat): Run
    decreases firings
  {
    if firings == 0 then Run(index, [], false)
    else
      match Fire(mode, values, index)
      case Stopped => Run(index, [], true)
      case Moved(next, word) =>
        var rest := RunFrom(mode, values, next, firings - 1);
        Run(rest.index, [word] + rest.spoken, rest.stopped)
  }

  /** Interrupting a run that has not stopped and going on with the same
      stepping from where it was loses and repeats nothing. */
  lemma {:induction false} RunResumes(mode: Stepping, values: seq<string>, index: nat, a: nat, b: nat)
    requires !RunFrom(mode, values, index, a).stopped
    ensures var first := RunFrom(mode, values, index, a);
            var second := RunFrom(mode, values, first.index, b);
            RunFrom(mode, values, index, a + b)
              == Run(second.index, first.spoken + second.spoken, second.stopped)
    decreases a
  {
    if a > 0 {
      match Fire(mode, values, index)
      case Moved(next, word) =>
        RunResumes(mode, values, next, a - 1, b);
        assert a + b - 1 == (a - 1) + b;
        assert [word] + (RunFrom(mode, values, next, a - 1).spoken
                         + RunFrom(mode, values, RunFrom(mode, values, next, a - 1).index, b).spoken)
            == ([word] + RunFrom(mode, values, next, a - 1).spoken)
               + RunFrom(mode, values, RunFrom(mode, values, next, a - 1).index, b).spoken;
    }
  }

  /** Announce-then-advance from position `index` (at most the length)
      announces `values[index..]` one by one, reaches the length after
      `|values| - index` firings and stops on the next one: the position never
      passes the length. */
  lemma {:induction false} AnnounceThenAdvanceRun(values: seq<string>, index: nat, firings: nat)
    requires index <= |values|
    ensures RunFrom(AnnounceThenAdvance, values, index, firings)
         == if firings <= |values| - index
            then Run(index + firings, values[index..index + firings], false)
            else Run(|values|, values[index..], true)
    decreases firings
  {
    if firings > 0 && index < |values| {
      AnnounceThenAdvanceRun(values, index + 1, firings - 1);
      if firings <= |values| - index {
        assert [values[index]] + values[index + 1..index + firings] == values[index..index + firings];
      } else {
        assert [values[index]] + values[index + 1..] == values[index..];
      }
    }
  }

  /** Advance-then-announce from a position inside the list announces the
      values after it one by one, moves exactly `|values| - 1 - index` times,
      and stops at the last position, whose value was the last announced.
      From a position at or past the end it stops at once, announcing nothing. */
  lemma {:induction false} AdvanceThenAnnounceRun(values: seq<string>, index: nat, firings: nat)
    ensures RunFrom(AdvanceThenAnnounce, values, index, firings)
         == if index >= |values| then Run(index, [], firings > 0)
            else if firings <= |values| - 1 - index
            then Run(index + firings, values[index + 1..index + 1 + firings], false)
            else Run(|values| - 1, values[index + 1..], true)
    decreases firings
  {
    if firings > 0 && index + 1 < |values| {
      AdvanceThenAnnounceRun(values, index + 1, firings - 1);
      if firings <= |values| - 1 - index {
        assert [values[index + 1]] + values[index + 2..index + 1 + firings] == values[index + 1..index + 1 + firings];
      } else {
        assert [values[index + 1]] + values[index + 2..] == values[index + 1..];
      }
    }
  }

  // ---------------------------------------------------------------------------
  // Timer.jsx: pausing the start loop and resuming with the resume loop
  // ---------------------------------------------------------------------------

  /** As written: the start loop runs `k` firings (announcing `values[..k]`,
      position `k`), is paused, and the resume loop then runs to its end. The
      resume loop announces `values[k + 1]` first, so `values[k]` is never
      announced. */
  lemma PauseResumeSkipsOne(values: seq<string>, k: nat)
    requires k < |values|
    ensures var started := RunFrom(AnnounceThenAdvance, values, 0, k);
            var resumed := RunFrom(AdvanceThenAnnounce, values, started.index, |values|);
            && started.spoken + resumed.spoken == values[..k] + values[k + 1..]
            && |started.spoken + resumed.spoken| == |values| - 1
  {
    AnnounceThenAdvanceRun(values, 0, k);
    AdvanceThenAnnounceRun(values, k, |values|);
  }

  /** The smallest case: three values, paused before the first firing. The
      announcements after resuming are "2", "3": "1" is lost. */
  lemma PauseResumeSkipsFirst()
    ensures RunFrom(AnnounceThenAdvance, ["1", "2", "3"], 0, 0).spoken
          + RunFrom(AdvanceThenAnnounce, ["1", "2", "3"], 0, 3).spoken == ["2", "3"]
  {
    AdvanceThenAnnounceRun(["1", "2", "3"], 0, 3);
  }

  /** Corrected: resuming with the start loop's own stepping announces every
      value exactly once, in order, wherever the pause fell. */
  lemma PauseResumeAnnouncesAll(values: seq<string>, k: nat)
    requires k <= |values|
    ensures var started := RunFrom(AnnounceThenAdvance, values, 0, k);
            var resumed := RunFrom(AnnounceThenAdvance, values, started.index, |values| - k + 1);
            && started.spoken + resumed.spoken == values
            && resumed.stopped && resumed.index == |values|
  {
    AnnounceThenAdvanceRun(values, 0, k);
    AnnounceThenAdvanceRun(values, k, |values| - k + 1);
    assert values[..k] + values[k..] == values;
  }
}
