/**
 * The number slider of src/pages/Demo.jsx: a project's comma-separated
 * numbers shown in a five-cell window around the current position, the
 * position advanced and the new value announced by one interval, a countdown
 * of the remaining seconds kept by a second interval, pause and resume with a
 * pause-note dialog, and the progress updates the page sends for the project.
 *
 * The two intervals are events (`Tick`, every second; `Advance`, every `gap`
 * seconds) that fire only while armed; speech and the PATCH requests are
 * logs the methods append to.
 */
module NumberSlider {
  import opened Wrappers
  import opened Strings
  import opened Sequencer

  /** Seconds per value when the project has no gap (Demo.jsx:12). */
  const DefaultGap: nat := 2

  /** The note sent when the countdown is exhausted (Demo.jsx:58). */
  const CompletedNote := "Task was completed!"

  /** The body of a project PATCH: the saved position and a note. The
      locale-formatted pause time that goes with it is not modelled. */
  datatype ProgressUpdate = ProgressUpdate(currentState: int, note: string)

  /** The update sent when time runs out: position reset to 0. */
  const Completion := ProgressUpdate(0, CompletedNote)

  /** `activeProject?.totalNumbers?.split(",") || []`: no numbers at all when
      the project or its list is missing, one value per comma-separated piece
      otherwise (so an empty list text gives one empty value). */
  function Values(totalNumbers: Option<string>): (values: seq<string>)
    ensures totalNumbers.None? ==> values == []
    ensures totalNumbers.Some? ==> |values| == Count(totalNumbers.value, ',') + 1
    ensures totalNumbers.Some? ==> Join(values, ',') == totalNumbers.value
  {
    match totalNumbers
    case None => []
    case Some(text) =>
      SplitLength(text, ',');
      JoinSplit(text, ',');
      Split(text, ',')
  }

  /** The seconds the countdown starts from: one `gap` for every value from
      the saved position on. Negative when the saved position is past the end. */
  function InitialTimeLeft(count: nat, start: nat, gap: nat): (timeLeft: int)
    ensures start <= count ==> timeLeft >= 0
    ensures gap > 0 ==> (timeLeft > 0 <==> start < count)
  {
    (count - start) * gap
  }

  /** `num[j] || ""`: the value at `j`, or the empty text outside the list. */
  function Cell(values: seq<string>, j: int): (cell: string)
    ensures 0 <= j < |values| ==> cell == values[j]
    ensures cell != "" ==> 0 <= j < |values|
  {
    if 0 <= j < |values| then values[j] else ""
  }

  /** The five cells shown around position `index`. */
  function Window(values: seq<string>, index: int): (w: seq<string>)
    ensures |w| == 5
  {
    [Cell(values, index - 2), Cell(values, index - 1), Cell(values, index), Cell(values, index + 1), Cell(values, index + 2)]
  }

  /** The centre cell is the current value; the cells beside it are the
      neighbours, blank past either end. */
  lemma WindowAround(values: seq<string>, index: int)
    ensures 0 <= index < |values| ==> Window(values, index)[2] == values[index]
    ensures index - 2 < 0 ==> Window(values, index)[0] == ""
    ensures index + 2 >= |values| ==> Window(values, index)[4] == ""
  {
    var w := Window(values, index);
    assert w[0] == Cell(values, index - 2);
    assert w[2] == Cell(values, index);
    assert w[4] == Cell(values, index + 2);
  }

  /** Advancing by one slides the window left by one cell. */
  lemma WindowSlides(values: seq<string>, index: int)
    ensures Window(values, index + 1)[..4] == Window(values, index)[1..]
  {
  }

  /** `getRenderArray(index)`: pushes `num[index + i] || ""` for i = -2..2. */
  method GetRenderArray(values: seq<string>, index: int) returns (result: seq<string>)
    ensures result == Window(values, index)
  {
    result := [];
    var i := -2;
    while i <= 2
      invariant -2 <= i <= 3
      invariant |result| == i + 2
      invariant forall k :: 0 <= k < |result| ==> result[k] == Cell(values, index + k - 2)
    {
      var n: Option<string> := if 0 <= index + i < |values| then Some(values[index + i]) else None;
      result := result + [n.GetOr("")];
      i := i + 1;
    }
  }

  /** The countdown updater: reaching 1 or less ends at 0. */
  function TickDown(prev: int): (next: int)
    ensures next >= 0
    ensures next == 0 <==> prev <= 1
    ensures next > 0 ==> next == prev - 1
  {
    if prev <= 1 then 0 else prev - 1
  }

  /** The countdown after `ticks` firings. */
  function TicksFrom(timeLeft: int, ticks: nat): int
    decreases ticks
  {
    if ticks == 0 then timeLeft else TicksFrom(TickDown(timeLeft), ticks - 1)
  }

  /** After at least one tick the countdown is `timeLeft - ticks`, but never
      below 0: it is never negative and reaches 0 after `timeLeft` ticks. */
  lemma {:induction false} CountdownAfter(timeLeft: int, ticks: nat)
    requires ticks >= 1
    ensures TicksFrom(timeLeft, ticks) == if timeLeft - ticks > 0 then timeLeft - ticks else 0
    decreases ticks
  {
    if ticks > 1 {
      CountdownAfter(TickDown(timeLeft), ticks - 1);
    }
  }

  /** The time display: `m:ss` while time remains, "Complete!" otherwise. */
  function Clock(timeLeft: int): (display: string)
    ensures timeLeft <= 0 <==> display == "Complete!"
    ensures timeLeft > 0 ==> ':' in display
  {
    if timeLeft > 0 then
      var minutes := Decimal(timeLeft / 60);
      var display := minutes + ":" + PadStart(Decimal(timeLeft % 60), 2, '0');
      assert display[|minutes|] == ':';
      assert ':' !in "Complete!";
      display
    else "Complete!"
  }

  lemma {:induction false} ShortDecimal(n: nat)
    requires n < 100
    ensures |Decimal(n)| <= 2
  {
    if n >= 10 {
      assert |Decimal(n / 10)| == 1;
    }
  }

  lemma PaddedValue(s: string)
    requires AllDigits(s) && 1 <= |s| <= 2
    ensures AllDigits(PadStart(s, 2, '0'))
    ensures DigitsValue(PadStart(s, 2, '0')) == DigitsValue(s)
  {
    var p := PadStart(s, 2, '0');
    if |s| == 1 {
      assert p == ['0'] + s;
      assert p[..1] == ['0'];
      assert DigitsValue(['0']) == 10 * DigitsValue([]) + 0;
      assert s[..0] == [];
    }
  }

  /** Reading the display back gives the remaining seconds: minutes before
      the colon, exactly two digits of seconds below 60 after it. */
  lemma ClockReadsBack(timeLeft: int)
    requires timeLeft > 0
    ensures var c := Clock(timeLeft);
            && |c| >= 4 && c[|c| - 3] == ':'
            && AllDigits(c[..|c| - 3]) && AllDigits(c[|c| - 2..])
            && DigitsValue(c[|c| - 2..]) < 60
            && DigitsValue(c[..|c| - 3]) * 60 + DigitsValue(c[|c| - 2..]) == timeLeft
  {
    var m, s := timeLeft / 60, timeLeft % 60;
    var mm, ss := Decimal(m), PadStart(Decimal(s), 2, '0');
    ShortDecimal(s);
    PaddedValue(Decimal(s));
    DecimalValue(m);
    DecimalValue(s);
    var c := Clock(timeLeft);
    assert c == mm + ":" + ss;
    assert |ss| == 2;
    assert c[..|c| - 3] == mm;
    assert c[|c| - 2..] == ss;
  }

  /** How a number of the preview grid is drawn relative to the position. */
  datatype Tile = Current | Done | Upcoming

  function GridTile(i: nat, currentIndex: nat): (tile: Tile)
    ensures tile == Current <==> i == currentIndex
    ensures tile == Done <==> i < currentIndex
    ensures tile == Upcoming <==> i > currentIndex
  {
    if i == currentIndex then Current else if i < currentIndex then Done else Upcoming
  }

  /** How many of the first `n` numbers are drawn as `tile`. */
  function CountTiles(n: nat, currentIndex: nat, tile: Tile): nat
    decreases n
  {
    if n == 0 then 0
    else CountTiles(n - 1, currentIndex, tile) + (if GridTile(n - 1, currentIndex) == tile then 1 else 0)
  }

  /** The grid shows `currentIndex` numbers done, one current number while
      the position is inside the list, and the rest upcoming. */
  lemma {:induction false} GridCounts(n: nat, currentIndex: nat)
    ensures CountTiles(n, currentIndex, Done) == if currentIndex < n then currentIndex else n
    ensures CountTiles(n, currentIndex, Current) == if currentIndex < n then 1 else 0
    ensures CountTiles(n, currentIndex, Upcoming) == if currentIndex < n then n - 1 - currentIndex else 0
    decreases n
  {
    if n > 0 {
      GridCounts(n - 1, currentIndex);
    }
  }

  /** The values announced so far by a slider that started at `start` and
      is at `current`: the starting value (only if it is non-empty, as the
      mount effect tests it) and then every value up to the current one. */
  function AnnouncedSoFar(values: seq<string>, start: nat, current: nat): seq<string>
    requires start <= current
    requires current < |values| || current == start
  {
    if start >= |values| then []
    else (if values[start] != "" then [values[start]] else []) + values[start + 1..current + 1]
  }

  /** Every utterance is directly preceded by a cancel of the one before:
      the log is a series of cancel-then-speak pairs. */
  ghost predicate CancelThenSpeak(log: seq<Speech>)
    decreases |log|
  {
    log == [] || (|log| >= 2 && log[0] == CancelSpeech && log[1].Speak? && CancelThenSpeak(log[2..]))
  }

  /** Appending one more pair keeps the log in pairs. */
  lemma {:induction false} CancelThenSpeakAppend(log: seq<Speech>, w: string)
    requires CancelThenSpeak(log)
    ensures CancelThenSpeak(log + [CancelSpeech, Speak(w)])
    decreases |log|
  {
    var pair := [CancelSpeech, Speak(w)];
    if log == [] {
      assert log + pair == pair && pair[2..] == [];
    } else {
      CancelThenSpeakAppend(log[2..], w);
      assert (log + pair)[2..] == log[2..] + pair;
    }
  }

  /** The speech calls of mounting: the starting value, when it is not empty. */
  function MountSpeech(values: seq<string>, start: nat): seq<Speech> {
    if Cell(values, start) != "" then [CancelSpeech, Speak(values[start])] else []
  }

  /** Mounting leaves the log well-formed, announcing just the starting value. */
  lemma MountAnnounces(values: seq<string>, start: nat)
    ensures CancelThenSpeak(MountSpeech(values, start))
    ensures Spoken(MountSpeech(values, start)) == AnnouncedSoFar(values, start, start)
  {
    if start < |values| {
      assert values[start + 1..start + 1] == [];
    }
    if Cell(values, start) != "" {
      var w := values[start];
      assert Spoken([Speak(w)]) == [w] + Spoken([]);
      assert Spoken([CancelSpeech, Speak(w)]) == Spoken([Speak(w)]);
    }
  }

  /** An advance to `current + 1` appends a cancel and the new value, which
      keeps the log well-formed and extends the announced values by one. */
  lemma AdvanceAnnounces(values: seq<string>, start: nat, current: nat, log: seq<Speech>)
    requires start <= current && current + 1 < |values|
    requires CancelThenSpeak(log) && Spoken(log) == AnnouncedSoFar(values, start, current)
    ensures CancelThenSpeak(log + [CancelSpeech, Speak(values[current + 1])])
    ensures Spoken(log + [CancelSpeech, Speak(values[current + 1])]) == AnnouncedSoFar(values, start, current + 1)
  {
    var w := values[current + 1];
    var added := [CancelSpeech, Speak(w)];
    CancelThenSpeakAppend(log, w);
    SpokenAppend(log, added);
    assert added[1..] == [Speak(w)];
    assert Spoken([Speak(w)]) == [w] + Spoken([]);
    var before := values[start + 1..current + 1];
    assert values[start + 1..current + 2] == before + [w] by {
      forall i | 0 <= i < |before| + 1
        ensures values[start + 1..current + 2][i] == (before + [w])[i]
      {
        if i < |before| {
          assert before[i] == values[start + 1 + i];
        }
      }
    }
  }

  /** The timing and position part of the slider's state. */
  datatype Playback = Playback(
    currentIndex: nat, timeLeft: int, renderArray: seq<string>, currentState: int,
    speech: seq<Speech>, updates: seq<ProgressUpdate>)

  class Slider {
    const values: seq<string>
    const gap: nat
    const startIndex: nat

    var currentIndex: nat
    var timeLeft: int
    var paused: bool
    var noteModalVisible: bool
    var pauseNote: string
    var renderArray: seq<string>
    var currentState: int
    /** Whether the one-second countdown interval is set. */
    var tickArmed: bool
    /** Whether the `gap`-second slider interval is set. */
    var advanceArmed: bool
    /** Calls into the speech engine, in order. */
    var speech: seq<Speech>
    /** Project PATCH bodies sent, in order. */
    var updates: seq<ProgressUpdate>

    function Snapshot(): Playback
      reads this
    {
      Playback(currentIndex, timeLeft, renderArray, currentState, speech, updates)
    }

    ghost predicate Valid()
      reads this
    {
      && renderArray == Window(values, currentIndex)
      // the position only moves forward, and stays inside the list unless it
      // is a saved position at or past the end, which no advance moves
      && startIndex <= currentIndex
      && (currentIndex < |values| || currentIndex == startIndex)
      // the countdown is never negative once it has ticked
      && (timeLeft >= 0 || timeLeft == InitialTimeLeft(|values|, startIndex, gap))
      // while paused neither interval is set; the dialog is open only while paused
      && (paused ==> !tickArmed && !advanceArmed)
      && (noteModalVisible ==> paused)
      // an interval that is not paused is cleared only when it is done
      && (!paused && !tickArmed ==> timeLeft == 0)
      && (!paused && !advanceArmed ==> currentIndex + 1 >= |values|)
      // announcements: cancel-then-speak, every value from the start on, in order
      && CancelThenSpeak(speech)
      && Spoken(speech) == AnnouncedSoFar(values, startIndex, currentIndex)
      // an exhausted countdown has been reported
      && (timeLeft <= 0 ==> Completion in updates)
    }

    /** Mounting the page for a project: its number list, its gap (absent:
        `DefaultGap`) and its saved position (absent: 0). */
    constructor (totalNumbers: Option<string>, gapSetting: Option<nat>, savedState: Option<nat>)
      ensures Valid()
      ensures values == Values(totalNumbers) && gap == gapSetting.GetOr(DefaultGap)
      ensures startIndex == savedState.GetOr(0) && currentIndex == startIndex
      ensures timeLeft == InitialTimeLeft(|values|, startIndex, gap)
      ensures !paused && !noteModalVisible && pauseNote == ""
      ensures tickArmed && advanceArmed
      ensures currentState == savedState.GetOr(0)
      ensures speech == MountSpeech(values, startIndex)
      ensures updates == if timeLeft <= 0 then [Completion] else []
    {
      var vs := Values(totalNumbers);
      var g := gapSetting.GetOr(DefaultGap);
      var start := savedState.GetOr(0);
      values, gap, startIndex := vs, g, start;
      currentIndex := start;
      timeLeft := InitialTimeLeft(|vs|, start, g);
      paused, noteModalVisible, pauseNote := false, false, "";
      var cells := GetRenderArray(vs, start);
      renderArray := cells;
      currentState := start;
      // the interval effect runs on mount because `paused` starts false
      tickArmed, advanceArmed := true, true;
      // the mount effect speaks the centre cell when it is not empty
      assert cells[2] == Cell(vs, start);
      speech := if cells[2] != "" then [CancelSpeech, Speak(cells[2])] else [];
      // the completion effect runs on mount
      updates := if InitialTimeLeft(|vs|, start, g) <= 0 then [Completion] else [];
      new;
      MountAnnounces(vs, start);
    }

    /** The one-second countdown interval fires. */
    method Tick()
      requires Valid()
      modifies this
      ensures Valid()
      ensures !old(tickArmed) ==> Snapshot() == old(Snapshot()) && tickArmed == old(tickArmed)
      ensures old(tickArmed) ==>
        && timeLeft == TickDown(old(timeLeft))
        && tickArmed == (old(timeLeft) > 1)
        // the completion effect runs when the countdown changed to 0
        && updates == old(updates) + (if timeLeft != old(timeLeft) && timeLeft <= 0 then [Completion] else [])
        && currentIndex == old(currentIndex) && renderArray == old(renderArray)
        && currentState == old(currentState) && speech == old(speech)
      ensures paused == old(paused) && noteModalVisible == old(noteModalVisible)
      ensures pauseNote == old(pauseNote) && advanceArmed == old(advanceArmed)
    {
      if !tickArmed {
        return;
      }
      var prev := timeLeft;
      if prev <= 1 {
        tickArmed := false;
        timeLeft := 0;
      } else {
        timeLeft := prev - 1;
      }
      if timeLeft != prev && timeLeft <= 0 {
        updates := updates + [Completion];
      }
    }

    /** The slider interval fires: move on and announce, or at the last value
        clear the interval and reset `currentState`. */
    method Advance()
      requires Valid()
      modifies this
      ensures Valid()
      ensures !old(advanceArmed) ==> Snapshot() == old(Snapshot()) && advanceArmed == old(advanceArmed)
      ensures old(advanceArmed) ==>
        match Fire(AdvanceThenAnnounce, values, old(currentIndex))
        case Stopped =>
          && !advanceArmed && currentState == 0
          && currentIndex == old(currentIndex) && renderArray == old(renderArray) && speech == old(speech)
        case Moved(next, word) =>
          && advanceArmed && currentState == old(currentState)
          && currentIndex == next && renderArray == Window(values, next)
          && speech == old(speech) + [CancelSpeech, Speak(word)]
      ensures timeLeft == old(timeLeft) && updates == old(updates) && tickArmed == old(tickArmed)
      ensures paused == old(paused) && noteModalVisible == old(noteModalVisible) && pauseNote == old(pauseNote)
    {
      if advanceArmed {
        if currentIndex + 1 >= |values| {
          StopAdvancing();
        } else {
          MoveToNext();
        }
      }
    }

    /** The slider interval at the last value: clear it and reset `currentState`. */
    method StopAdvancing()
      requires Valid() && advanceArmed && currentIndex + 1 >= |values|
      modifies this`advanceArmed, this`currentState
      ensures Valid() && !advanceArmed && currentState == 0
    {
      advanceArmed := false;
      currentState := 0;
    }

    /** The slider interval before the last value: move on, re-render and announce. */
    method MoveToNext()
      requires Valid() && advanceArmed && currentIndex + 1 < |values|
      modifies this`currentIndex, this`renderArray, this`speech
      ensures Valid()
      ensures currentIndex == old(currentIndex) + 1 && renderArray == Window(values, currentIndex)
      ensures speech == old(speech) + [CancelSpeech, Speak(values[currentIndex])]
    {
      var next := currentIndex + 1;
      AdvanceAnnounces(values, startIndex, currentIndex, speech);
      var cells := GetRenderArray(values, next);
      renderArray := cells;
      speech := speech + [CancelSpeech, Speak(values[next])];
      currentIndex := next;
    }

    /** A click on the page outside the dialog: pause (clearing both
        intervals and opening the note dialog) or resume (setting both again).
        While the dialog is open its overlay takes every click, so nothing
        happens. Neither the position nor the countdown changes. */
    method TogglePause()
      requires Valid()
      modifies this
      ensures Valid()
      ensures Snapshot() == old(Snapshot()) && pauseNote == old(pauseNote)
      ensures old(noteModalVisible) ==>
        paused == old(paused) && noteModalVisible && tickArmed == old(tickArmed) && advanceArmed == old(advanceArmed)
      ensures !old(noteModalVisible) && !old(paused) ==> paused && noteModalVisible && !tickArmed && !advanceArmed
      ensures !old(noteModalVisible) && old(paused) ==> !paused && !noteModalVisible && tickArmed && advanceArmed
    {
      if noteModalVisible {
        return;
      }
      if !paused {
        paused := true;
        noteModalVisible := true;
        tickArmed, advanceArmed := false, false;
      } else {
        paused := false;
        tickArmed, advanceArmed := true, true;
      }
    }

    /** Typing in the note dialog. */
    method EditNote(text: string)
      requires Valid()
      modifies this
      ensures Valid()
      ensures Snapshot() == old(Snapshot())
      ensures paused == old(paused) && noteModalVisible == old(noteModalVisible)
      ensures tickArmed == old(tickArmed) && advanceArmed == old(advanceArmed)
      ensures pauseNote == if old(noteModalVisible) then text else old(pauseNote)
    {
      if noteModalVisible {
        pauseNote := text;
      }
    }

    /** The dialog's Cancel button: resume, close the dialog, forget the note. */
    method CancelNote()
      requires Valid()
      modifies this
      ensures Valid()
      ensures Snapshot() == old(Snapshot())
      ensures !old(noteModalVisible) ==>
        && paused == old(paused) && !noteModalVisible && pauseNote == old(pauseNote)
        && tickArmed == old(tickArmed) && advanceArmed == old(advanceArmed)
      ensures old(noteModalVisible) ==>
        !paused && !noteModalVisible && pauseNote == "" && tickArmed && advanceArmed
    {
      if !noteModalVisible {
        return;
      }
      paused := false;
      tickArmed, advanceArmed := true, true;
      noteModalVisible := false;
      pauseNote := "";
    }

    /** The dialog's Save button: send the position and the note, close the
        dialog and forget the note; the slider stays paused. */
    method SaveNote()
      requires Valid()
      modifies this
      ensures Valid()
      ensures paused == old(paused) && !noteModalVisible
      ensures tickArmed == old(tickArmed) && advanceArmed == old(advanceArmed)
      ensures currentIndex == old(currentIndex) && timeLeft == old(timeLeft)
      ensures renderArray == old(renderArray) && currentState == old(currentState) && speech == old(speech)
      ensures !old(noteModalVisible) ==> updates == old(updates) && pauseNote == old(pauseNote)
      ensures old(noteModalVisible) ==>
        && paused && pauseNote == ""
        && updates == old(updates) + [ProgressUpdate(old(currentIndex), old(pauseNote))]
    {
      if !noteModalVisible {
        return;
      }
      updates := updates + [ProgressUpdate(currentIndex, pauseNote)];
      noteModalVisible := false;
      pauseNote := "";
    }
  }
}
