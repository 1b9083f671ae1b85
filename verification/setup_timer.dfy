/**
 * The setup form and player of src/pages/Timer.jsx: a comma-separated list
 * is tokenized and validated into `finalNum`, Start runs an interval that
 * announces the numbers one per firing, and one button pauses and resumes it.
 *
 * The armed interval is part of the state (`loop`), carrying the list it
 * closed over when it was set; each firing is the `Tick` event.
 */
module SetupTimer {
  import opened Strings
  import opened Sequencer

  /** Fewest numbers a project may have (Timer.jsx:83). */
  const MinimumNumbers: nat := 3

  /** The message shown when the form is rejected (Timer.jsx:84). */
  const SetupAlert := "Please enter a project name and at least 3 numbers."

  /** A token of the number list: non-empty, trimmed, comma-free. */
  predicate IsToken(t: string) {
    t != "" && IsTrimmed(t) && ',' !in t
  }

  /** `.map((n) => n.trim()).filter((n) => n !== "")`. */
  function TrimAndDrop(pieces: seq<string>): (tokens: seq<string>)
    ensures |tokens| <= |pieces|
    ensures forall i :: 0 <= i < |tokens| ==> tokens[i] != "" && IsTrimmed(tokens[i])
    ensures (forall i :: 0 <= i < |pieces| ==> ',' !in pieces[i]) ==>
              forall i :: 0 <= i < |tokens| ==> ',' !in tokens[i]
    decreases |pieces|
  {
    if pieces == [] then []
    else
      var t := Trim(pieces[0]);
      TrimKeepsCharacters(pieces[0], ',');
      (if t == "" then [] else [t]) + TrimAndDrop(pieces[1..])
  }

  /** The number list of the form: split on commas, trimmed, blanks dropped. */
  function Tokenize(input: string): (tokens: seq<string>)
    ensures forall i :: 0 <= i < |tokens| ==> IsToken(tokens[i])
    ensures |tokens| <= Count(input, ',') + 1
  {
    SplitLength(input, ',');
    TrimAndDrop(Split(input, ','))
  }

  lemma {:induction false} TrimAndDropKeepsTokens(tokens: seq<string>)
    requires forall i :: 0 <= i < |tokens| ==> IsToken(tokens[i])
    ensures TrimAndDrop(tokens) == tokens
    decreases |tokens|
  {
    if tokens != [] {
      TrimOfTrimmed(tokens[0]);
      TrimAndDropKeepsTokens(tokens[1..]);
      assert tokens == [tokens[0]] + tokens[1..];
    }
  }

  /** Writing a list of tokens with bare commas between them and tokenizing
      gives the list back; `TokenizePaddedList` allows whitespace around them. */
  lemma TokenizeJoin(tokens: seq<string>)
    requires forall i :: 0 <= i < |tokens| ==> IsToken(tokens[i])
    ensures Tokenize(Join(tokens, ',')) == tokens
  {
    if tokens == [] {
      assert Split("", ',') == [""];
      assert Trim("") == "";
    } else {
      SplitJoin(tokens, ',');
      TrimAndDropKeepsTokens(tokens);
    }
  }

  /** Trimming and dropping works piece by piece: the tokens of a list of
      pieces are those of its first part followed by those of the rest. */
  lemma {:induction false} TrimAndDropAppend(a: seq<string>, b: seq<string>)
    ensures TrimAndDrop(a + b) == TrimAndDrop(a) + TrimAndDrop(b)
    decreases |a|
  {
    if a == [] {
      assert a + b == b;
    } else {
      var t := Trim(a[0]);
      var head := if t == "" then [] else [t];
      assert (a + b)[0] == a[0];
      assert (a + b)[1..] == a[1..] + b;
      assert TrimAndDrop(a) == head + TrimAndDrop(a[1..]);
      assert TrimAndDrop(a + b) == head + TrimAndDrop(a[1..] + b);
      var rest, tail := TrimAndDrop(a[1..]), TrimAndDrop(b);
      TrimAndDropAppend(a[1..], b);
      ConcatAssociates(head, rest, tail);
    }
  }

  /** Concatenation regroups freely. */
  lemma ConcatAssociates<T>(x: seq<T>, y: seq<T>, z: seq<T>)
    ensures x + (y + z) == (x + y) + z
  {
  }

  /** One piece yields its trim, or nothing when the trim is empty. */
  lemma TrimAndDropPiece(p: string)
    ensures TrimAndDrop([p]) == if Trim(p) == "" then [] else [Trim(p)]
  {
    assert [p][1..] == [];
  }

  /** Tokenizing comma-free pieces written with commas between them, each
      possibly padded with whitespace or blank, gives the trims of the
      non-blank pieces, in order. */
  lemma TokenizePieces(pieces: seq<string>)
    requires |pieces| >= 1
    requires forall i :: 0 <= i < |pieces| ==> ',' !in pieces[i]
    ensures Tokenize(Join(pieces, ',')) == TrimAndDrop(pieces)
  {
    SplitJoin(pieces, ',');
  }

  /** With no blank piece, the tokens are the pieces' trims, one for one. */
  lemma {:induction false} TrimAndDropTrimsEach(pieces: seq<string>)
    requires forall i :: 0 <= i < |pieces| ==> Trim(pieces[i]) != ""
    ensures |TrimAndDrop(pieces)| == |pieces|
    ensures forall i :: 0 <= i < |pieces| ==> TrimAndDrop(pieces)[i] == Trim(pieces[i])
    decreases |pieces|
  {
    if pieces != [] {
      var tail := pieces[1..];
      forall i | 0 <= i < |tail| ensures Trim(tail[i]) != "" {
        assert tail[i] == pieces[i + 1];
      }
      TrimAndDropTrimsEach(tail);
      var rest, whole := TrimAndDrop(tail), TrimAndDrop(pieces);
      assert whole == [Trim(pieces[0])] + rest;
      forall i | 1 <= i < |pieces|
        ensures whole[i] == Trim(pieces[i])
      {
        assert whole[i] == rest[i - 1];
        assert tail[i - 1] == pieces[i];
      }
    }
  }

  /** Numbers written with commas between them and any whitespace around
      them tokenize to the numbers themselves, one for one. */
  lemma TokenizePaddedList(pieces: seq<string>)
    requires |pieces| >= 1
    requires forall i :: 0 <= i < |pieces| ==> ',' !in pieces[i] && Trim(pieces[i]) != ""
    ensures |Tokenize(Join(pieces, ','))| == |pieces|
    ensures forall i :: 0 <= i < |pieces| ==> Tokenize(Join(pieces, ','))[i] == Trim(pieces[i])
  {
    TokenizePieces(pieces);
    TrimAndDropTrimsEach(pieces);
  }

  /** Blank pieces contribute nothing: an input of only commas and
      whitespace has no tokens. */
  lemma {:induction false} BlankPiecesDropped(pieces: seq<string>)
    requires forall i, j :: 0 <= i < |pieces| && 0 <= j < |pieces[i]| ==> IsWhitespace(pieces[i][j])
    ensures TrimAndDrop(pieces) == []
    decreases |pieces|
  {
    if pieces != [] {
      BlankPiecesDropped(pieces[1..]);
    }
  }

  /** The form is accepted when the trimmed name is not empty and the list
      has at least `MinimumNumbers` tokens. */
  predicate Accepts(projectName: string, numberInput: string): (accepted: bool)
    ensures accepted ==> projectName != "" && Count(numberInput, ',') >= MinimumNumbers - 1
    ensures accepted ==> forall i :: 0 <= i < |Tokenize(numberInput)| ==> IsToken(Tokenize(numberInput)[i])
  {
    Trim(projectName) != "" && |Tokenize(numberInput)| >= MinimumNumbers
  }

  /** The interval that is set, and the list it closed over. */
  datatype Loop = Disarmed | Armed(mode: Stepping, values: seq<string>)

  class SetupForm {
    var finalNum: seq<string>
    var running: bool
    var paused: bool
    var index: nat
    var loop: Loop
    /** Calls into the speech engine, in order. */
    var speech: seq<Speech>
    /** Alert messages shown, in order. */
    var alerts: seq<string>
    /** Where in `speech` the current run began. */
    ghost var runStart: nat

    ghost predicate Valid()
      reads this
    {
      // an interval is set exactly while running and not paused
      && (loop.Armed? <==> running && !paused)
      && (paused ==> running)
      && runStart <= |speech|
      // the start loop's position counts what it has announced, and never
      // passes the end of its list
      && (loop.Armed? && loop.mode == AnnounceThenAdvance ==>
            index <= |loop.values| && Spoken(speech[runStart..]) == loop.values[..index])
    }

    constructor ()
      ensures Valid()
      ensures finalNum == [] && !running && !paused && index == 0 && loop == Disarmed
      ensures speech == [] && alerts == []
    {
      finalNum, running, paused, index, loop := [], false, false, 0, Disarmed;
      speech, alerts := [], [];
      runStart := 0;
    }

    /** `handleSubmit` with the form's current name and number list. */
    method Submit(projectName: string, numberInput: string) returns (accepted: bool)
      requires Valid()
      modifies this`finalNum, this`alerts
      ensures Valid()
      ensures accepted == Accepts(projectName, numberInput)
      ensures finalNum == if accepted then Tokenize(numberInput) else old(finalNum)
      ensures alerts == if accepted then old(alerts) else old(alerts) + [SetupAlert]
      ensures running == old(running) && paused == old(paused) && index == old(index)
      ensures loop == old(loop) && speech == old(speech)
    {
      accepted := Accepts(projectName, numberInput);
      if accepted {
        finalNum := Tokenize(numberInput);
      } else {
        alerts := alerts + [SetupAlert];
      }
    }

    /** `handleStart`: nothing without numbers or while running; otherwise
        run from the first number with announce-then-advance stepping. */
    method Start()
      requires Valid()
      modifies this
      ensures Valid()
      ensures |old(finalNum)| == 0 || old(running) ==>
        running == old(running) && paused == old(paused) && index == old(index) && loop == old(loop)
      ensures !(|old(finalNum)| == 0 || old(running)) ==>
        running && !paused && index == 0 && loop == Armed(AnnounceThenAdvance, finalNum)
      ensures finalNum == old(finalNum) && speech == old(speech) && alerts == old(alerts)
    {
      if |finalNum| == 0 || running {
        return;
      }
      running, paused, index := true, false, 0;
      loop := Armed(AnnounceThenAdvance, finalNum);
      runStart := |speech|;
      assert speech[runStart..] == [];
    }

    /** `handlePauseResume`: nothing unless running; pausing clears the
        interval and cancels speech; resuming sets an advance-then-announce
        interval from the current position. */
    method PauseResume()
      requires Valid()
      modifies this
      ensures Valid()
      ensures !old(running) ==> paused == old(paused) && loop == old(loop) && speech == old(speech)
      ensures old(running) && !old(paused) ==>
        paused && loop == Disarmed && speech == old(speech) + [CancelSpeech]
      ensures old(running) && old(paused) ==>
        !paused && loop == Armed(AdvanceThenAnnounce, finalNum) && speech == old(speech)
      ensures running == old(running) && index == old(index)
      ensures finalNum == old(finalNum) && alerts == old(alerts)
    {
      if !running {
        return;
      }
      if paused {
        paused := false;
        loop := Armed(AdvanceThenAnnounce, finalNum);
      } else {
        paused := true;
        loop := Disarmed;
        speech := speech + [CancelSpeech];
      }
    }

    /** The set interval fires. */
    method Tick()
      requires Valid()
      modifies this
      ensures Valid()
      ensures !old(loop).Armed? ==>
        running == old(running) && index == old(index) && loop == old(loop) && speech == old(speech)
      ensures old(loop).Armed? ==>
        match Fire(old(loop).mode, old(loop).values, old(index))
        case Stopped =>
          !running && loop == Disarmed && index == old(index) && speech == old(speech)
        case Moved(next, word) =>
          running && loop == old(loop) && index == next && speech == old(speech) + [Speak(word)]
      ensures paused == old(paused) && finalNum == old(finalNum) && alerts == old(alerts)
    {
      if !loop.Armed? {
        return;
      }
      match Fire(loop.mode, loop.values, index)
      case Stopped =>
        loop := Disarmed;
        running := false;
      case Moved(next, word) =>
        if loop.mode == AnnounceThenAdvance {
          SpokenAppend(speech[runStart..], [Speak(word)]);
          assert Spoken([Speak(word)]) == [word] + Spoken([]);
          assert (speech + [Speak(word)])[runStart..] == speech[runStart..] + [Speak(word)];
          assert loop.values[..index] + [word] == loop.values[..next];
        }
        speech := speech + [Speak(word)];
        index := next;
    }
  }
}
