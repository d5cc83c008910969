/**
  The text of Model steps on stdout whatever happens between their deltas. A progress notice ends an open
  line, and a restarted response voids what was shown of it, so exactly these two can break a step's text;
  and that text is the one of the deltas, which need not be the answer's.
 */
module StepNotices {
  import opened Wrappers
  import opened PyText
  import opened RunEvents
  import opened TimelineSpec
  import opened ScreenProofs
  import opened TimelineProofs

  /** An event between the beginning of a Model step and its answer. */
  predicate InStep(body: Body) {
    body.Delta? || body.AttemptRestarted? || Side(body)
  }

  /** The step's text after one event: a restarted response begins anew. */
  function NextText(text: string, body: Body): string {
    if body.AttemptRestarted? then "" else text + DeltaText(body)
  }

  /** The text the last attempt of a step brought. */
  function TextFrom(text: string, events: seq<Event>): string
    decreases |events|
  {
    if events == [] then text else TextFrom(NextText(text, events[0].body), events[1..])
  }

  predicate Restarts(events: seq<Event>) {
    events != [] && (events[0].body.AttemptRestarted? || Restarts(events[1..]))
  }

  /** The event prints a progress notice. */
  predicate Notices(t: Timeline, e: Event) {
    t.screen.showProgress && DisplayOf(t.outcome, e.body).Note?
  }

  /**
    A notice lands on an open line of stdout and more of the step follows it, or the response restarts
    when some of it was shown.
   */
  predicate Interrupted(t: Timeline, events: seq<Event>)
    decreases |events|
  {
    events != []
    && if events[0].body.AttemptRestarted? && t.screen.stepStreamed then true
       else if Notices(t, events[0]) && t.screen.lineOpen then StepText(events[1..]) != "" || Restarts(events[1..])
       else Interrupted(Apply(t, events[0]), events[1..])
  }

  // ---------------------------------------------------------------- one event in a step

  lemma FoldFirst(t: Timeline, events: seq<Event>)
    requires events != []
    ensures Fold(t, events) == Fold(Apply(t, events[0]), events[1..])
  {
  }

  lemma ApplyShows(t: Timeline, e: Event)
    requires !Stale(t.last, e)
    ensures Apply(t, e).screen == Show(t.screen, DisplayOf(t.outcome, e.body))
    ensures Apply(t, e).last == Advance(t.last, e)
  {
  }

  lemma SideMidStep(base: string, t: Timeline, text: string, e: Event)
    requires MidStep(base, t.screen, text) && Side(e.body) && !(Notices(t, e) && t.screen.lineOpen)
    ensures MidStep(base, Show(t.screen, DisplayOf(t.outcome, e.body)), text)
  {
  }

  /** A response that restarts before any of it was shown leaves no trace. */
  lemma RestartMidStep(base: string, s: Screen, text: string)
    requires MidStep(base, s, text) && !s.stepStreamed
    ensures MidStep(base, ShowRestart(s), "")
  {
    assert Held("");
  }

  /** Text that was shown of a restarted response stays on stdout, on closed lines where progress is shown. */
  lemma RestartVoids(base: string, s: Screen, text: string)
    requires MidStep(base, s, text) && s.stepStreamed
    ensures var r := ShowRestart(s);
            && text != "" && r.stdout == base + text + (if s.showProgress && !EndsLine(text) then "\n" else "")
            && r.pending == "" && !r.stepStreamed
            && r.lineOpen == (!s.showProgress && !EndsLine(text))
  {
    assert Held("");
    assert base + text + "" == base + text;
  }

  // ---------------------------------------------------------------- a lower bound on what is shown

  /** What stdout comes to once its open line is closed. */
  function Owed(s: Screen): nat {
    |s.stdout| + if s.lineOpen then 1 else 0
  }

  /** The room whole lines of a text take. */
  function Lines(text: string): nat {
    |text| + if text == "" || EndsLine(text) then 0 else 1
  }

  /** Inside a step that has brought `text`: stdout holds at least `n` characters and the text if it is shown. */
  predicate Loose(n: nat, s: Screen, text: string) {
    && s.streamText
    && s.pending == (if Held(text) then text else "")
    && s.stepStreamed == !Held(text)
    && |s.stdout| >= n + (if Held(text) then 0 else |text|)
    && (!Held(text) ==> Owed(s) >= n + Lines(text))
  }

  lemma MidStepLoose(base: string, s: Screen, text: string)
    requires MidStep(base, s, text)
    ensures Loose(|base|, s, text)
  {
    hide Held;
    if !EndsLine(text) && text != "" {
      assert Lines(text) == |text| + 1;
    }
  }

  lemma LooseDelta(n: nat, s: Screen, text: string, delta: string)
    requires Loose(n, s, text)
    ensures Loose(n, ShowDelta(s, delta), text + delta)
  {
    if delta == "" {
      assert text + delta == text;
    } else {
      assert EndsLine(text + delta) == EndsLine(delta);
      if !Held(text) && Held(text + delta) {
        HeldPrefix(text, delta);
      }
      hide Held;
    }
  }

  lemma LooseSide(n: nat, s: Screen, text: string, o: Outcome, body: Body)
    requires Loose(n, s, text) && Side(body)
    ensures Loose(n, Show(s, DisplayOf(o, body)), text)
  {
    hide Held, ToolKey, Take;
  }

  /** After a restart at least what stdout already held stays. */
  lemma LooseRestart(s: Screen)
    requires s.streamText
    ensures Loose(|s.stdout|, ShowRestart(s), "")
  {
    assert Held("");
  }

  lemma LooseLess(m: nat, n: nat, s: Screen, text: string)
    requires m <= n && Loose(n, s, text)
    ensures Loose(m, s, text)
  {
    hide Held;
  }

  lemma LooseEvent(n: nat, t: Timeline, text: string, e: Event)
    requires Loose(n, t.screen, text) && InStep(e.body) && !Stale(t.last, e)
    ensures Loose(n, Apply(t, e).screen, NextText(text, e.body))
  {
    ApplyShows(t, e);
    hide Apply, Held, Lines, ShowRestart, ShowDelta, Take;
    if e.body.AttemptRestarted? {
      LooseRestart(t.screen);
      LooseLess(n, |t.screen.stdout|, ShowRestart(t.screen), "");
    } else if e.body.Delta? {
      if e.body.text.Some? {
        LooseDelta(n, t.screen, text, e.body.text.value);
      }
      assert text + "" == text;
    } else {
      LooseSide(n, t.screen, text, t.outcome, e.body);
      assert text + "" == text;
    }
  }

  lemma {:induction false} LooseFold(n: nat, t: Timeline, text: string, events: seq<Event>)
    requires Loose(n, t.screen, text) && InOrder(t.last, events) && forall e <- events :: InStep(e.body)
    ensures Loose(n, Fold(t, events).screen, TextFrom(text, events))
    decreases |events|
  {
    if events != [] {
      hide Loose, Fold, Apply, NextText, InStep, Stale;
      LooseEvent(n, t, text, events[0]);
      FoldFirst(t, events);
      LooseFold(n, Apply(t, events[0]), NextText(text, events[0].body), events[1..]);
    }
  }

  lemma ShownLines(text: string)
    ensures |Shown(text)| <= Lines(text)
    ensures text != "" && !IsSilent(text) ==> |Shown(text)| == Lines(text)
  {
    hide IsSilent;
  }

  lemma LooseAnswer(n: nat, s: Screen, text: string, answer: string)
    requires Loose(n, s, text)
    ensures |ShowAnswer(s, answer).stdout| >= n + |StepShown(text, answer)|
  {
    ShownLines(if Held(text) then answer else text);
    hide Held, IsSilent;
  }

  /** Ending a step without its answer shows what an answer with the text so far would. */
  lemma FinishIsAnswer(n: nat, s: Screen, text: string)
    requires Loose(n, s, text)
    ensures FinishText(s).stdout == ShowAnswer(s, text).stdout
  {
    hide Held, IsSilent, EndsLine;
  }

  // ---------------------------------------------------------------- a step after its text was broken

  /** Inside a step whose text was written, all lines of stdout closed. */
  predicate Closed(s: Screen) {
    s.streamText && s.stepStreamed && s.pending == "" && !s.lineOpen
  }

  lemma NoticeCloses(base: string, t: Timeline, text: string, e: Event)
    requires MidStep(base, t.screen, text) && Notices(t, e) && t.screen.lineOpen && Side(e.body)
    ensures var s := Show(t.screen, DisplayOf(t.outcome, e.body));
            Closed(s) && s.stdout == base + text + "\n" && Shown(text) == text + "\n" && text != "" && !Held(text)
  {
    assert Held("");
    if IsSilent(text) {
      assert Held(text);
    }
  }

  lemma OneQuiet(t: Timeline, events: seq<Event>)
    requires events != [] && Closed(t.screen) && InStep(events[0].body) && !Stale(t.last, events[0])
    requires StepText(events) == "" && !Restarts(events)
    ensures var u := Apply(t, events[0]);
            Closed(u.screen) && u.screen.stdout == t.screen.stdout
            && StepText(events[1..]) == "" && !Restarts(events[1..])
  {
    hide Take;
  }

  /** Without further text a closed screen stays as it is. */
  lemma {:induction false} RestQuiet(t: Timeline, events: seq<Event>)
    requires Closed(t.screen) && InOrder(t.last, events) && forall e <- events :: InStep(e.body)
    requires StepText(events) == "" && !Restarts(events)
    ensures Closed(Fold(t, events).screen) && Fold(t, events).screen.stdout == t.screen.stdout
    decreases |events|
  {
    if events != [] {
      hide StepText, Restarts, Fold, Apply, Closed, InStep, Stale;
      OneQuiet(t, events);
      FoldFirst(t, events);
      RestQuiet(Apply(t, events[0]), events[1..]);
    }
  }

  lemma {:induction false} TextOfLast(text: string, events: seq<Event>)
    requires !Restarts(events)
    ensures TextFrom(text, events) == text + StepText(events)
    decreases |events|
  {
    if events == [] {
      assert text + "" == text;
    } else {
      var d := DeltaText(events[0].body);
      TextOfLast(text + d, events[1..]);
      assert (text + d) + StepText(events[1..]) == text + (d + StepText(events[1..]));
    }
  }

  /** With its line closed, shown text leaves no less on stdout. */
  lemma ClosedLoose(n: nat, s: Screen, text: string)
    requires Closed(s) && |s.stdout| >= n + |text| + 1 && !Held(text)
    ensures Loose(n, s, text)
  {
    hide Held;
  }

  /** Written text that is voided later is too much on stdout. */
  lemma {:induction false} VoidedLonger(n: nat, t: Timeline, text: string, events: seq<Event>, answer: string)
    requires Loose(n, t.screen, text) && !Held(text) && InOrder(t.last, events)
    requires forall e <- events :: InStep(e.body)
    requires Restarts(events)
    ensures |ShowAnswer(Fold(t, events).screen, answer).stdout| > n + |StepShown(TextFrom(text, events), answer)|
    decreases |events|
  {
    var e, rest := events[0], events[1..];
    FoldFirst(t, events);
    ApplyShows(t, e);
    if e.body.AttemptRestarted? {
      VisibleLength(n, t.screen, text);
      LooseRestart(t.screen);
      assert TextFrom(text, events) == TextFrom("", rest);
      hide *;
      LooseFold(|t.screen.stdout|, Apply(t, e), "", rest);
      LooseAnswer(|t.screen.stdout|, Fold(t, events).screen, TextFrom("", rest), answer);
    } else {
      LooseEvent(n, t, text, e);
      StillShown(text, DeltaText(e.body));
      hide Loose, Fold, Apply, Show, DisplayOf, ShowAnswer, Held, StepShown, InStep, Stale;
      VoidedLonger(n, Apply(t, e), NextText(text, e.body), rest, answer);
    }
  }

  lemma VisibleLength(n: nat, s: Screen, text: string)
    requires Loose(n, s, text) && !Held(text)
    ensures |s.stdout| > n && s.streamText
  {
    assert Held("");
    hide Held;
  }

  lemma StillShown(text: string, more: string)
    requires !Held(text)
    ensures !Held(text + more)
  {
    if Held(text + more) {
      HeldPrefix(text, more);
    }
  }

  /** Inside a step whose text was written and whose last line was closed early. */
  predicate Early(n: nat, s: Screen, text: string) {
    s.streamText && s.stepStreamed && s.pending == "" && |s.stdout| >= n + |text| + 1 && Owed(s) >= n + |text| + 1
  }

  /** The same once more text followed. */
  predicate Broken(n: nat, s: Screen, text: string) {
    s.streamText && s.stepStreamed && s.pending == "" && |s.stdout| >= n + |text| + 1 && Owed(s) > n + Lines(text)
  }

  lemma BrokenEvent(n: nat, t: Timeline, text: string, e: Event)
    requires !Stale(t.last, e) && InStep(e.body) && !e.body.AttemptRestarted?
    requires Early(n, t.screen, text)
    ensures Early(n, Apply(t, e).screen, text + DeltaText(e.body))
    ensures Broken(n, t.screen, text) || DeltaText(e.body) != "" ==>
              Broken(n, Apply(t, e).screen, text + DeltaText(e.body))
  {
    hide Take, ToolKey;
    var d := DeltaText(e.body);
    assert d != "" ==> EndsLine(text + d) == EndsLine(d);
    assert text + "" == text;
  }

  lemma {:induction false} BrokenFold(n: nat, t: Timeline, text: string, events: seq<Event>)
    requires InOrder(t.last, events) && (forall e <- events :: InStep(e.body)) && !Restarts(events)
    requires Early(n, t.screen, text) && (Broken(n, t.screen, text) || StepText(events) != "")
    ensures Broken(n, Fold(t, events).screen, text + StepText(events))
    decreases |events|
  {
    if events == [] {
      assert text + "" == text;
    } else {
      var d := DeltaText(events[0].body);
      BrokenEvent(n, t, text, events[0]);
      FoldFirst(t, events);
      hide Early, Broken, Fold, Apply, InStep, Stale;
      assert (text + d) + StepText(events[1..]) == text + (d + StepText(events[1..]));
      BrokenFold(n, Apply(t, events[0]), text + d, events[1..]);
    }
  }

  /** The answer of a step whose text was written only closes the line. */
  lemma AnswerCloses(s: Screen, answer: string)
    requires s.stepStreamed
    ensures |ShowAnswer(s, answer).stdout| == Owed(s)
    ensures !s.lineOpen ==> ShowAnswer(s, answer).stdout == s.stdout
  {
  }

  /** What stdout grows by in a step: exactly `shown`, or more than that. */
  predicate Ends(base: string, stdout: string, shown: string, interrupted: bool) {
    if interrupted then |stdout| > |base| + |shown| else stdout == base + shown
  }

  /** After a notice closed an open line: nothing more may follow in the step. */
  lemma NoticeEnds(base: string, t: Timeline, text: string, events: seq<Event>, answer: string)
    requires MidStep(base, t.screen, text) && InOrder(t.last, events) && events != []
    requires forall e <- events :: InStep(e.body)
    requires Notices(t, events[0]) && t.screen.lineOpen && Side(events[0].body)
    ensures Ends(base, ShowAnswer(Fold(t, events).screen, answer).stdout, StepShown(TextFrom(text, events), answer),
                 StepText(events[1..]) != "" || Restarts(events[1..]))
  {
    var u, rest := Apply(t, events[0]), events[1..];
    NoticeCloses(base, t, text, events[0]);
    ApplyShows(t, events[0]);
    FoldFirst(t, events);
    assert text + "" == text && TextFrom(text, events) == TextFrom(text, rest);
    if Restarts(rest) {
      ClosedLoose(|base|, u.screen, text);
      hide *;
      VoidedLonger(|base|, u, text, rest, answer);
      EndsLonger(base, ShowAnswer(Fold(u, rest).screen, answer).stdout, StepShown(TextFrom(text, rest), answer));
    } else {
      NoticeEndsHere(base, t, u, text, rest, answer);
    }
  }

  lemma EndsLonger(base: string, stdout: string, shown: string)
    requires |stdout| > |base| + |shown|
    ensures Ends(base, stdout, shown, true)
  {
  }

  lemma NoticeEndsHere(base: string, t: Timeline, u: Timeline, text: string, rest: seq<Event>, answer: string)
    requires Closed(u.screen) && u.screen.stdout == base + text + "\n" && Shown(text) == text + "\n" && !Held(text)
    requires InOrder(u.last, rest) && (forall e <- rest :: InStep(e.body)) && !Restarts(rest)
    requires text != ""
    ensures Ends(base, ShowAnswer(Fold(u, rest).screen, answer).stdout, StepShown(TextFrom(text, rest), answer),
                 StepText(rest) != "")
  {
    TextOfLast(text, rest);
    StillShown(text, StepText(rest));
    hide Held, StepText, Restarts, Fold, Shown, TextFrom;
    if StepText(rest) == "" {
      RestQuiet(u, rest);
      AnswerCloses(Fold(u, rest).screen, answer);
      assert text + "" == text;
      assert (base + text) + "\n" == base + (text + "\n");
    } else {
      BrokenFold(|base|, u, text, rest);
      AnswerCloses(Fold(u, rest).screen, answer);
      ShownLines(text + StepText(rest));
    }
  }

  /** A restart after some of the response was shown leaves too much on stdout. */
  lemma RestartEnds(base: string, t: Timeline, text: string, events: seq<Event>, answer: string)
    requires MidStep(base, t.screen, text) && InOrder(t.last, events) && events != []
    requires forall e <- events :: InStep(e.body)
    requires events[0].body.AttemptRestarted? && t.screen.stepStreamed
    ensures Ends(base, ShowAnswer(Fold(t, events).screen, answer).stdout, StepShown(TextFrom(text, events), answer),
                 true)
  {
    MidStepLoose(base, t.screen, text);
    assert !Held(text) && Restarts(events);
    hide *;
    VoidedLonger(|base|, t, text, events, answer);
    EndsLonger(base, ShowAnswer(Fold(t, events).screen, answer).stdout, StepShown(TextFrom(text, events), answer));
  }

  lemma NothingMore(base: string, t: Timeline, text: string, answer: string)
    requires MidStep(base, t.screen, text)
    ensures Ends(base, ShowAnswer(Fold(t, []).screen, answer).stdout, StepShown(TextFrom(text, []), answer), false)
  {
    AnswerEndsStep(base, t.screen, text, answer);
  }

  /** From any point inside a step: the rest of it ends with the step's text on stdout, or with more than that. */
  lemma {:induction false} StepEnds(base: string, t: Timeline, text: string, events: seq<Event>, answer: string)
    requires MidStep(base, t.screen, text) && InOrder(t.last, events)
    requires forall e <- events :: InStep(e.body)
    ensures Ends(base, ShowAnswer(Fold(t, events).screen, answer).stdout, StepShown(TextFrom(text, events), answer),
                 Interrupted(t, events))
    decreases |events|
  {
    hide Take, Fold, Apply, Show, DisplayOf, MidStep, Stale, ShowAnswer, Held, Ends, StepShown, Side, StepText;
    if events == [] {
      NothingMore(base, t, text, answer);
    } else {
      var e, rest := events[0], events[1..];
      FoldFirst(t, events);
      ApplyShows(t, e);
      if e.body.AttemptRestarted? && t.screen.stepStreamed {
        RestartEnds(base, t, text, events, answer);
      } else if Notices(t, e) && t.screen.lineOpen {
        NoticeIsSide(t, e);
        NoticeEnds(base, t, text, events, answer);
      } else {
        EventMidStep(base, t, text, e);
        StepEnds(base, Apply(t, e), NextText(text, e.body), rest, answer);
      }
    }
  }

  lemma NoticeIsSide(t: Timeline, e: Event)
    requires Notices(t, e) && InStep(e.body)
    ensures Side(e.body)
  {
  }

  lemma EventMidStep(base: string, t: Timeline, text: string, e: Event)
    requires MidStep(base, t.screen, text) && InStep(e.body) && !Stale(t.last, e)
    requires !(e.body.AttemptRestarted? && t.screen.stepStreamed) && !(Notices(t, e) && t.screen.lineOpen)
    ensures MidStep(base, Apply(t, e).screen, NextText(text, e.body))
  {
    ApplyShows(t, e);
    hide Apply, Take, MidStep, Held, ShowRestart;
    if e.body.AttemptRestarted? {
      RestartMidStep(base, t.screen, text);
    } else if e.body.Delta? {
      DeltaEvent(base, t.screen, text, t.outcome, e.body);
    } else {
      SideMidStep(base, t, text, e);
      assert text + "" == text;
    }
  }

  // ---------------------------------------------------------------- steps and Runs

  /** One Model step: its events up to the answer, and the answer. */
  datatype Step = Step(events: seq<Event>, answer: Event)
  {
    function Events(): seq<Event> { events + [answer] }

    /** The answer's text. */
    function Text(): string {
      if answer.body.AssistantOutput? && answer.body.message.Some? then
        MessageText(answer.body.message.value.content)
      else ""
    }

    /** The text the deltas of its last attempt brought. */
    function Streamed(): string { TextFrom("", events) }

    predicate Valid() {
      (forall e <- events :: InStep(e.body)) && answer.body.AssistantOutput?
    }

    /** The deltas show what the answer says, or were all held back until it came. */
    predicate Agrees() {
      Held(Streamed()) || Shown(Text()) == Shown(Streamed())
    }
  }

  lemma StepFolded(t: Timeline, step: Step)
    requires InOrder(t.last, step.Events()) && step.answer.body.AssistantOutput?
    ensures InOrder(t.last, step.events)
    ensures Fold(t, step.Events()).screen == ShowAnswer(Fold(t, step.events).screen, step.Text())
    ensures Fold(t, step.Events()).last == LastOf(t.last, step.Events())
  {
    FoldAppend(t, step.events, [step.answer]);
    InOrderSplit(t.last, step.events, [step.answer]);
    FoldLast(t, step.events);
    FoldLast(t, step.Events());
    FoldOne(Fold(t, step.events), step.answer);
    hide Fold, ShowAnswer, Take, InOrder, LastOf;
    ApplyShows(Fold(t, step.events), step.answer);
  }

  /**
    A step among any events: stdout grows by exactly the step's text, as whole lines, if and only if
    nothing interrupts the text; otherwise it grows by more. That text is the answer's if and only if the
    deltas agree with the answer.
   */
  lemma StepTextIff(t: Timeline, step: Step)
    requires AtRest(t.screen) && InOrder(t.last, step.Events()) && step.Valid()
    ensures Fold(t, step.Events()).screen.stdout == t.screen.stdout + StepShown(step.Streamed(), step.Text())
       <==> !Interrupted(t, step.events)
    ensures Interrupted(t, step.events) ==>
              |Fold(t, step.Events()).screen.stdout| > |t.screen.stdout| + |StepShown(step.Streamed(), step.Text())|
    ensures !Interrupted(t, step.events) ==>
              (Fold(t, step.Events()).screen.stdout == t.screen.stdout + Shown(step.Text()) <==> step.Agrees())
    ensures AtRest(Fold(t, step.Events()).screen)
  {
    StepFolded(t, step);
    RestIsMidStep(t.screen);
    MidStepLoose(t.screen.stdout, t.screen, "");
    AgreesIff(t.screen.stdout, step);
    hide MidStep, AtRest, Fold, InOrder, InStep, ShowAnswer, TextFrom, Interrupted, Step.Events, Step.Text, Loose,
         Step.Agrees, StepShown;
    StepEnds(t.screen.stdout, t, "", step.events, step.Text());
    LooseFold(|t.screen.stdout|, t, "", step.events);
    AnswerAtRest(|t.screen.stdout|, Fold(t, step.events).screen, TextFrom("", step.events), step.Text());
  }

  lemma AgreesIff(base: string, step: Step)
    ensures base + StepShown(step.Streamed(), step.Text()) == base + Shown(step.Text()) <==> step.Agrees()
  {
    hide Shown, Held, TextFrom, Step.Text;
    var a, b := StepShown(step.Streamed(), step.Text()), Shown(step.Text());
    assert (base + a)[|base|..] == a && (base + b)[|base|..] == b;
  }

  lemma AnswerAtRest(n: nat, s: Screen, text: string, answer: string)
    requires Loose(n, s, text)
    ensures AtRest(ShowAnswer(s, answer))
  {
    hide Held, IsSilent;
  }

  /**
    The same for a step that is cut off by the end of the Run or a lost stream: what its last attempt
    brought is shown as a finished answer would be.
   */
  lemma UnfinishedStep(t: Timeline, events: seq<Event>)
    requires AtRest(t.screen) && InOrder(t.last, events) && forall e <- events :: InStep(e.body)
    ensures FinishText(Fold(t, events).screen).stdout == t.screen.stdout + Shown(TextFrom("", events))
       <==> !Interrupted(t, events)
    ensures Ends(t.screen.stdout, FinishText(Fold(t, events).screen).stdout, Shown(TextFrom("", events)),
                 Interrupted(t, events))
  {
    RestIsMidStep(t.screen);
    MidStepLoose(t.screen.stdout, t.screen, "");
    hide MidStep, AtRest, Fold, InOrder, InStep, ShowAnswer, FinishText, TextFrom, Interrupted, Loose, Shown;
    var text := TextFrom("", events);
    StepEnds(t.screen.stdout, t, "", events, text);
    LooseFold(|t.screen.stdout|, t, "", events);
    FinishIsAnswer(|t.screen.stdout|, Fold(t, events).screen, text);
  }

  function RunEventsOf(steps: seq<Step>): seq<Event> {
    if steps == [] then [] else steps[0].Events() + RunEventsOf(steps[1..])
  }

  /** What undisturbed steps show. */
  function RunText(steps: seq<Step>): string {
    if steps == [] then "" else StepShown(steps[0].Streamed(), steps[0].Text()) + RunText(steps[1..])
  }

  /** The answers of the steps as whole lines, silent ones left out. */
  function AnswersText(steps: seq<Step>): string {
    if steps == [] then "" else Shown(steps[0].Text()) + AnswersText(steps[1..])
  }

  lemma {:induction false} AnswersShown(steps: seq<Step>)
    requires forall k :: 0 <= k < |steps| ==> steps[k].Agrees()
    ensures RunText(steps) == AnswersText(steps)
  {
    if steps != [] {
      hide Held, TextFrom, Step.Text;
      AnswersShown(steps[1..]);
    }
  }

  /** No step of the Run is interrupted. */
  predicate Undisturbed(t: Timeline, steps: seq<Step>)
    decreases |steps|
  {
    steps == [] || (!Interrupted(t, steps[0].events) && Undisturbed(Fold(t, steps[0].Events()), steps[1..]))
  }

  /** Two stretches, each of which shows exactly its text or more. */
  lemma EndsCompose(base: string, first: string, whole: string, a: string, b: string, x: bool, y: bool)
    requires Ends(base, first, a, x) && Ends(first, whole, b, y)
    ensures Ends(base, whole, a + b, x || y)
  {
    assert (base + a) + b == base + (a + b);
  }

  /** Finished steps put exactly their texts on stdout, in order, unless one of them is interrupted. */
  lemma {:induction false} StreamedSteps(t: Timeline, steps: seq<Step>)
    requires AtRest(t.screen) && InOrder(t.last, RunEventsOf(steps))
    requires forall k :: 0 <= k < |steps| ==> steps[k].Valid()
    ensures Ends(t.screen.stdout, Fold(t, RunEventsOf(steps)).screen.stdout, RunText(steps), !Undisturbed(t, steps))
    ensures AtRest(Fold(t, RunEventsOf(steps)).screen)
    decreases |steps|
  {
    if steps == [] {
      assert t.screen.stdout + "" == t.screen.stdout;
    } else {
      var first, rest := steps[0].Events(), RunEventsOf(steps[1..]);
      FoldAppend(t, first, rest);
      InOrderSplit(t.last, first, rest);
      FoldLast(t, first);
      hide StepShown, Fold, InOrder, LastOf, AtRest, Interrupted, Step.Events, Step.Valid, Step.Text, Step.Streamed,
           Step.Agrees;
      StepTextIff(t, steps[0]);
      var shown, u := StepShown(steps[0].Streamed(), steps[0].Text()), Fold(t, first);
      assert Ends(t.screen.stdout, u.screen.stdout, shown, Interrupted(t, steps[0].events));
      hide Ends;
      StreamedSteps(u, steps[1..]);
      EndsCompose(t.screen.stdout, u.screen.stdout, Fold(u, rest).screen.stdout, shown, RunText(steps[1..]),
                  Interrupted(t, steps[0].events), !Undisturbed(u, steps[1..]));
    }
  }

  /** The last event of a Run: what is held back is shown, and the line is closed. */
  lemma RunEnds(t: Timeline, events: seq<Event>, end: Event)
    requires InOrder(t.last, events + [end]) && end.body.Terminal?
    ensures InOrder(t.last, events)
    ensures Fold(t, events + [end]).screen == FinishText(Fold(t, events).screen) && Finished(Fold(t, events + [end]))
  {
    FoldAppend(t, events, [end]);
    InOrderSplit(t.last, events, [end]);
    FoldLast(t, events);
    FoldOne(Fold(t, events), end);
    hide Fold, InOrder, LastOf, FinishText;
  }

  /** A whole Run: its steps, what came after the last answer, and the end. */
  function WholeRun(steps: seq<Step>, tail: seq<Event>, end: Event): seq<Event> {
    RunEventsOf(steps) + (tail + [end])
  }

  /** Nothing of the Run's text is broken or voided: neither in a finished step nor behind the last answer. */
  predicate Smooth(t: Timeline, steps: seq<Step>, tail: seq<Event>) {
    Undisturbed(t, steps) && !Interrupted(Fold(t, RunEventsOf(steps)), tail)
  }

  /** Every Run is of this form: its steps end at its answers. */
  lemma {:induction false} RunSplits(events: seq<Event>) returns (steps: seq<Step>, tail: seq<Event>)
    requires forall e <- events :: !e.body.Terminal?
    ensures events == RunEventsOf(steps) + tail
    ensures (forall k :: 0 <= k < |steps| ==> steps[k].Valid()) && (forall e <- tail :: InStep(e.body))
  {
    steps, tail := [], [];
    if events != [] {
      var e := events[0];
      steps, tail := RunSplits(events[1..]);
      if e.body.AssistantOutput? {
        var first := Step([], e);
        assert [first] + steps == [first] + ([first] + steps)[1..];
        assert first.Events() == [e];
        steps := [first] + steps;
      } else if steps == [] {
        tail := [e] + tail;
      } else {
        var first, rest := Step([e] + steps[0].events, steps[0].answer), steps[1..];
        assert first.Events() == [e] + steps[0].Events();
        assert ([first] + rest)[1..] == rest;
        steps := [first] + rest;
      }
    }
  }

  lemma RunAsEnds(t: Timeline, steps: seq<Step>, tail: seq<Event>, end: Event)
    requires AtRest(t.screen) && InOrder(t.last, WholeRun(steps, tail, end))
    requires (forall k :: 0 <= k < |steps| ==> steps[k].Valid()) && (forall e <- tail :: InStep(e.body))
    requires end.body.Terminal?
    ensures var u := Fold(t, WholeRun(steps, tail, end));
            && Finished(u) && !u.screen.lineOpen && u.screen.pending == ""
            && Ends(t.screen.stdout, u.screen.stdout, RunText(steps) + Shown(TextFrom("", tail)),
                    !Smooth(t, steps, tail))
  {
    var first, last := RunEventsOf(steps), tail + [end];
    FoldAppend(t, first, last);
    InOrderSplit(t.last, first, last);
    FoldLast(t, first);
    hide Fold, InOrder, LastOf, AtRest, Interrupted, Undisturbed, Step.Valid, InStep, TextFrom, FinishText, Ends, Shown;
    var mid := Fold(t, first);
    StreamedSteps(t, steps);
    RunEnds(mid, tail, end);
    UnfinishedStep(mid, tail);
    LinesClosed(Fold(mid, tail).screen, "");
    EndsCompose(t.screen.stdout, mid.screen.stdout, FinishText(Fold(mid, tail).screen).stdout, RunText(steps),
                Shown(TextFrom("", tail)), !Undisturbed(t, steps), Interrupted(mid, tail));
  }

  /**
    From its first event to its last, stdout grows by exactly the texts of the Run's steps and of what the
    last one left unfinished, in order, if and only if nothing interrupts them. These are the answers where
    the deltas agree with them.
   */
  lemma StreamedRun(t: Timeline, steps: seq<Step>, tail: seq<Event>, end: Event)
    requires AtRest(t.screen) && InOrder(t.last, WholeRun(steps, tail, end))
    requires (forall k :: 0 <= k < |steps| ==> steps[k].Valid()) && (forall e <- tail :: InStep(e.body))
    requires end.body.Terminal?
    ensures var u, shown := Fold(t, WholeRun(steps, tail, end)), RunText(steps) + Shown(TextFrom("", tail));
            && Finished(u) && !u.screen.lineOpen && u.screen.pending == ""
            && (u.screen.stdout == t.screen.stdout + shown <==> Smooth(t, steps, tail))
            && |u.screen.stdout| >= |t.screen.stdout| + |shown|
    ensures (forall k :: 0 <= k < |steps| ==> steps[k].Agrees()) ==> RunText(steps) == AnswersText(steps)
  {
    RunAsEnds(t, steps, tail, end);
    hide Step.Agrees, Step.Valid, InStep, TextFrom, Shown, Smooth, WholeRun, Fold, RunText, AnswersText, InOrder,
         AtRest;
    if forall k :: 0 <= k < |steps| ==> steps[k].Agrees() {
      AnswersShown(steps);
    }
  }

  // ---------------------------------------------------------------- inputs on which stdout is not the answer

  /** Text that begins with another character than the silent answer's cannot become that. */
  lemma StartShows(text: string)
    requires text != "" && !IsSpace(text[0]) && text[0] != '['
    ensures !Held(text)
  {
    var first := text[..1];
    assert first == "" + first + "";
    StripPadded("", first, "");
    assert !Held(first);
    assert text == first + text[1..];
    hide Held;
    StillShown(first, text[1..]);
  }

  /** The `k`th event from now on, numbered as the server numbers them. */
  function Coming(t: Timeline, k: nat, body: Body): Event {
    Event(Some(t.last + k), body)
  }

  lemma FoldThree(t: Timeline, e0: Event, e1: Event, e2: Event)
    ensures Fold(t, [e0, e1, e2]) == Apply(Apply(Apply(t, e0), e1), e2)
  {
    FoldFirst(t, [e0, e1, e2]);
    assert [e0, e1, e2][1..] == [e1, e2];
    FoldFirst(Apply(t, e0), [e1, e2]);
    assert [e1, e2][1..] == [e2];
    FoldOne(Apply(Apply(t, e0), e1), e2);
  }

  lemma TextOfThree(e0: Event, e1: Event, e2: Event)
    ensures TextFrom("", [e0, e1, e2]) == NextText(NextText(NextText("", e0.body), e1.body), e2.body)
  {
    hide NextText;
    assert [e0, e1, e2][1..] == [e1, e2] && [e1, e2][1..] == [e2] && [e2][1..] == [];
    var text := NextText(NextText("", e0.body), e1.body);
    assert TextFrom(text, [e2]) == NextText(text, e2.body);
  }

  /** A first delta that is shown at once. */
  lemma FirstDelta(t: Timeline, text: string)
    requires AtRest(t.screen) && text != "" && !Held(text)
    ensures var u := Apply(t, Coming(t, 1, Delta(Some(text))));
            && u.last == t.last + 1 && u.outcome == t.outcome
            && u.screen
               == t.screen.(stdout := t.screen.stdout + text, lineOpen := !EndsLine(text), stepStreamed := true)
  {
    hide Held;
    assert t.screen.pending + text == text;
  }

  lemma TwoLines(base: string, a: string, b: string)
    ensures base + a + "\n" + b + "\n" == base + (a + "\n" + b + "\n")
    ensures base + a + "" + b + "\n" == base + (a + b + "\n")
  {
  }

  /** A notice on the open line that a first delta left. */
  lemma NoticeAfter(u: Timeline, text: string, e: Event)
    requires u.screen.streamText && u.screen.showProgress && u.screen.stepStreamed && u.screen.lineOpen
    requires u.screen.pending == "" && Side(e.body) && DisplayOf(u.outcome, e.body).Note? && !Stale(u.last, e)
    requires text != ""
    ensures var v := Apply(u, e);
            Notices(u, e)
            && v.screen.stdout == u.screen.stdout + "\n" && v.screen.pending == "" && v.screen.stepStreamed
            && v.screen.streamText && !v.screen.lineOpen && v.last == Advance(u.last, e)
            && ShowDelta(v.screen, text).stdout == v.screen.stdout + text
            && ShowDelta(v.screen, text).lineOpen == !EndsLine(text) && ShowDelta(v.screen, text).pending == ""
  {
    hide Take, Held;
  }

  /** A step whose text any notice breaks, such as that of a Tool start: its two halves end up on lines of their own. */
  lemma NoticeBreaksText(t: Timeline, notice: Body)
    requires AtRest(t.screen) && t.screen.showProgress
    requires Side(notice) && DisplayOf(t.outcome, notice).Note?
    ensures var events :=
              [Coming(t, 1, Delta(Some("a"))), Coming(t, 2, notice), Coming(t, 3, Delta(Some("b")))];
            && Interrupted(t, events) && TextFrom("", events) == "ab"
            && FinishText(Fold(t, events).screen).stdout == t.screen.stdout + ("a" + "\n" + "b" + "\n")
  {
    StartShows("a");
    FirstDelta(t, "a");
    var e0, e1, e2 := Coming(t, 1, Delta(Some("a"))), Coming(t, 2, notice), Coming(t, 3, Delta(Some("b")));
    var events, u := [e0, e1, e2], Apply(t, e0);
    hide Held, IsSilent, Take, Apply, Fold, TextFrom, Side, ShowDelta, Notices;
    assert events[1..] == [e1, e2] && [e1, e2][1..] == [e2] && [e2][1..] == [];
    assert StepText([e2]) == "b";
    NoticeAfter(u, "b", e1);
    TextOfThree(e0, e1, e2);
    FoldThree(t, e0, e1, e2);
    hide StepText;
    ApplyShows(Apply(u, e1), e2);
    assert "" + "a" + "" + "b" == "ab";
    TwoLines(t.screen.stdout, "a", "b");
  }

  /** A restart after a first delta, and the first delta of the new attempt. */
  lemma RestartAfter(u: Timeline, text: string, e: Event)
    requires u.screen.streamText && u.screen.stepStreamed && u.screen.lineOpen && u.screen.pending == ""
    requires e.body.AttemptRestarted? && !Stale(u.last, e) && text != "" && !Held(text)
    ensures var v := Apply(u, e);
            v.last == Advance(u.last, e)
            && v.screen.stdout == u.screen.stdout + (if u.screen.showProgress then "\n" else "")
            && ShowDelta(v.screen, text).stdout == v.screen.stdout + text
            && ShowDelta(v.screen, text).lineOpen == !EndsLine(text) && ShowDelta(v.screen, text).pending == ""
  {
    hide Held;
    assert u.screen.stdout + "" == u.screen.stdout && "" + text == text;
  }

  /** A response that restarts after its first words: they stay, without progress lines even in the same line. */
  lemma RestartJoinsText(t: Timeline)
    requires AtRest(t.screen)
    ensures var events :=
              [Coming(t, 1, Delta(Some("a"))), Coming(t, 2, AttemptRestarted), Coming(t, 3, Delta(Some("a")))];
            && Interrupted(t, events) && TextFrom("", events) == "a"
            && FinishText(Fold(t, events).screen).stdout
               == t.screen.stdout + if t.screen.showProgress then "a" + "\n" + "a" + "\n" else "a" + "a" + "\n"
  {
    StartShows("a");
    FirstDelta(t, "a");
    var e0, e1, e2 := Coming(t, 1, Delta(Some("a"))), Coming(t, 2, AttemptRestarted), Coming(t, 3, Delta(Some("a")));
    var events, u := [e0, e1, e2], Apply(t, e0);
    hide Held, IsSilent, Take, Apply, Fold, TextFrom, ShowDelta, Notices;
    assert events[1..] == [e1, e2];
    RestartAfter(u, "a", e1);
    TextOfThree(e0, e1, e2);
    FoldThree(t, e0, e1, e2);
    ApplyShows(Apply(u, e1), e2);
    assert "" + "a" == "a";
    TwoLines(t.screen.stdout, "a", "a");
  }

  const REASONING := "<think>x</think>"

  /** A step whose deltas bring reasoning before the answer. */
  function ReasoningStep(t: Timeline, answer: string): Step {
    Step([Coming(t, 1, Delta(Some(REASONING + answer)))],
         Coming(t, 2, AssistantOutput(Some(Message(None, Text(answer))))))
  }

  lemma ReasoningVisible(answer: string)
    ensures !Held(REASONING + answer) && !IsSilent(REASONING + answer)
    ensures Shown(REASONING + answer) != Shown(answer) && REASONING <= Shown(REASONING + answer)
  {
    StartShows(REASONING + answer);
    hide Strip;
    assert |Shown(answer)| <= |answer| + 1;
  }

  lemma ReasoningEvents(t: Timeline, answer: string)
    requires AtRest(t.screen)
    ensures var step := ReasoningStep(t, answer);
            && step.Valid() && step.Text() == answer && step.Streamed() == REASONING + answer
            && InOrder(t.last, step.Events()) && !Interrupted(t, step.events)
  {
    var step := ReasoningStep(t, answer);
    var e := step.events[0];
    hide Take, Show;
    assert step.events[1..] == [] && step.Events()[1..] == [step.answer] && [step.answer][1..] == [];
    assert "" + (REASONING + answer) == REASONING + answer && DeltaText(e.body) == REASONING + answer;
    assert TextFrom("", step.events) == TextFrom(NextText("", e.body), []);
    assert MessageText(Text(answer)) == answer;
    assert InOrder(Advance(t.last, e), [step.answer]) && step.Events()[0] == e;
    assert !Interrupted(Apply(t, e), step.events[1..]);
  }

  lemma ReasoningOutcome(t: Timeline, answer: string)
    ensures Fold(t, ReasoningStep(t, answer).Events()).outcome == TakeAnswer(t.outcome, Message(None, Text(answer)))
  {
    var step := ReasoningStep(t, answer);
    assert step.Events()[1..] == [step.answer];
    hide Show, TakeAnswer, Fold;
    FoldFirst(t, step.Events());
    FoldOne(Apply(t, step.events[0]), step.answer);
  }

  /**
    Deltas bring the Model's raw text, the answer comes without a leading block of reasoning: nothing
    interrupts the step, but stdout shows the block, even in front of an answer that is silent.
   */
  lemma ReasoningShown(t: Timeline, answer: string)
    requires AtRest(t.screen)
    ensures var step := ReasoningStep(t, answer);
            var u := Fold(t, step.Events());
            && step.Valid() && !Interrupted(t, step.events) && !step.Agrees()
            && u.screen.stdout == t.screen.stdout + Shown(REASONING + answer) && REASONING <= Shown(REASONING + answer)
            && u.outcome.message == if IsSilent(answer) then "" else if answer != "" then answer else t.outcome.message
  {
    var step := ReasoningStep(t, answer);
    ReasoningVisible(answer);
    ReasoningEvents(t, answer);
    ReasoningOutcome(t, answer);
    hide Held, IsSilent, Shown, Fold, Interrupted, Step.Valid, Step.Text, Step.Streamed, InOrder, AtRest, ReasoningStep;
    StepTextIff(t, step);
  }
}
