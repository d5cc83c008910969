/** What every event keeps, and that streaming a Run's text does not depend on how it was cut. */
module ScreenProofs {
  import opened PyText
  import opened TimelineSpec

  predicate AtLineStart(stdout: string) {
    stdout == "" || EndsLine(stdout)
  }

  /**
    The line flag tells exactly whether stdout ends inside a line, text is held back only while it
    can become the silent answer, and every progress line starts on a line of its own.
   */
  ghost predicate ScreenInv(s: Screen) {
    && (s.lineOpen <==> !AtLineStart(s.stdout))
    && (s.pending != "" ==> Held(s.pending) && !s.stepStreamed && s.streamText)
    && (s.stepStreamed ==> s.streamText)
    && (forall p <- s.progress :: p.at <= |s.stdout| && AtLineStart(s.stdout[..p.at]))
  }

  lemma WriteInv(s: Screen, text: string)
    requires ScreenInv(s) && text != ""
    ensures ScreenInv(Write(s, text))
  {
  }

  lemma EndTextLineInv(s: Screen)
    requires ScreenInv(s)
    ensures ScreenInv(EndTextLine(s)) && !EndTextLine(s).lineOpen
  {
  }

  lemma NotifyInv(s: Screen, notice: Notice)
    requires ScreenInv(s)
    ensures ScreenInv(Notify(s, notice))
  {
    EndTextLineInv(s);
    var ended := EndTextLine(s);
    assert ended.stdout[..|ended.stdout|] == ended.stdout;
  }

  lemma FinishTextInv(s: Screen)
    requires ScreenInv(s)
    ensures ScreenInv(FinishText(s)) && !FinishText(s).lineOpen
  {
    if s.pending != "" && !IsSilent(s.pending) {
      WriteInv(s, s.pending);
      EndTextLineInv(Write(s, s.pending).(pending := ""));
    } else {
      EndTextLineInv(s.(pending := ""));
    }
  }

  lemma DeltaInv(s: Screen, text: string)
    requires ScreenInv(s)
    ensures ScreenInv(ShowDelta(s, text))
  {
    if text != "" && s.streamText {
      if s.stepStreamed {
        WriteInv(s, text);
      } else if !Held(s.pending + text) {
        WriteInv(s.(pending := "", stepStreamed := true), s.pending + text);
      }
    }
  }

  lemma AnswerInv(s: Screen, text: string)
    requires ScreenInv(s)
    ensures ScreenInv(ShowAnswer(s, text)) && !ShowAnswer(s, text).lineOpen
  {
    if text != "" && !IsSilent(text) && s.streamText && !s.stepStreamed {
      WriteInv(s, text);
      EndTextLineInv(Write(s, text).(stepStreamed := false, pending := ""));
    } else {
      EndTextLineInv(s.(stepStreamed := false, pending := ""));
    }
  }

  lemma ShowInv(s: Screen, d: Display)
    requires ScreenInv(s)
    ensures ScreenInv(Show(s, d))
  {
    match d
    case Hidden =>
    case Fragment(text) => DeltaInv(s, text);
    case Answer(text) => AnswerInv(s, text);
    case Restart => NotifyInv(s, TextVoid);
    case Note(notice) => NotifyInv(s, notice);
    case EndOfRun => FinishTextInv(s);
  }

  /** Whether text is streamed and progress shown never changes. */
  lemma ShowKeepsFlags(s: Screen, d: Display)
    ensures Show(s, d).streamText == s.streamText && Show(s, d).showProgress == s.showProgress
  {
  }

  // ---------------------------------------------------------------- one Model step on the screen

  /** What stdout shows of a finished step's text: nothing of a silent answer, else the text as whole lines. */
  function Shown(text: string): string {
    if text == "" || IsSilent(text) then "" else if EndsLine(text) then text else text + "\n"
  }

  /** Between two Model steps: nothing held back and no open line. */
  predicate AtRest(s: Screen) {
    s.streamText && !s.lineOpen && s.pending == "" && !s.stepStreamed
  }

  /** Inside a step that began with stdout at `base` and has brought `text` so far. */
  predicate MidStep(base: string, s: Screen, text: string) {
    && s.streamText
    && s.stdout == base + (if Held(text) then "" else text)
    && s.pending == (if Held(text) then text else "")
    && s.stepStreamed == !Held(text)
    && s.lineOpen == (!Held(text) && !EndsLine(text))
  }

  lemma RestIsMidStep(s: Screen)
    requires AtRest(s)
    ensures MidStep(s.stdout, s, "")
  {
  }

  /** Once the text so far cannot become the silent answer, no longer text can. */
  lemma HeldPrefix(text: string, more: string)
    requires Held(text + more)
    ensures Held(text)
  {
    StripOfPrefix(text, text + more);
  }

  lemma DeltaMidStep(base: string, s: Screen, text: string, delta: string)
    requires MidStep(base, s, text)
    ensures MidStep(base, ShowDelta(s, delta), text + delta)
  {
    if delta == "" {
      assert text + delta == text;
    } else {
      assert EndsLine(text + delta) == EndsLine(delta);
      if Held(text) {
        assert s.stdout == base;
      } else if Held(text + delta) {
        HeldPrefix(text, delta);
      } else {
        assert (base + text) + delta == base + (text + delta);
      }
    }
  }

  /**
    What stdout shows of a step whose deltas brought `text` and whose answer is `answer`. Text that could no
    longer become the silent answer is on stdout by then, and the answer is not shown beside it.
   */
  function StepShown(text: string, answer: string): string {
    Shown(if Held(text) then answer else text)
  }

  /** The answer that ends a step completes its text on stdout, whatever deltas brought before it. */
  lemma AnswerEndsStep(base: string, s: Screen, text: string, answer: string)
    requires MidStep(base, s, text)
    ensures AtRest(ShowAnswer(s, answer)) && ShowAnswer(s, answer).stdout == base + StepShown(text, answer)
  {
  }

  /** Behind an answer and at the end of a Run no line is open. */
  lemma LinesClosed(s: Screen, text: string)
    ensures !EndTextLine(s).lineOpen && !ShowAnswer(s, text).lineOpen
    ensures !FinishText(s).lineOpen && FinishText(s).pending == ""
  {
    hide IsSilent;
  }

  /** A Run that ends inside a step, or whose stream is lost there, still shows the text it brought. */
  lemma FinishEndsStep(base: string, s: Screen, text: string)
    requires MidStep(base, s, text)
    ensures FinishText(s).stdout == base + Shown(text) && !FinishText(s).lineOpen
  {
  }
}

/** The same facts for folds of whole event logs, and reference definitions of the reported outcome. */
module TimelineProofs {
  import opened Wrappers
  import opened RunEvents
  import opened TimelineSpec
  import opened ScreenProofs

  /** An insertion-ordered dictionary: the order lists exactly its keys, each once. */
  ghost predicate OrderedTable(tools: map<string, ToolEntry>, order: seq<string>) {
    && (forall key :: key in order <==> key in tools)
    && (forall i, j :: 0 <= i < j < |order| ==> order[i] != order[j])
  }

  ghost predicate Inv(t: Timeline) {
    ScreenInv(t.screen) && OrderedTable(t.outcome.tools, t.outcome.toolOrder)
  }

  lemma NewInv(streamText: bool, showProgress: bool)
    ensures Inv(New(streamText, showProgress))
  {
  }

  lemma AddToolKeepsTable(o: Outcome, call: ToolCall)
    requires OrderedTable(o.tools, o.toolOrder)
    ensures OrderedTable(AddTool(o, call).tools, AddTool(o, call).toolOrder)
  {
  }

  lemma TakeKeepsTable(o: Outcome, body: Body)
    requires OrderedTable(o.tools, o.toolOrder)
    ensures OrderedTable(Take(o, body).tools, Take(o, body).toolOrder)
  {
    hide AddTool, ToolKey, AddUsage;
    if body.ToolStarted? {
      AddToolKeepsTable(o, body.call);
    } else if body.ToolResult? {
      AddToolKeepsTable(o, body.resultCall);
    }
  }

  /** Every event of every Run keeps the screen invariant and the Tool table's order. */
  lemma ApplyInv(t: Timeline, event: Event)
    requires Inv(t)
    ensures Inv(Apply(t, event))
  {
    TakeKeepsTable(t.outcome, event.body);
    ShowInv(t.screen, DisplayOf(t.outcome, event.body));
  }

  lemma {:induction false} FoldInv(t: Timeline, events: seq<Event>)
    requires Inv(t)
    ensures Inv(Fold(t, events))
    decreases |events|
  {
    if events != [] {
      ApplyInv(t, events[0]);
      FoldInv(Apply(t, events[0]), events[1..]);
    }
  }

  /** From the start of a Run every log keeps them. */
  lemma RunInv(streamText: bool, showProgress: bool, events: seq<Event>)
    ensures Inv(Fold(New(streamText, showProgress), events))
  {
    NewInv(streamText, showProgress);
    FoldInv(New(streamText, showProgress), events);
  }

  lemma {:induction false} FoldAppend(t: Timeline, a: seq<Event>, b: seq<Event>)
    ensures Fold(t, a + b) == Fold(Fold(t, a), b)
    decreases |a|
  {
    hide Apply;
    if a == [] {
      assert a + b == b;
    } else {
      assert (a + b)[1..] == a[1..] + b;
      FoldAppend(Apply(t, a[0]), a[1..], b);
    }
  }

  /** Sequence numbers that increase beyond `last`, so that no event is stale. */
  predicate InOrder(last: int, events: seq<Event>)
    decreases |events|
  {
    events == [] || (!Stale(last, events[0]) && InOrder(Advance(last, events[0]), events[1..]))
  }

  function LastOf(last: int, events: seq<Event>): int
    decreases |events|
  {
    if events == [] then last else LastOf(Advance(last, events[0]), events[1..])
  }

  lemma {:induction false} InOrderSplit(last: int, a: seq<Event>, b: seq<Event>)
    requires InOrder(last, a + b)
    ensures InOrder(last, a) && InOrder(LastOf(last, a), b)
    decreases |a|
  {
    if a == [] {
      assert a + b == b;
    } else {
      assert (a + b)[1..] == a[1..] + b && (a + b)[0] == a[0];
      InOrderSplit(Advance(last, a[0]), a[1..], b);
    }
  }

  lemma {:induction false} FoldLast(t: Timeline, events: seq<Event>)
    requires InOrder(t.last, events)
    ensures Fold(t, events).last == LastOf(t.last, events)
    ensures Fold(t, events).screen.showProgress == t.screen.showProgress
    decreases |events|
  {
    if events != [] {
      ShowKeepsFlags(t.screen, DisplayOf(t.outcome, events[0].body));
      FoldLast(Apply(t, events[0]), events[1..]);
    }
  }

  // ---------------------------------------------------------------- streaming does not depend on chunking

  /** An event that neither carries answer text nor ends a Model step or the Run. */
  predicate Side(body: Body) {
    !body.Delta? && !body.AssistantOutput? && !body.AttemptRestarted? && !body.Terminal?
  }

  /** A side event that prints no progress line. */
  predicate Quiet(showProgress: bool, body: Body) {
    Side(body)
    && (!showProgress
        || body.StepUsage? || body.ErrorPersisted? || body.Other?
        || (body.ToolResult? && body.outcome.Succeeded?) || (body.RequestStatus? && !body.retrying))
  }

  function DeltaText(body: Body): string {
    if body.Delta? && body.text.Some? then body.text.value else ""
  }

  /** The text the deltas of one Model step concatenate to. */
  function StepText(events: seq<Event>): string {
    if events == [] then "" else DeltaText(events[0].body) + StepText(events[1..])
  }

  lemma QuietEvent(base: string, s: Screen, text: string, o: Outcome, body: Body)
    requires MidStep(base, s, text) && Quiet(s.showProgress, body)
    ensures MidStep(base, Show(s, DisplayOf(o, body)), text + DeltaText(body))
  {
    assert text + "" == text;
    assert Show(s, DisplayOf(o, body)) == s;
  }

  lemma DeltaEvent(base: string, s: Screen, text: string, o: Outcome, body: Body)
    requires MidStep(base, s, text) && body.Delta?
    ensures MidStep(base, Show(s, DisplayOf(o, body)), text + DeltaText(body))
  {
    if body.text.Some? {
      DeltaMidStep(base, s, text, body.text.value);
    } else {
      assert text + "" == text;
    }
  }

  /**
    In the middle of a step what stdout shows and what is held back depend only on the text so far,
    not on how it was cut into deltas or on the quiet events in between.
   */
  lemma {:induction false} DeltasMidStep(base: string, t: Timeline, text: string, events: seq<Event>)
    requires MidStep(base, t.screen, text) && InOrder(t.last, events)
    requires forall e <- events :: e.body.Delta? || Quiet(t.screen.showProgress, e.body)
    ensures MidStep(base, Fold(t, events).screen, text + StepText(events))
    decreases |events|
  {
    hide MidStep, Show, DisplayOf, Take;
    if events == [] {
      assert text + "" == text;
    } else {
      var e := events[0];
      if e.body.Delta? {
        DeltaEvent(base, t.screen, text, t.outcome, e.body);
      } else {
        QuietEvent(base, t.screen, text, t.outcome, e.body);
      }
      ShowKeepsFlags(t.screen, DisplayOf(t.outcome, e.body));
      DeltasMidStep(base, Apply(t, e), text + DeltaText(e.body), events[1..]);
      assert text + DeltaText(e.body) + StepText(events[1..]) == text + StepText(events);
    }
  }

  /** Two cuts of the same text leave stdout, and what is held back, the same. */
  lemma ChunkingDoesNotMatter(t: Timeline, u: Timeline, a: seq<Event>, b: seq<Event>)
    requires AtRest(t.screen) && t.screen == u.screen && StepText(a) == StepText(b)
    requires InOrder(t.last, a) && InOrder(u.last, b)
    requires forall e <- a + b :: e.body.Delta? || Quiet(t.screen.showProgress, e.body)
    ensures Fold(t, a).screen.stdout == Fold(u, b).screen.stdout
    ensures Fold(t, a).screen.pending == Fold(u, b).screen.pending
    ensures Fold(t, a).screen.lineOpen == Fold(u, b).screen.lineOpen
  {
    RestIsMidStep(t.screen);
    assert forall e <- a :: e in a + b;
    assert forall e <- b :: e in a + b;
    DeltasMidStep(t.screen.stdout, t, "", a);
    DeltasMidStep(u.screen.stdout, u, "", b);
    assert "" + StepText(a) == "" + StepText(b);
  }

  lemma FoldOne(t: Timeline, event: Event)
    ensures Fold(t, [event]) == Apply(t, event)
  {
  }

  lemma NoStreamShow(s: Screen, d: Display)
    requires !s.streamText && !s.lineOpen && s.pending == ""
    ensures var r := Show(s, d); r.stdout == s.stdout && !r.lineOpen && r.pending == "" && !r.streamText
  {
  }

  /** Without text streaming no event of any log writes to stdout: the answer is printed only at the end. */
  lemma {:induction false} NoStreamWritesNothing(t: Timeline, events: seq<Event>)
    requires !t.screen.streamText && !t.screen.lineOpen && t.screen.pending == ""
    ensures Fold(t, events).screen.stdout == t.screen.stdout
    decreases |events|
  {
    if events != [] {
      NoStreamShow(t.screen, DisplayOf(t.outcome, events[0].body));
      NoStreamWritesNothing(Apply(t, events[0]), events[1..]);
    }
  }

  // ---------------------------------------------------------------- reference definitions of the outcome

  /** The sum a log reports for one Token field over its Model steps. */
  function StepSum(events: seq<Event>, name: string): int {
    if events == [] then 0
    else
      (if events[0].body.StepUsage? then CountOf(events[0].body.usage, name) else 0) + StepSum(events[1..], name)
  }

  lemma FieldsDistinct(i: nat, j: nat)
    requires i < |USAGE_FIELDS| && j < |USAGE_FIELDS| && USAGE_FIELDS[i] == USAGE_FIELDS[j]
    ensures i == j
  {
  }

  lemma {:induction false} AddUsageAt(total: map<string, int>, step: map<string, int>, n: nat, k: nat)
    requires n <= |USAGE_FIELDS| && k < |USAGE_FIELDS|
    ensures CountOf(AddUsage(total, step, n), USAGE_FIELDS[k])
         == CountOf(total, USAGE_FIELDS[k]) + (if k < n then CountOf(step, USAGE_FIELDS[k]) else 0)
  {
    if n > 0 {
      AddUsageAt(total, step, n - 1, k);
      if USAGE_FIELDS[n - 1] == USAGE_FIELDS[k] {
        FieldsDistinct(n - 1, k);
      }
    }
  }

  /** The Run's Usage is the sum over its Model steps, field by field. */
  lemma {:induction false} UsageIsStepSum(t: Timeline, events: seq<Event>, k: nat)
    requires InOrder(t.last, events) && k < |USAGE_FIELDS|
    ensures CountOf(Fold(t, events).outcome.usage, USAGE_FIELDS[k])
         == CountOf(t.outcome.usage, USAGE_FIELDS[k]) + StepSum(events, USAGE_FIELDS[k])
    decreases |events|
  {
    if events != [] {
      var e := events[0];
      if e.body.StepUsage? {
        AddUsageAt(t.outcome.usage, e.body.usage, |USAGE_FIELDS|, k);
      }
      UsageIsStepSum(Apply(t, e), events[1..], k);
    }
  }

  /** An answer message that carries text, silent or not. */
  predicate Answers(body: Body) {
    body.AssistantOutput? && body.message.Some? && MessageText(body.message.value.content) != ""
  }

  lemma MessageStep(o: Outcome, body: Body)
    ensures Answers(body) ==>
      Take(o, body).message == (if IsSilent(MessageText(body.message.value.content)) then ""
                                else MessageText(body.message.value.content))
    ensures !Answers(body) ==> Take(o, body).message == o.message
  {
  }

  lemma {:induction false} NoAnswerKeepsMessage(t: Timeline, events: seq<Event>)
    requires forall e <- events :: !Answers(e.body)
    ensures Fold(t, events).outcome.message == t.outcome.message
    decreases |events|
  {
    if events != [] {
      MessageStep(t.outcome, events[0].body);
      NoAnswerKeepsMessage(Apply(t, events[0]), events[1..]);
    }
  }

  /** The fold up to and over one event that is not stale, and then over the rest. */
  lemma EventBetween(t: Timeline, before: seq<Event>, e: Event, after: seq<Event>)
    requires InOrder(t.last, before + [e] + after)
    ensures Fold(t, before + [e]).outcome == Take(Fold(t, before).outcome, e.body)
    ensures Fold(t, before + [e] + after) == Fold(Fold(t, before + [e]), after)
  {
    FoldAppend(t, before + [e], after);
    FoldAppend(t, before, [e]);
    InOrderSplit(t.last, before + [e], after);
    InOrderSplit(t.last, before, [e]);
    FoldLast(t, before);
    FoldOne(Fold(t, before), e);
    hide Fold, Take, Show, DisplayOf;
  }

  /** The reported message is the last answer's text; a silent last answer leaves none. */
  lemma MessageIsLastAnswer(t: Timeline, before: seq<Event>, answer: Event, after: seq<Event>)
    requires InOrder(t.last, before + [answer] + after)
    requires Answers(answer.body) && forall e <- after :: !Answers(e.body)
    ensures var text := MessageText(answer.body.message.value.content);
            Fold(t, before + [answer] + after).outcome.message == if IsSilent(text) then "" else text
  {
    hide Take, Show, DisplayOf, Fold;
    EventBetween(t, before, answer, after);
    MessageStep(Fold(t, before).outcome, answer.body);
    NoAnswerKeepsMessage(Fold(t, before + [answer]), after);
  }

  /** An event that names the Model of an answer, or the one a request goes to. */
  predicate NamesAnswerModel(body: Body) {
    body.AssistantOutput? && body.message.Some? && NonEmpty(body.message.value.model, None).Some?
  }

  predicate NamesRequestModel(body: Body) {
    || (body.RequestStatus? && NonEmpty(body.model, None).Some?)
    || (body.FallbackActivated? && NonEmpty(body.toModel, None).Some?)
  }

  lemma ModelStep(o: Outcome, body: Body)
    ensures Take(o, body).answerModel == if NamesAnswerModel(body) then body.message.value.model else o.answerModel
    ensures Take(o, body).requestModel == if !NamesRequestModel(body) then o.requestModel
                                          else if body.RequestStatus? then body.model else body.toModel
  {
  }

  lemma {:induction false} NoModelNamed(t: Timeline, events: seq<Event>)
    ensures (forall e <- events :: !NamesAnswerModel(e.body)) ==>
              Fold(t, events).outcome.answerModel == t.outcome.answerModel
    ensures (forall e <- events :: !NamesRequestModel(e.body)) ==>
              Fold(t, events).outcome.requestModel == t.outcome.requestModel
    decreases |events|
  {
    if events != [] {
      hide Take, Show, DisplayOf, NamesAnswerModel, NamesRequestModel;
      ModelStep(t.outcome, events[0].body);
      NoModelNamed(Apply(t, events[0]), events[1..]);
    }
  }

  /** The reported Model is the one the last answer names; without such an answer the last one a request went to. */
  lemma ModelIsLastNamed(t: Timeline, before: seq<Event>, named: Event, after: seq<Event>)
    requires InOrder(t.last, before + [named] + after)
    requires forall e <- after :: !NamesAnswerModel(e.body)
    ensures NamesAnswerModel(named.body) ==>
              Model(Fold(t, before + [named] + after).outcome) == named.body.message.value.model
    ensures NamesRequestModel(named.body) && t.outcome.answerModel.None?
            && (forall e <- before :: !NamesAnswerModel(e.body))
            && (forall e <- after :: !NamesRequestModel(e.body)) ==>
              Model(Fold(t, before + [named] + after).outcome)
              == if named.body.RequestStatus? then named.body.model else named.body.toModel
  {
    hide Take, Show, DisplayOf, Fold;
    EventBetween(t, before, named, after);
    ModelStep(Fold(t, before).outcome, named.body);
    NoModelNamed(t, before);
    NoModelNamed(Fold(t, before + [named]), after);
  }

  predicate BringsError(body: Body) {
    body.ErrorPersisted? && MessageText(body.error) != ""
  }

  lemma ErrorStep(o: Outcome, body: Body)
    ensures Take(o, body).errorText == if BringsError(body) then Some(MessageText(body.error)) else o.errorText
  {
  }

  lemma {:induction false} NoErrorBrought(t: Timeline, events: seq<Event>)
    requires forall e <- events :: !BringsError(e.body)
    ensures Fold(t, events).outcome.errorText == t.outcome.errorText
    decreases |events|
  {
    if events != [] {
      hide Take, Show, DisplayOf, BringsError;
      ErrorStep(t.outcome, events[0].body);
      NoErrorBrought(Apply(t, events[0]), events[1..]);
    }
  }

  /** The reported error is the last one that was persisted with a text. */
  lemma ErrorIsLast(t: Timeline, before: seq<Event>, error: Event, after: seq<Event>)
    requires InOrder(t.last, before + [error] + after)
    requires BringsError(error.body) && forall e <- after :: !BringsError(e.body)
    ensures Fold(t, before + [error] + after).outcome.errorText == Some(MessageText(error.body.error))
  {
    hide Take, Show, DisplayOf, Fold;
    EventBetween(t, before, error, after);
    ErrorStep(Fold(t, before).outcome, error.body);
    NoErrorBrought(Fold(t, before + [error]), after);
  }
}
