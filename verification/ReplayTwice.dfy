/** What folding one event twice does: nothing to a numbered one, and to any other exactly when it is harmless. */
module ReplayTwice {
  import opened Wrappers
  import Json
  import opened RunEvents
  import opened TimelineSpec
  import opened ScreenProofs
  import opened TimelineProofs
  import opened ToolTable

  /** The call meets the same entry again: by its id, or because its key is taken and the table does not grow. */
  predicate Keyed(o: Outcome, call: ToolCall) {
    HasId(call) || LengthKey(|o.tools|) in o.tools
  }

  /** Once the table has grown by the call, the key it meets next is taken too. */
  predicate NextTaken(o: Outcome) {
    LengthKey(|o.tools| + 1) in o.tools
  }

  predicate ZeroUsage(usage: map<string, int>) {
    forall k :: 0 <= k < |USAGE_FIELDS| ==> CountOf(usage, USAGE_FIELDS[k]) == 0
  }

  function AnswerText(message: Option<Message>): string {
    if message.Some? then MessageText(message.value.content) else ""
  }

  /** Folding an event with this body once more changes nothing. */
  predicate Harmless(t: Timeline, body: Body) {
    var o, s := t.outcome, t.screen;
    match body
    case Delta(text) => !s.streamText || text.None? || text.value == ""
    case AssistantOutput(message) => !s.streamText || AnswerText(message) == "" || IsSilent(AnswerText(message))
    case ToolStarted(call) =>
      && !s.showProgress
      && (Keyed(o, call)
          || (NextTaken(o)
              && (call.arguments.Some? ==> o.tools[LengthKey(|o.tools| + 1)].arguments == call.arguments.value)))
    case ToolResult(call, outcome) =>
      && !(s.showProgress && outcome.Failed?)
      && (Keyed(o, call) || (NextTaken(o) && Reports(o.tools[LengthKey(|o.tools| + 1)], outcome)))
    case RequestStatus(_, retrying) => !(s.showProgress && retrying)
    case FallbackActivated(_) => !s.showProgress
    case CompactionStarted => !s.showProgress
    case StepUsage(usage) => ZeroUsage(usage)
    case _ => true
  }

  // ---------------------------------------------------------------- the screen

  lemma DeltaTwice(s: Screen, text: string)
    requires text != "" && s.streamText
    ensures ShowDelta(ShowDelta(s, text), text) != ShowDelta(s, text)
  {
    hide Held;
    var once := ShowDelta(s, text);
    if once.stepStreamed {
      assert |Write(once, text).stdout| > |once.stdout|;
    } else {
      assert |once.pending + text| > |once.pending| > 0;
    }
  }

  lemma AnswerTwice(s: Screen, text: string)
    ensures ShowAnswer(ShowAnswer(s, text), text) == ShowAnswer(s, text)
       <==> !s.streamText || text == "" || IsSilent(text)
  {
    var once := ShowAnswer(s, text);
    LinesClosed(s, text);
    hide IsSilent, EndsLine;
    if s.streamText && text != "" && !IsSilent(text) {
      assert |ShowAnswer(once, text).stdout| > |once.stdout|;
    } else {
      assert ShowAnswer(once, text) == once;
    }
  }

  lemma NoticeTwice(s: Screen, notice: Notice, other: Notice)
    ensures Notify(Notify(s, notice), other) == Notify(s, notice) <==> !s.showProgress
  {
    var once := Notify(s, notice);
    assert s.showProgress ==> |Notify(once, other).progress| > |once.progress|;
  }

  lemma EndTwice(s: Screen)
    ensures FinishText(FinishText(s)) == FinishText(s)
    ensures ShowRestart(ShowRestart(s)) == ShowRestart(s)
  {
    LinesClosed(s, "");
    hide IsSilent, EndsLine;
  }

  // ---------------------------------------------------------------- the Tool table

  lemma KeyOnceMore(o: Outcome, call: ToolCall)
    ensures var key, next := ToolKey(o, call), ToolKey(AddTool(o, call), call);
            && key in AddTool(o, call).tools
            && (Keyed(o, call) ==> next == key)
            && (!Keyed(o, call) ==>
                  next == LengthKey(|o.tools| + 1) && next != key && (next in AddTool(o, call).tools <==> NextTaken(o))
                  && (NextTaken(o) ==> AddTool(o, call).tools[next] == o.tools[next]))
  {
    LengthKeysDiffer(|o.tools|, |o.tools| + 1);
    hide Json.NatText;
  }

  /** A further entry makes the table's order longer. */
  lemma NewEntry(o: Outcome, call: ToolCall)
    requires ToolKey(o, call) !in o.tools
    ensures |AddTool(o, call).toolOrder| > |o.toolOrder|
  {
  }

  lemma StartTwice(o: Outcome, call: ToolCall)
    ensures TakeToolStart(TakeToolStart(o, call), call) == TakeToolStart(o, call)
       <==> Keyed(o, call)
            || (NextTaken(o)
                && (call.arguments.Some? ==> o.tools[LengthKey(|o.tools| + 1)].arguments == call.arguments.value))
  {
    var once := TakeToolStart(o, call);
    KeyOnceMore(o, call);
    var next := ToolKey(once, call);
    SameSize(o, call, once);
    hide ToolKey, LengthKey;
    if next !in once.tools {
      NewEntry(once, call);
    } else if call.arguments.Some? && once.tools[next].arguments != call.arguments.value {
      assert TakeToolStart(once, call).tools[next] != once.tools[next];
    } else {
      assert TakeToolStart(once, call).tools == once.tools;
    }
  }

  lemma SameSize(o: Outcome, call: ToolCall, taken: Outcome)
    requires |taken.tools| == |AddTool(o, call).tools|
    ensures ToolKey(taken, call) == ToolKey(AddTool(o, call), call)
  {
    hide Json.NatText;
  }

  lemma ResultTwice(o: Outcome, call: ToolCall, outcome: ToolOutcome)
    ensures TakeToolResult(TakeToolResult(o, call, outcome), call, outcome) == TakeToolResult(o, call, outcome)
       <==> Keyed(o, call) || (NextTaken(o) && Reports(o.tools[LengthKey(|o.tools| + 1)], outcome))
  {
    var once := TakeToolResult(o, call, outcome);
    KeyOnceMore(o, call);
    var next := ToolKey(once, call);
    SameSize(o, call, once);
    hide ToolKey, LengthKey;
    if next !in once.tools {
      NewEntry(once, call);
    } else if !Reports(once.tools[next], outcome) {
      assert TakeToolResult(once, call, outcome).tools[next] != once.tools[next];
    } else {
      assert TakeToolResult(once, call, outcome).tools == once.tools;
    }
  }

  // ---------------------------------------------------------------- Usage

  /** After the first `n` fields of a step were added, every one of them the step has is in the sums. */
  lemma {:induction false} FieldsAdded(total: map<string, int>, step: map<string, int>, n: nat, k: nat)
    requires k < n <= |USAGE_FIELDS| && USAGE_FIELDS[k] in step
    ensures USAGE_FIELDS[k] in AddUsage(total, step, n)
  {
    if k < n - 1 {
      FieldsAdded(total, step, n - 1, k);
    }
  }

  lemma {:induction false} ZeroesAdded(total: map<string, int>, step: map<string, int>, n: nat)
    requires n <= |USAGE_FIELDS| && ZeroUsage(step)
    requires forall k :: 0 <= k < n && USAGE_FIELDS[k] in step ==> USAGE_FIELDS[k] in total
    ensures AddUsage(total, step, n) == total
  {
    if n > 0 {
      ZeroesAdded(total, step, n - 1);
      assert CountOf(step, USAGE_FIELDS[n - 1]) == 0;
    }
  }

  lemma UsageTwice(total: map<string, int>, step: map<string, int>)
    ensures var once := AddUsage(total, step, |USAGE_FIELDS|);
            AddUsage(once, step, |USAGE_FIELDS|) == once <==> ZeroUsage(step)
  {
    hide AddUsage;
    var n := |USAGE_FIELDS|;
    var once := AddUsage(total, step, n);
    if ZeroUsage(step) {
      forall k | 0 <= k < n && USAGE_FIELDS[k] in step ensures USAGE_FIELDS[k] in once {
        FieldsAdded(total, step, n, k);
      }
      ZeroesAdded(once, step, n);
    } else {
      var k :| 0 <= k < n && CountOf(step, USAGE_FIELDS[k]) != 0;
      AddUsageAt(once, step, n, k);
    }
  }

  // ---------------------------------------------------------------- any event

  lemma BodyTwice(t: Timeline, body: Body)
    ensures var o, s := Take(t.outcome, body), Show(t.screen, DisplayOf(t.outcome, body));
            Take(o, body) == o && Show(s, DisplayOf(o, body)) == s <==> Harmless(t, body)
  {
    hide ShowDelta, ShowAnswer, ShowRestart, FinishText, Notify, TakeToolStart, TakeToolResult, AddUsage;
    hide ToolKey, Keyed, NextTaken, LengthKey, Reports, ZeroUsage, IsSilent, MessageText;
    var o, s := t.outcome, t.screen;
    match body
    case Delta(text) =>
      if text.Some? && text.value != "" && s.streamText {
        DeltaTwice(s, text.value);
      } else if text.Some? {
        NoDelta(s, text.value);
      }
    case AssistantOutput(message) => AnswerTwice(s, AnswerText(message));
    case AttemptRestarted => EndTwice(s);
    case ToolStarted(call) =>
      NoticeTwice(s, ToolCalled(ToolKey(o, call)), ToolCalled(ToolKey(Take(o, body), call)));
      StartTwice(o, call);
    case ToolResult(call, outcome) =>
      NoticeTwice(s, ToolFailed(ToolKey(o, call)), ToolFailed(ToolKey(Take(o, body), call)));
      ResultTwice(o, call, outcome);
    case RequestStatus(model, retrying) =>
      NoticeTwice(s, Retrying(Model(Take(o, body))), Retrying(Model(Take(Take(o, body), body))));
    case FallbackActivated(toModel) => NoticeTwice(s, FellBack(toModel), FellBack(toModel));
    case StepUsage(usage) => UsageTwice(o.usage, usage);
    case CompactionStarted => NoticeTwice(s, Compacting, Compacting);
    case Terminal(_) => EndTwice(s);
    case _ =>
  }

  lemma NoDelta(s: Screen, text: string)
    requires text == "" || !s.streamText
    ensures ShowDelta(s, text) == s
  {
  }

  /**
    Folding an event again changes nothing exactly when it carries a sequence number or is harmless by
    what it says; so the sequence guard is what makes replays harmless.
   */
  lemma ReplayNeedsNumbers(t: Timeline, event: Event)
    ensures Apply(Apply(t, event), event) == Apply(t, event)
       <==> event.sequence.Some? || Harmless(t, event.body)
  {
    hide Take, Show, DisplayOf, Harmless;
    if event.sequence.None? {
      BodyTwice(t, event.body);
    }
  }
}
