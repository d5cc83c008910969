/** An unreliable event stream replays and cuts the server's log; folding it still counts every event once. */
module ReplayProofs {
  import opened RunEvents
  import opened TimelineSpec
  import opened TimelineProofs

  /** The server's log: every event numbered, numbers strictly increasing from above `start`. */
  ghost predicate Numbered(start: int, log: seq<Event>) {
    && (forall e <- log :: e.sequence.Some? && e.sequence.value > start)
    && (forall i, j :: 0 <= i < j < |log| ==> log[i].sequence.value < log[j].sequence.value)
  }

  /** How many events of the log are numbered `last` or less. */
  ghost function Upto(log: seq<Event>, last: int): (n: nat)
    requires forall e <- log :: e.sequence.Some?
    ensures n <= |log|
  {
    if log != [] && log[0].sequence.value <= last then 1 + Upto(log[1..], last) else 0
  }

  lemma {:induction false} UptoIs(start: int, log: seq<Event>, last: int, n: nat)
    requires Numbered(start, log) && n <= |log|
    requires forall i :: 0 <= i < n ==> log[i].sequence.value <= last
    requires n < |log| ==> log[n].sequence.value > last
    ensures Upto(log, last) == n
  {
    if n > 0 {
      UptoIs(start, log[1..], last, n - 1);
    }
  }

  lemma {:induction false} UptoBounds(start: int, log: seq<Event>, last: int)
    requires Numbered(start, log)
    ensures forall i :: 0 <= i < Upto(log, last) ==> log[i].sequence.value <= last
    ensures forall i :: Upto(log, last) <= i < |log| ==> log[i].sequence.value > last
  {
    if log != [] {
      if log[0].sequence.value <= last {
        UptoBounds(start, log[1..], last);
        forall i | 0 <= i < |log|
          ensures i < Upto(log, last) <==> log[i].sequence.value <= last
        {
          if i > 0 {
            assert log[i] == log[1..][i - 1];
          }
        }
      }
    }
  }

  /** `t` is exactly one in-order pass over the log up to its last sequence number. */
  ghost predicate Synced(start: Timeline, log: seq<Event>, t: Timeline)
    requires forall e <- log :: e.sequence.Some?
  {
    t == Fold(start, log[..Upto(log, t.last)])
  }

  lemma StartSynced(start: Timeline, log: seq<Event>)
    requires Numbered(start.last, log)
    ensures Upto(log, start.last) == 0 && Synced(start, log, start)
  {
  }

  /** An event of the log that skips none: one already folded changes nothing, the next one is folded in order. */
  lemma ApplyLogged(start: Timeline, log: seq<Event>, t: Timeline, i: nat)
    requires Numbered(start.last, log) && Synced(start, log, t)
    requires i < |log| && i <= Upto(log, t.last)
    ensures Synced(start, log, Apply(t, log[i]))
    ensures i < Upto(log, Apply(t, log[i]).last)
    ensures Upto(log, Apply(t, log[i]).last) == (if i < Upto(log, t.last) then Upto(log, t.last) else i + 1)
    ensures i < Upto(log, t.last) <==> Apply(t, log[i]).last == t.last
  {
    hide Take, Show, DisplayOf, Fold, Upto;
    UptoBounds(start.last, log, t.last);
    if i == Upto(log, t.last) {
      UptoIs(start.last, log, log[i].sequence.value, i + 1);
      assert log[..i + 1] == log[..i] + [log[i]];
      FoldAppend(start, log[..i], [log[i]]);
      FoldOne(t, log[i]);
    }
  }

  /** One stream attempt brings log[from..end]. */
  datatype Attempt = Attempt(from: nat, end: nat)

  /** Each attempt replays from at or before the next new event and may be cut anywhere. */
  ghost predicate Replays(log: seq<Event>, t: Timeline, attempts: seq<Attempt>)
    requires forall e <- log :: e.sequence.Some?
    decreases |attempts|
  {
    attempts != [] ==>
      && attempts[0].from <= attempts[0].end <= |log|
      && attempts[0].from <= Upto(log, t.last)
      && Replays(log, Fold(t, log[attempts[0].from..attempts[0].end]), attempts[1..])
  }

  ghost function AfterAttempts(log: seq<Event>, t: Timeline, attempts: seq<Attempt>): Timeline
    requires forall e <- log :: e.sequence.Some?
    requires Replays(log, t, attempts)
    decreases |attempts|
  {
    if attempts == [] then t
    else AfterAttempts(log, Fold(t, log[attempts[0].from..attempts[0].end]), attempts[1..])
  }

  lemma {:induction false} SegmentSynced(start: Timeline, log: seq<Event>, t: Timeline, from: nat, end: nat)
    requires Numbered(start.last, log) && Synced(start, log, t)
    requires from <= end <= |log| && from <= Upto(log, t.last)
    ensures Synced(start, log, Fold(t, log[from..end]))
    decreases end - from
  {
    hide Take, Show, DisplayOf;
    if from < end {
      ApplyLogged(start, log, t, from);
      assert log[from..end][0] == log[from] && log[from..end][1..] == log[from + 1..end];
      SegmentSynced(start, log, Apply(t, log[from]), from + 1, end);
    }
  }

  /**
    Exactly once: however often the stream is cut and replayed, message, Tool table, Token sums and
    terminal output are those of one in-order pass over the log up to the last sequence number.
   */
  lemma {:induction false} ExactlyOnce(start: Timeline, log: seq<Event>, t: Timeline, attempts: seq<Attempt>)
    requires Numbered(start.last, log) && Synced(start, log, t) && Replays(log, t, attempts)
    ensures Synced(start, log, AfterAttempts(log, t, attempts))
    decreases |attempts|
  {
    if attempts != [] {
      SegmentSynced(start, log, t, attempts[0].from, attempts[0].end);
      ExactlyOnce(start, log, Fold(t, log[attempts[0].from..attempts[0].end]), attempts[1..]);
    }
  }
}

/** The follower itself: the timeline object, and the loop that reconnects to the Run's stream. */
module RunFollower {
  import opened Wrappers
  import opened RunEvents
  import S = TimelineSpec
  import P = ReplayProofs

  const RECONNECT_LIMIT := 3

  /** How one stream attempt ends: closed by the server, or an error with its HTTP status if it has one. */
  datatype Ending = Closed | Failed(status: Option<int>, problem: string)

  /** One stream attempt: the events log[from..end], then its ending. */
  datatype Delivery = Delivery(from: nat, end: nat, ending: Ending)

  const CLOSED_EARLY := "the stream closed before the Run finished"

  /** The server no longer holds the Run. */
  predicate NotFound(ending: Ending) {
    ending.Failed? && ending.status == Some(404)
  }

  function Problem(ending: Ending): string {
    if ending.Failed? then ending.problem else CLOSED_EARLY
  }

  datatype Lost = Gone | Stalled(problem: string)

  class RunTimeline {
    const streamText: bool
    const showProgress: bool
    var lastSequence: int
    var terminal: Option<string>
    var message: string
    var tools: map<string, S.ToolEntry>
    var toolOrder: seq<string>
    var usage: map<string, int>
    var errorText: Option<string>
    var answerModel: Option<string>
    var requestModel: Option<string>
    var stepStreamed: bool
    var pending: string
    var lineOpen: bool
    // The terminal: what stdout got, and the progress lines of stderr.
    var stdout: string
    var progress: seq<S.Progress>

    function Outcome(): S.Outcome
      reads this
    {
      S.Outcome(terminal, message, tools, toolOrder, usage, errorText, answerModel, requestModel)
    }

    function Screen(): S.Screen
      reads this
    {
      S.Screen(streamText, showProgress, stepStreamed, pending, lineOpen, stdout, progress)
    }

    function View(): S.Timeline
      reads this
    {
      S.Timeline(lastSequence, Outcome(), Screen())
    }

    constructor (streamText: bool, showProgress: bool)
      ensures View() == S.New(streamText, showProgress)
    {
      this.streamText, this.showProgress := streamText, showProgress;
      lastSequence, terminal, message := 0, None, "";
      tools, toolOrder, usage, errorText := map[], [], map[], None;
      answerModel, requestModel := None, None;
      stepStreamed, pending, lineOpen := false, "", false;
      stdout, progress := "", [];
    }

    method Write(text: string)
      modifies this`stdout, this`lineOpen
      ensures Screen() == S.Write(old(Screen()), text)
    {
      stdout := stdout + text;
      lineOpen := !S.EndsLine(text);
    }

    method EndTextLine()
      modifies this`stdout, this`lineOpen
      ensures Screen() == S.EndTextLine(old(Screen()))
    {
      if lineOpen {
        Write("\n");
      }
    }

    method Notify(notice: S.Notice)
      modifies this`stdout, this`lineOpen, this`progress
      ensures Screen() == S.Notify(old(Screen()), notice)
    {
      if !showProgress {
        return;
      }
      EndTextLine();
      progress := progress + [S.Progress(|stdout|, notice)];
    }

    method FinishText()
      modifies this`stdout, this`lineOpen, this`pending
      ensures Screen() == S.FinishText(old(Screen()))
    {
      if pending != "" && !S.IsSilent(pending) {
        Write(pending);
      }
      pending := "";
      EndTextLine();
    }

    method ApplyDelta(text: string)
      modifies this`stdout, this`lineOpen, this`pending, this`stepStreamed
      ensures Screen() == S.ShowDelta(old(Screen()), text)
    {
      if text != "" && streamText {
        if stepStreamed {
          Write(text);
        } else {
          pending := pending + text;
          if !S.Held(pending) {
            Write(pending);
            pending := "";
            stepStreamed := true;
          }
        }
      }
    }

    method TakeAssistantOutput(message: Option<Message>)
      modifies this
      ensures lastSequence == old(lastSequence)
      ensures Outcome() == S.Take(old(Outcome()), AssistantOutput(message))
      ensures Screen() == S.Show(old(Screen()), S.DisplayOf(old(Outcome()), AssistantOutput(message)))
    {
      hide S.NonEmpty, MessageText, S.EndTextLine, S.Write, S.IsSilent;
      if message.Some? {
        answerModel := S.NonEmpty(message.value.model, answerModel);
        var text := MessageText(message.value.content);
        if S.IsSilent(text) {
          this.message := "";
        } else if text != "" {
          this.message := text;
          if streamText && !stepStreamed {
            Write(text);
          }
        }
      }
      stepStreamed := false;
      pending := "";
      EndTextLine();
    }

    method ToolEntry(call: ToolCall) returns (key: string)
      modifies this`tools, this`toolOrder
      ensures key == S.ToolKey(old(Outcome()), call) && key in tools
      ensures Outcome() == S.AddTool(old(Outcome()), call)
    {
      key := S.ToolKey(Outcome(), call);
      if key !in tools {
        var name := if call.name.Some? then call.name.value else "?";
        tools := tools[key := S.ToolEntry(call.id, name, "{}", false, None, None)];
        toolOrder := toolOrder + [key];
      }
    }

    method ToolCallStarted(call: ToolCall)
      modifies this
      ensures lastSequence == old(lastSequence)
      ensures Outcome() == S.Take(old(Outcome()), ToolStarted(call))
      ensures Screen() == S.Show(old(Screen()), S.DisplayOf(old(Outcome()), ToolStarted(call)))
    {
      hide S.AddTool, S.ToolKey, S.Notify;
      var key := ToolEntry(call);
      if call.arguments.Some? {
        tools := tools[key := tools[key].(arguments := call.arguments.value)];
      }
      Notify(S.ToolCalled(key));
    }

    method ToolCallResult(call: ToolCall, outcome: ToolOutcome)
      modifies this
      ensures lastSequence == old(lastSequence)
      ensures Outcome() == S.Take(old(Outcome()), ToolResult(call, outcome))
      ensures Screen() == S.Show(old(Screen()), S.DisplayOf(old(Outcome()), ToolResult(call, outcome)))
    {
      hide S.AddTool, S.ToolKey, S.Notify;
      var key := ToolEntry(call);
      match outcome
      case Succeeded(preview) =>
        tools := tools[key := tools[key].(isError := false, error := None, preview := preview)];
      case Failed(error) =>
        tools := tools[key := tools[key].(isError := true, error := Some(error))];
        Notify(S.ToolFailed(key));
    }

    method AddUsage(step: map<string, int>)
      modifies this`usage
      ensures usage == S.AddUsage(old(usage), step, |USAGE_FIELDS|)
    {
      for i := 0 to |USAGE_FIELDS|
        invariant usage == S.AddUsage(old(usage), step, i)
      {
        var name := USAGE_FIELDS[i];
        if name in step {
          usage := usage[name := S.CountOf(usage, name) + step[name]];
        }
      }
    }

    method TakeRequestStatus(model: Option<string>, retrying: bool)
      modifies this
      ensures lastSequence == old(lastSequence)
      ensures Outcome() == S.Take(old(Outcome()), RequestStatus(model, retrying))
      ensures Screen() == S.Show(old(Screen()), S.DisplayOf(old(Outcome()), RequestStatus(model, retrying)))
    {
      hide S.Notify, S.NonEmpty, S.Model;
      requestModel := S.NonEmpty(model, requestModel);
      if retrying {
        Notify(S.Retrying(S.Model(Outcome())));
      }
    }

    method VoidText()
      modifies this
      ensures lastSequence == old(lastSequence) && Outcome() == old(Outcome())
      ensures Screen() == S.ShowRestart(old(Screen()))
    {
      hide S.Notify;
      if stepStreamed && streamText {
        Notify(S.TextVoid);
      }
      stepStreamed := false;
      pending := "";
    }

    method SwitchModel(toModel: Option<string>)
      modifies this
      ensures lastSequence == old(lastSequence)
      ensures Outcome() == S.Take(old(Outcome()), FallbackActivated(toModel))
      ensures Screen() == S.Notify(old(Screen()), S.FellBack(toModel))
    {
      hide S.Notify, S.NonEmpty;
      requestModel := S.NonEmpty(toModel, requestModel);
      Notify(S.FellBack(toModel));
    }

    method TakeError(error: Content)
      modifies this`errorText
      ensures Outcome() == S.Take(old(Outcome()), ErrorPersisted(error))
    {
      hide MessageText;
      if MessageText(error) != "" {
        errorText := Some(MessageText(error));
      }
    }

    method TakeTerminal(status: string)
      modifies this
      ensures lastSequence == old(lastSequence)
      ensures Outcome() == S.Take(old(Outcome()), Terminal(status))
      ensures Screen() == S.FinishText(old(Screen()))
    {
      hide S.FinishText;
      terminal := Some(status);
      FinishText();
    }

    method React(body: Body)
      modifies this
      ensures lastSequence == old(lastSequence)
      ensures Outcome() == S.Take(old(Outcome()), body)
      ensures Screen() == S.Show(old(Screen()), S.DisplayOf(old(Outcome()), body))
    {
      hide S.AddTool, S.SetTool, S.TakeToolStart, S.TakeToolResult, S.TakeAnswer, S.ToolKey;
      hide S.ShowDelta, S.ShowAnswer, S.ShowRestart, S.Notify, S.FinishText;
      hide S.AddUsage, S.NonEmpty, S.Model, MessageText;
      match body {
        case Delta(text) =>
          if text.Some? {
            ApplyDelta(text.value);
          }
        case AssistantOutput(message) => TakeAssistantOutput(message);
        case AttemptRestarted => VoidText();
        case ToolStarted(call) => ToolCallStarted(call);
        case ToolResult(call, outcome) => ToolCallResult(call, outcome);
        case RequestStatus(model, retrying) => TakeRequestStatus(model, retrying);
        case FallbackActivated(toModel) => SwitchModel(toModel);
        case StepUsage(usage) => AddUsage(usage);
        case ErrorPersisted(error) => TakeError(error);
        case CompactionStarted => Notify(S.Compacting);
        case Terminal(status) => TakeTerminal(status);
        case Other =>
      }
    }

    /** Apply one event once; return whether the Run has ended. */
    method Apply(event: Event) returns (ended: bool)
      modifies this
      ensures View() == S.Apply(old(View()), event)
      ensures ended == S.Finished(View())
    {
      hide S.Take, S.Show, S.DisplayOf;
      if event.sequence.Some? {
        if event.sequence.value <= lastSequence {
          return terminal.Some?;
        }
        lastSequence := event.sequence.value;
      }
      React(event.body);
      ended := terminal.Some?;
    }

    /**
      Apply the events of one delivery until one ends the Run. Nothing new is skipped, so the
      timeline stays one in-order pass over the log.
     */
    method ApplyAll(ghost start: S.Timeline, log: seq<Event>, from: nat, end: nat) returns (ended: bool)
      requires P.Numbered(start.last, log) && P.Synced(start, log, View()) && !S.Finished(View())
      requires from <= end <= |log| && from <= P.Upto(log, lastSequence)
      modifies this
      ensures P.Synced(start, log, View()) && ended == S.Finished(View())
      ensures old(lastSequence) <= lastSequence
      ensures Folded(log, end, old(lastSequence), lastSequence, !ended)
    {
      hide S.Take, S.Show, S.DisplayOf, S.Fold;
      ended := false;
      for i := from to end
        invariant P.Synced(start, log, View()) && !S.Finished(View())
        invariant i <= P.Upto(log, lastSequence)
        invariant old(lastSequence) <= lastSequence
        invariant Folded(log, i, old(lastSequence), lastSequence, true)
      {
        P.ApplyLogged(start, log, View(), i);
        ended := Apply(log[i]);
        if ended {
          return;
        }
      }
    }

    /** One stream: apply what it delivers, and tell how it ended. */
    method OneStream(ghost start: S.Timeline, log: seq<Event>, delivery: Delivery)
      returns (ended: bool, gone: bool, problem: string)
      requires P.Numbered(start.last, log) && P.Synced(start, log, View()) && !S.Finished(View())
      requires Faithful(log, lastSequence, delivery)
      modifies this
      ensures P.Synced(start, log, View()) && ended == S.Finished(View())
      ensures old(lastSequence) <= lastSequence
      ensures Folded(log, delivery.end, old(lastSequence), lastSequence, !ended)
      ensures !ended ==> gone == NotFound(delivery.ending) && problem == Problem(delivery.ending)
    {
      gone, problem := false, CLOSED_EARLY;
      ended := ApplyAll(start, log, delivery.from, delivery.end);
      if !ended && delivery.ending.Failed? {
        gone, problem := delivery.ending.status == Some(404), delivery.ending.problem;
      }
    }

    /**
      Apply streamed events until the terminal one; return why the stream was lost. `heights` holds
      the last sequence number before each stream that was opened.
     */
    method Follow(ghost start: S.Timeline, log: seq<Event>, serve: (nat, int) -> Delivery)
      returns (lost: Option<Lost>, heights: seq<int>)
      requires P.Numbered(start.last, log) && P.Synced(start, log, View()) && !S.Finished(View())
      requires forall n: nat, after: int :: Faithful(log, after, serve(n, after))
      modifies this
      // Every event counted once, whatever was replayed or cut.
      ensures P.Synced(start, log, View())
      ensures lost.None? <==> S.Finished(View())
      ensures Streamed(log, serve, old(lastSequence), heights, lastSequence, lost)
    {
      hide S.Fold, S.Apply, S.Finished, P.Synced, P.Upto, Folded, AllFolded, Streak, Streamed, Following;
      ghost var first := lastSequence;
      var stalled := 0;
      heights := [];
      NothingOpened(log, serve, first);
      while true
        invariant P.Synced(start, log, View()) && !S.Finished(View())
        invariant 0 <= stalled <= 2 && Following(log, serve, first, heights, lastSequence, stalled)
        decreases |log| - P.Upto(log, lastSequence), 3 - stalled
      {
        var before := lastSequence;
        var delivery := serve(|heights|, before);
        ghost var earlier := heights;
        heights := heights + [before];
        var ended, gone, problem := OneStream(start, log, delivery);
        FoldedUpto(log, delivery.end, before, lastSequence, !ended);
        OneMoreStream(log, serve, first, earlier, before, lastSequence, !ended, stalled);
        if ended {
          return None, heights;
        }
        if gone {
          return Some(Gone), heights;
        }
        stalled := if lastSequence > before then 0 else stalled + 1;
        if stalled >= RECONNECT_LIMIT {
          return Some(Stalled(problem)), heights;
        }
      }
    }
  }

  /**
    Events up to the log's `end`th were folded on top of `before`, none beyond: all of them if `whole`,
    which they are unless one of them ended the Run.
   */
  ghost predicate Folded(log: seq<Event>, end: nat, before: int, after: int, whole: bool)
    requires forall e <- log :: e.sequence.Some?
  {
    && (after == before || P.Upto(log, before) < P.Upto(log, after))
    && (P.Upto(log, after) <= P.Upto(log, before) || P.Upto(log, after) <= end)
    && (whole ==> end <= P.Upto(log, after))
  }

  lemma FoldedUpto(log: seq<Event>, end: nat, before: int, after: int, whole: bool)
    requires (forall e <- log :: e.sequence.Some?) && Folded(log, end, before, after, whole)
    ensures P.Upto(log, before) <= P.Upto(log, after)
    ensures after != before ==> P.Upto(log, before) < P.Upto(log, after)
  {
  }

  /** Every stream that was opened brought the timeline from its height to the next one. */
  ghost predicate AllFolded(log: seq<Event>, serve: (nat, int) -> Delivery, heights: seq<int>, last: int, whole: bool)
    requires forall e <- log :: e.sequence.Some?
  {
    forall n :: 0 <= n < |heights| ==>
      Folded(log, serve(n, heights[n]).end, heights[n], (heights + [last])[n + 1], whole || n + 1 < |heights|)
  }

  lemma OneMoreFolded(
      log: seq<Event>, serve: (nat, int) -> Delivery, heights: seq<int>, before: int, after: int, whole: bool)
    requires (forall e <- log :: e.sequence.Some?) && AllFolded(log, serve, heights, before, true)
    requires Folded(log, serve(|heights|, before).end, before, after, whole)
    ensures AllFolded(log, serve, heights + [before], after, whole)
  {
    hide Folded;
    var more := heights + [before];
    forall n | 0 <= n < |more|
      ensures Folded(log, serve(n, more[n]).end, more[n], (more + [after])[n + 1], whole || n + 1 < |more|)
    {
      if n < |heights| {
        assert more[n] == heights[n] && (more + [after])[n + 1] == (heights + [before])[n + 1];
      }
    }
  }

  /** What following a Run's stream from `first` on may come to. */
  ghost predicate Streamed(log: seq<Event>, serve: (nat, int) -> Delivery, first: int, heights: seq<int>, last: int,
                           lost: Option<Lost>)
    requires forall e <- log :: e.sequence.Some?
  {
    // Streams are opened, each at the height the one before reached with all it delivered.
    && heights != [] && heights[0] == first
    && AllFolded(log, serve, heights, last, lost.Some?)
    // It ends: three streams for every new event, and three more.
    && |heights| <= 3 * (|log| - P.Upto(log, first)) + 3
    // A stream counts as lost only on HTTP 404 or after three streams in a row without a new event.
    && (lost.Some? ==>
          var ending := serve(|heights| - 1, heights[|heights| - 1]).ending;
          if lost.value.Gone? then NotFound(ending)
          else !NotFound(ending) && lost.value.problem == Problem(ending) && Streak(heights, last, RECONNECT_LIMIT))
    // No stream is opened once three in a row brought nothing.
    && (forall n :: 0 <= n < |heights| ==> !Streak(heights[..n], heights[n], RECONNECT_LIMIT))
  }

  /** The loop so far: the streams opened from `first` on, the last `stalled` of them without a new event. */
  ghost predicate Following(
      log: seq<Event>, serve: (nat, int) -> Delivery, first: int, heights: seq<int>, last: int, stalled: nat)
    requires forall e <- log :: e.sequence.Some?
  {
    && AllFolded(log, serve, heights, last, true)
    && (heights + [last])[0] == first
    && |heights| + 3 * (|log| - P.Upto(log, last)) + (3 - stalled) <= 3 * (|log| - P.Upto(log, first)) + 3
    && Streak(heights, last, stalled) && !Streak(heights, last, stalled + 1)
    && (forall n :: 0 <= n < |heights| ==> !Streak(heights[..n], heights[n], RECONNECT_LIMIT))
  }

  lemma NothingOpened(log: seq<Event>, serve: (nat, int) -> Delivery, first: int)
    requires forall e <- log :: e.sequence.Some?
    ensures Following(log, serve, first, [], first, 0)
  {
  }

  /** One more stream: the loop goes on, or what it reports is what it saw. */
  lemma OneMoreStream(
      log: seq<Event>, serve: (nat, int) -> Delivery, first: int, heights: seq<int>, before: int, last: int,
      whole: bool, stalled: nat)
    requires (forall e <- log :: e.sequence.Some?) && stalled <= 2 && before <= last
    requires Following(log, serve, first, heights, before, stalled)
    requires Folded(log, serve(|heights|, before).end, before, last, whole)
    ensures !whole ==> Streamed(log, serve, first, heights + [before], last, None)
    ensures var ending := serve(|heights|, before).ending;
            whole ==>
              && (NotFound(ending) ==> Streamed(log, serve, first, heights + [before], last, Some(Gone)))
              && (!NotFound(ending) && last == before && stalled == 2 ==>
                    Streamed(log, serve, first, heights + [before], last, Some(Stalled(Problem(ending)))))
              && (last > before ==> Following(log, serve, first, heights + [before], last, 0))
              && (last == before ==> Following(log, serve, first, heights + [before], last, stalled + 1))
  {
    FoldedUpto(log, serve(|heights|, before).end, before, last, whole);
    LongerHeights(heights, before, stalled);
    OneMoreFolded(log, serve, heights, before, last, whole);
    var more := heights + [before];
    assert (more + [last])[0] == (heights + [before])[0] == more[0];
    assert more[|more| - 1] == before;
    hide P.Upto, Folded, AllFolded;
    if last == before {
      assert Streak(more, last, stalled + 1);
    }
    hide Streak;
  }

  /** What the server may deliver after `after`: a stretch of its log that skips no newer event. */
  ghost predicate Faithful(log: seq<Event>, after: int, delivery: Delivery)
    requires forall e <- log :: e.sequence.Some?
  {
    delivery.from <= delivery.end <= |log| && delivery.from <= P.Upto(log, after)
  }

  /** The last `n` streams were opened at the sequence number reached now: none brought a new event. */
  ghost predicate Streak(heights: seq<int>, last: int, n: nat) {
    n <= |heights| && forall i :: |heights| - n <= i < |heights| ==> heights[i] == last
  }

  lemma LongerStreak(heights: seq<int>, before: int, n: nat)
    ensures Streak(heights + [before], before, n + 1) <==> Streak(heights, before, n)
  {
    var more := heights + [before];
    assert more[|heights|] == before;
    assert forall i :: 0 <= i < |heights| ==> more[i] == heights[i];
  }

  lemma ShorterStreak(heights: seq<int>, before: int, m: nat, n: nat)
    requires m <= n
    ensures Streak(heights, before, n) ==> Streak(heights, before, m)
  {
  }

  lemma LongerHeights(heights: seq<int>, before: int, stalled: nat)
    requires stalled <= 2
    requires Streak(heights, before, stalled) && !Streak(heights, before, stalled + 1)
    requires forall n :: 0 <= n < |heights| ==> !Streak(heights[..n], heights[n], RECONNECT_LIMIT)
    ensures var more := heights + [before];
            && Streak(more, before, stalled + 1) && !Streak(more, before, stalled + 2)
            && (forall n :: 0 <= n < |more| ==> !Streak(more[..n], more[n], RECONNECT_LIMIT))
            && (forall last :: last > before ==> !Streak(more, last, 1))
  {
    var more := heights + [before];
    assert more[|heights|] == before;
    LongerStreak(heights, before, stalled);
    LongerStreak(heights, before, stalled + 1);
    forall n | 0 <= n < |more|
      ensures !Streak(more[..n], more[n], RECONNECT_LIMIT)
    {
      assert more[..n] == heights[..n];
      if n == |heights| {
        assert heights[..n] == heights;
        ShorterStreak(heights, before, stalled + 1, RECONNECT_LIMIT);
      }
    }
  }

  /**
    The event loop of `vbot chat`: the events of the RPC reply (the log's first `replied` ones), then
    the stream, unless the reply holds the Run's end. A lost stream still shows the text it brought.
   */
  method FollowRun(streamText: bool, showProgress: bool, log: seq<Event>, replied: nat,
                   serve: (nat, int) -> Delivery)
    returns (timeline: RunTimeline, lost: Option<Lost>, ghost heights: seq<int>)
    requires P.Numbered(0, log) && replied <= |log|
    requires forall n: nat, after: int :: Faithful(log, after, serve(n, after))
    ensures fresh(timeline)
    ensures var folded := S.Fold(S.New(streamText, showProgress), log[..P.Upto(log, timeline.lastSequence)]);
            && timeline.Outcome() == folded.outcome
            && timeline.Screen() == (if lost.Some? then S.FinishText(folded.screen) else folded.screen)
            && (lost.None? <==> S.Finished(folded))
    // Without a stream the reply's events end the Run; else all of them were folded before the first stream.
    ensures heights == [] ==> lost.None? && P.Upto(log, timeline.lastSequence) <= replied
    ensures heights != [] ==>
              && P.Upto(log, heights[0]) == replied
              && Streamed(log, serve, heights[0], heights, timeline.lastSequence, lost)
  {
    hide S.Take, S.Show, S.DisplayOf, S.Fold, S.Apply, S.FinishText, Streamed;
    timeline := new RunTimeline(streamText, showProgress);
    var start := S.New(streamText, showProgress);
    P.StartSynced(start, log);
    var ended := timeline.ApplyAll(start, log, 0, replied);
    lost, heights := None, [];
    if !ended {
      var streams;
      ghost var first := timeline.lastSequence;
      lost, streams := timeline.Follow(start, log, serve);
      heights := streams;
      StreamedFrom(log, serve, first, heights, timeline.lastSequence, lost);
    }
    if lost.Some? {
      timeline.FinishText();
    }
  }

  lemma StreamedFrom(log: seq<Event>, serve: (nat, int) -> Delivery, first: int, heights: seq<int>, last: int,
                     lost: Option<Lost>)
    requires (forall e <- log :: e.sequence.Some?) && Streamed(log, serve, first, heights, last, lost)
    ensures heights != [] && heights[0] == first
  {
  }
}
