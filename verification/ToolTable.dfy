/**
  What the reported Tool table says of one entry: the last result and the last arguments that met its
  key, its first place; and when a call's result meets the entry its start made.
 */
module ToolTable {
  import opened Wrappers
  import Json
  import JsonProofs
  import opened RunEvents
  import opened TimelineSpec
  import opened TimelineProofs

  /** The call an event is about, if it is about a Tool call. */
  function CallOf(body: Body): Option<ToolCall> {
    match body
    case ToolStarted(call) => Some(call)
    case ToolResult(call, _) => Some(call)
    case _ => None
  }

  /** The event is about the entry with this key. */
  predicate Meets(o: Outcome, body: Body, key: string) {
    CallOf(body).Some? && ToolKey(o, CallOf(body).value) == key
  }

  /** An event leaves every entry it does not meet as it is. */
  lemma OthersKept(o: Outcome, body: Body, key: string)
    requires !Meets(o, body, key)
    ensures key in Take(o, body).tools <==> key in o.tools
    ensures key in o.tools ==> Take(o, body).tools[key] == o.tools[key]
  {
    hide ToolKey, AddUsage, IsSilent;
  }

  /** `q` holds all entries of `o`, with the same names and ids, at the same places. */
  predicate Extends(o: Outcome, q: Outcome, key: string) {
    && o.toolOrder <= q.toolOrder && |o.tools| <= |q.tools|
    && (key in o.tools ==>
          key in q.tools && q.tools[key].name == o.tools[key].name && q.tools[key].id == o.tools[key].id)
  }

  lemma AddExtends(o: Outcome, call: ToolCall, key: string)
    ensures Extends(o, AddTool(o, call), key)
  {
    hide ToolKey;
  }

  lemma SetExtends(o: Outcome, q: Outcome, key: string, entry: ToolEntry, other: string)
    requires Extends(o, q, other) && key in q.tools
    requires entry.name == q.tools[key].name && entry.id == q.tools[key].id
    ensures Extends(o, SetTool(q, key, entry), other)
  {
    assert SetTool(q, key, entry).tools.Keys == q.tools.Keys;
  }

  /** An entry is made once, named by its first event, and never moves in the table. */
  lemma EntryStays(o: Outcome, body: Body, key: string)
    ensures Extends(o, Take(o, body), key)
  {
    if CallOf(body).Some? {
      var call := CallOf(body).value;
      AddExtends(o, call, key);
      var added, met := AddTool(o, call), ToolKey(o, call);
      hide ToolKey, AddTool, Extends, SetTool;
      forall entry: ToolEntry | entry.name == added.tools[met].name && entry.id == added.tools[met].id
        ensures Extends(o, SetTool(added, met, entry), key)
      {
        SetExtends(o, added, met, entry, key);
      }
    } else {
      hide AddUsage, IsSilent;
    }
  }

  lemma {:induction false} TableGrows(t: Timeline, events: seq<Event>, key: string)
    ensures Extends(t.outcome, Fold(t, events).outcome, key)
    decreases |events|
  {
    if events != [] {
      hide Take, Show, DisplayOf;
      EntryStays(t.outcome, events[0].body, key);
      TableGrows(Apply(t, events[0]), events[1..], key);
    }
  }

  // ---------------------------------------------------------------- results

  /** What an entry says of a result. */
  predicate Reports(entry: ToolEntry, outcome: ToolOutcome) {
    match outcome
    case Succeeded(preview) => !entry.isError && entry.error == None && entry.preview == preview
    case Failed(error) => entry.isError && entry.error == Some(error)
  }

  lemma ResultTaken(o: Outcome, call: ToolCall, outcome: ToolOutcome)
    ensures var p, key := Take(o, ToolResult(call, outcome)), ToolKey(o, call);
            key in p.tools && Reports(p.tools[key], outcome)
  {
    hide ToolKey;
  }

  lemma StartKeepsResult(o: Outcome, body: Body, key: string, outcome: ToolOutcome)
    requires key in o.tools && Reports(o.tools[key], outcome)
    requires body.ToolResult? ==> !Meets(o, body, key)
    ensures key in Take(o, body).tools && Reports(Take(o, body).tools[key], outcome)
  {
    hide ToolKey;
    if !Meets(o, body, key) {
      OthersKept(o, body, key);
    }
  }

  /** No event of the log brings a result for the entry. */
  predicate NoResult(t: Timeline, events: seq<Event>, key: string)
    decreases |events|
  {
    events == []
    || (!(events[0].body.ToolResult? && Meets(t.outcome, events[0].body, key))
        && NoResult(Apply(t, events[0]), events[1..], key))
  }

  lemma {:induction false} ResultStays(t: Timeline, events: seq<Event>, key: string, outcome: ToolOutcome)
    requires key in t.outcome.tools && Reports(t.outcome.tools[key], outcome) && NoResult(t, events, key)
    ensures var o := Fold(t, events).outcome; key in o.tools && Reports(o.tools[key], outcome)
    decreases |events|
  {
    if events != [] {
      hide Take, Show, DisplayOf, Reports, Meets;
      StartKeepsResult(t.outcome, events[0].body, key, outcome);
      ResultStays(Apply(t, events[0]), events[1..], key, outcome);
    }
  }

  /** Every entry reports the last result that met its key, whatever else the Run did. */
  lemma LastResultReported(t: Timeline, before: seq<Event>, result: Event, after: seq<Event>)
    requires InOrder(t.last, before + [result] + after) && result.body.ToolResult?
    requires NoResult(Fold(t, before + [result]), after, ToolKey(Fold(t, before).outcome, result.body.resultCall))
    ensures var o := Fold(t, before + [result] + after).outcome;
            var key := ToolKey(Fold(t, before).outcome, result.body.resultCall);
            key in o.tools && Reports(o.tools[key], result.body.outcome)
  {
    hide Take, Show, DisplayOf, Reports, Fold, ToolKey, NoResult;
    EventBetween(t, before, result, after);
    ResultTaken(Fold(t, before).outcome, result.body.resultCall, result.body.outcome);
    var key := ToolKey(Fold(t, before).outcome, result.body.resultCall);
    ResultStays(Fold(t, before + [result]), after, key, result.body.outcome);
  }

  // ---------------------------------------------------------------- arguments

  predicate BringsArguments(o: Outcome, body: Body, key: string) {
    body.ToolStarted? && body.call.arguments.Some? && Meets(o, body, key)
  }

  predicate NoArguments(t: Timeline, events: seq<Event>, key: string)
    decreases |events|
  {
    events == []
    || (!BringsArguments(t.outcome, events[0].body, key) && NoArguments(Apply(t, events[0]), events[1..], key))
  }

  lemma ArgumentsKept(o: Outcome, body: Body, key: string)
    requires key in o.tools && !BringsArguments(o, body, key)
    ensures key in Take(o, body).tools && Take(o, body).tools[key].arguments == o.tools[key].arguments
  {
    hide ToolKey;
    if !Meets(o, body, key) {
      OthersKept(o, body, key);
    }
  }

  lemma {:induction false} ArgumentsStay(t: Timeline, events: seq<Event>, key: string)
    requires key in t.outcome.tools && NoArguments(t, events, key)
    ensures var o := Fold(t, events).outcome; key in o.tools && o.tools[key].arguments == t.outcome.tools[key].arguments
    decreases |events|
  {
    if events != [] {
      hide Take, Show, DisplayOf, BringsArguments;
      ArgumentsKept(t.outcome, events[0].body, key);
      ArgumentsStay(Apply(t, events[0]), events[1..], key);
    }
  }

  lemma ArgumentsTaken(o: Outcome, call: ToolCall)
    requires call.arguments.Some?
    ensures var p, key := Take(o, ToolStarted(call)), ToolKey(o, call);
            key in p.tools && p.tools[key].arguments == call.arguments.value
  {
    hide ToolKey;
  }

  /** Every entry reports the last arguments that met its key. */
  lemma LastArgumentsReported(t: Timeline, before: seq<Event>, start: Event, after: seq<Event>)
    requires InOrder(t.last, before + [start] + after) && start.body.ToolStarted? && start.body.call.arguments.Some?
    requires NoArguments(Fold(t, before + [start]), after, ToolKey(Fold(t, before).outcome, start.body.call))
    ensures var o, key := Fold(t, before + [start] + after).outcome, ToolKey(Fold(t, before).outcome, start.body.call);
            key in o.tools && o.tools[key].arguments == start.body.call.arguments.value
  {
    hide Take, Show, DisplayOf, Fold, ToolKey, NoArguments;
    EventBetween(t, before, start, after);
    ArgumentsTaken(Fold(t, before).outcome, start.body.call);
    ArgumentsStay(Fold(t, before + [start]), after, ToolKey(Fold(t, before).outcome, start.body.call));
  }

  // ---------------------------------------------------------------- which entry an event meets

  /** The key a call without an id gets when the Tool table has `n` entries. */
  function LengthKey(n: nat): string {
    "#" + Json.NatText(n)
  }

  predicate HasId(call: ToolCall) {
    call.id.Some? && call.id.value != ""
  }

  lemma KeyIs(o: Outcome, call: ToolCall)
    ensures ToolKey(o, call) == if HasId(call) then call.id.value else LengthKey(|o.tools|)
  {
    hide Json.NatText;
  }

  lemma LengthKeysDiffer(m: nat, n: nat)
    ensures LengthKey(m) == LengthKey(n) <==> m == n
  {
    JsonProofs.NatTextValue(m);
    JsonProofs.NatTextValue(n);
    assert LengthKey(m)[1..] == Json.NatText(m) && LengthKey(n)[1..] == Json.NatText(n);
  }

  /** The table grows by a call exactly when its key is new. */
  lemma StartGrows(o: Outcome, call: ToolCall)
    ensures |Take(o, ToolStarted(call)).tools| == |o.tools| + if ToolKey(o, call) in o.tools then 0 else 1
  {
    hide ToolKey;
  }

  /**
    A call's result meets the entry of its start exactly when the call has an id, or its key was taken
    before it started and the table has not grown since.
   */
  lemma ResultMeetsStart(t: Timeline, before: seq<Event>, start: Event, between: seq<Event>, call: ToolCall)
    requires InOrder(t.last, before + [start] + between)
    requires start.body.ToolStarted? && start.body.call.id == call.id
    ensures var o, p := Fold(t, before).outcome, Fold(t, before + [start] + between).outcome;
            ToolKey(p, call) == ToolKey(o, start.body.call)
            <==> HasId(call) || (LengthKey(|o.tools|) in o.tools && |p.tools| == |o.tools|)
  {
    hide Take, Show, DisplayOf, Fold, ToolKey, LengthKey;
    EventBetween(t, before, start, between);
    var o, m := Fold(t, before).outcome, Fold(t, before + [start]);
    var p := Fold(m, between).outcome;
    KeyIs(o, start.body.call);
    KeyIs(p, call);
    StartGrows(o, start.body.call);
    TableGrows(m, between, "");
    LengthKeysDiffer(|o.tools|, |p.tools|);
  }

  /** A call without an id: its start makes one entry, its result another. */
  lemma NoIdSplitsCall(showProgress: bool)
    ensures var call := ToolCall(None, Some("read"), None);
            var start := Event(Some(1), ToolStarted(call));
            var result := Event(Some(2), ToolResult(call, Succeeded(Some("text"))));
            var tools := Fold(New(true, showProgress), [start, result]).outcome.tools;
            && tools.Keys == {"#0", "#1"}
            && tools["#0"].preview == None && tools["#1"].preview == Some("text")
  {
    var call := ToolCall(None, Some("read"), None);
    var start, result := Event(Some(1), ToolStarted(call)), Event(Some(2), ToolResult(call, Succeeded(Some("text"))));
    var t := New(true, showProgress);
    assert LengthKey(0) == "#0" && LengthKey(1) == "#1";
    KeyIs(t.outcome, call);
    var u := Apply(t, start);
    KeyIs(u.outcome, call);
    hide ToolKey, LengthKey, Show, DisplayOf;
    assert u.outcome.tools.Keys == {"#0"};
    assert [start, result] == [start] + [result];
    FoldAppend(t, [start], [result]);
    FoldOne(t, start);
    FoldOne(u, result);
  }
}
