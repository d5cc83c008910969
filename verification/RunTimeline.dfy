/** The events of one Run as `vbot chat` receives them. A field that is absent or of another type is None. */
module RunEvents {
  import opened Wrappers

  /** A JSON value the follower keeps or forwards without looking inside. */
  type Opaque = string

  datatype ToolCall = ToolCall(id: Option<string>, name: Option<string>, arguments: Option<Opaque>)

  datatype ToolOutcome = Succeeded(preview: Option<Opaque>) | Failed(error: Opaque)

  /** Message content: one text, or blocks of which only text blocks carry text. */
  datatype Content = Text(text: string) | Blocks(blocks: seq<Option<string>>) | NoContent

  datatype Message = Message(model: Option<string>, content: Content)

  datatype Body =
    | Delta(text: Option<string>)
    | AssistantOutput(message: Option<Message>)
    | AttemptRestarted
    | ToolStarted(call: ToolCall)
    | ToolResult(resultCall: ToolCall, outcome: ToolOutcome)
    | RequestStatus(model: Option<string>, retrying: bool)
    | FallbackActivated(toModel: Option<string>)
    | StepUsage(usage: map<string, int>)
    | ErrorPersisted(error: Content)
    | CompactionStarted
    | Terminal(status: string)
    | Other

  datatype Event = Event(sequence: Option<int>, body: Body)

  const USAGE_FIELDS: seq<string> :=
    ["input_tokens", "output_tokens", "cache_read_tokens", "cache_write_tokens", "reasoning_tokens"]

  function JoinBlocks(blocks: seq<Option<string>>): string {
    if blocks == [] then ""
    else (if blocks[0].Some? then blocks[0].value else "") + JoinBlocks(blocks[1..])
  }

  function MessageText(content: Content): string {
    match content
    case Text(text) => text
    case Blocks(blocks) => JoinBlocks(blocks)
    case NoContent => ""
  }
}

/** The fold of one Run's events into its outcome, with the text that reaches stdout. */
module TimelineSpec {
  import opened Wrappers
  import Json
  import opened RunEvents
  import opened PyText

  const SILENT_ANSWER := "[SILENT]"

  predicate IsSilent(text: string) {
    Strip(text) == SILENT_ANSWER
  }

  /** Text that could still become the silent answer, as the follower tests it. */
  predicate Held(text: string) {
    Strip(text) <= SILENT_ANSWER
  }

  // ---------------------------------------------------------------- what the terminal shows

  datatype Notice = TextVoid | ToolCalled(key: string) | ToolFailed(key: string) | Retrying(model: Option<string>)
                  | FellBack(model: Option<string>) | Compacting

  /** A progress line on stderr, with how much of stdout had been written before it. */
  datatype Progress = Progress(at: nat, notice: Notice)

  datatype Screen = Screen(
    streamText: bool, showProgress: bool, stepStreamed: bool, pending: string, lineOpen: bool,
    stdout: string, progress: seq<Progress>)

  predicate EndsLine(text: string) {
    text != "" && text[|text| - 1] == '\n'
  }

  function Write(s: Screen, text: string): Screen {
    s.(stdout := s.stdout + text, lineOpen := !EndsLine(text))
  }

  function EndTextLine(s: Screen): Screen {
    if s.lineOpen then Write(s, "\n") else s
  }

  function Notify(s: Screen, notice: Notice): Screen {
    if !s.showProgress then s
    else
      var ended := EndTextLine(s);
      ended.(progress := ended.progress + [Progress(|ended.stdout|, notice)])
  }

  function FinishText(s: Screen): Screen {
    var shown := if s.pending != "" && !IsSilent(s.pending) then Write(s, s.pending) else s;
    EndTextLine(shown.(pending := ""))
  }

  function ShowDelta(s: Screen, text: string): Screen {
    if text == "" || !s.streamText then s
    else if s.stepStreamed then Write(s, text)
    else
      var pending := s.pending + text;
      if Held(pending) then s.(pending := pending)
      else Write(s, pending).(pending := "", stepStreamed := true)
  }

  function ShowAnswer(s: Screen, text: string): Screen {
    var shown := if text != "" && !IsSilent(text) && s.streamText && !s.stepStreamed then Write(s, text) else s;
    EndTextLine(shown.(stepStreamed := false, pending := ""))
  }

  function ShowRestart(s: Screen): Screen {
    (if s.stepStreamed && s.streamText then Notify(s, TextVoid) else s).(stepStreamed := false, pending := "")
  }

  /** What one event asks of the screen. An answer event without a message object shows no text. */
  datatype Display = Hidden | Fragment(text: string) | Answer(text: string) | Restart | Note(notice: Notice) | EndOfRun

  function Show(s: Screen, d: Display): Screen {
    match d
    case Hidden => s
    case Fragment(text) => ShowDelta(s, text)
    case Answer(text) => ShowAnswer(s, text)
    case Restart => ShowRestart(s)
    case Note(notice) => Notify(s, notice)
    case EndOfRun => FinishText(s)
  }

  // ---------------------------------------------------------------- what the Run came to

  datatype ToolEntry = ToolEntry(
    id: Option<string>, name: string, arguments: Opaque, isError: bool, error: Option<Opaque>,
    preview: Option<Opaque>)

  datatype Outcome = Outcome(
    terminal: Option<string>, message: string,
    tools: map<string, ToolEntry>, toolOrder: seq<string>, usage: map<string, int>,
    errorText: Option<string>, answerModel: Option<string>, requestModel: Option<string>)

  function NonEmpty(model: Option<string>, otherwise: Option<string>): Option<string> {
    if model.Some? && model.value != "" then model else otherwise
  }

  function Model(o: Outcome): Option<string> {
    if o.answerModel.Some? then o.answerModel else o.requestModel
  }

  function TakeAnswer(o: Outcome, message: Message): Outcome {
    var text := MessageText(message.content);
    o.(answerModel := NonEmpty(message.model, o.answerModel),
       message := if IsSilent(text) then "" else if text != "" then text else o.message)
  }

  function ToolKey(o: Outcome, call: ToolCall): string {
    if call.id.Some? && call.id.value != "" then call.id.value else "#" + Json.NatText(|o.tools|)
  }

  /** `setdefault`: an entry that exists stays as it is. */
  function AddTool(o: Outcome, call: ToolCall): (added: Outcome)
    ensures ToolKey(o, call) in added.tools
  {
    var key := ToolKey(o, call);
    if key in o.tools then o
    else
      var name := if call.name.Some? then call.name.value else "?";
      o.(tools := o.tools[key := ToolEntry(call.id, name, "{}", false, None, None)], toolOrder := o.toolOrder + [key])
  }

  function SetTool(o: Outcome, key: string, entry: ToolEntry): Outcome {
    o.(tools := o.tools[key := entry])
  }

  function TakeToolStart(o: Outcome, call: ToolCall): Outcome {
    var key := ToolKey(o, call);
    var added := AddTool(o, call);
    if call.arguments.Some? then SetTool(added, key, added.tools[key].(arguments := call.arguments.value)) else added
  }

  function TakeToolResult(o: Outcome, call: ToolCall, outcome: ToolOutcome): Outcome {
    var key := ToolKey(o, call);
    var added := AddTool(o, call);
    match outcome
    case Succeeded(preview) =>
      SetTool(added, key, added.tools[key].(isError := false, error := None, preview := preview))
    case Failed(error) => SetTool(added, key, added.tools[key].(isError := true, error := Some(error)))
  }

  function CountOf(total: map<string, int>, name: string): int {
    if name in total then total[name] else 0
  }

  /** The first `n` Token fields of one Model step added to the sums. */
  function AddUsage(total: map<string, int>, step: map<string, int>, n: nat): map<string, int>
    requires n <= |USAGE_FIELDS|
  {
    if n == 0 then total
    else
      var before := AddUsage(total, step, n - 1);
      var name := USAGE_FIELDS[n - 1];
      if name in step then before[name := CountOf(before, name) + step[name]] else before
  }

  function Take(o: Outcome, body: Body): Outcome {
    match body
    case AssistantOutput(message) => if message.Some? then TakeAnswer(o, message.value) else o
    case ToolStarted(call) => TakeToolStart(o, call)
    case ToolResult(call, outcome) => TakeToolResult(o, call, outcome)
    case RequestStatus(model, _) => o.(requestModel := NonEmpty(model, o.requestModel))
    case FallbackActivated(toModel) => o.(requestModel := NonEmpty(toModel, o.requestModel))
    case StepUsage(usage) => o.(usage := AddUsage(o.usage, usage, |USAGE_FIELDS|))
    case ErrorPersisted(error) =>
      if MessageText(error) != "" then o.(errorText := Some(MessageText(error))) else o
    case Terminal(status) => o.(terminal := Some(status))
    case Delta(_) => o
    case AttemptRestarted => o
    case CompactionStarted => o
    case Other => o
  }

  /** What `body` shows, given the outcome before it. */
  function DisplayOf(o: Outcome, body: Body): Display {
    match body
    case Delta(text) => if text.Some? then Fragment(text.value) else Hidden
    case AssistantOutput(message) => Answer(if message.Some? then MessageText(message.value.content) else "")
    case AttemptRestarted => Restart
    case ToolStarted(call) => Note(ToolCalled(ToolKey(o, call)))
    case ToolResult(call, outcome) => if outcome.Failed? then Note(ToolFailed(ToolKey(o, call))) else Hidden
    case RequestStatus(model, retrying) => if retrying then Note(Retrying(Model(Take(o, body)))) else Hidden
    case FallbackActivated(toModel) => Note(FellBack(toModel))
    case CompactionStarted => Note(Compacting)
    case Terminal(_) => EndOfRun
    case StepUsage(_) => Hidden
    case ErrorPersisted(_) => Hidden
    case Other => Hidden
  }

  // ---------------------------------------------------------------- the fold

  datatype Timeline = Timeline(last: int, outcome: Outcome, screen: Screen)

  function New(streamText: bool, showProgress: bool): Timeline {
    Timeline(0, Outcome(None, "", map[], [], map[], None, None, None),
             Screen(streamText, showProgress, false, "", false, "", []))
  }

  predicate Stale(last: int, event: Event) {
    event.sequence.Some? && event.sequence.value <= last
  }

  function Advance(last: int, event: Event): int {
    if event.sequence.Some? then event.sequence.value else last
  }

  function Apply(t: Timeline, event: Event): Timeline {
    if Stale(t.last, event) then t
    else
      Timeline(Advance(t.last, event), Take(t.outcome, event.body),
               Show(t.screen, DisplayOf(t.outcome, event.body)))
  }

  /** One in-order pass over `events`. */
  function Fold(t: Timeline, events: seq<Event>): Timeline
    decreases |events|
  {
    if events == [] then t else Fold(Apply(t, events[0]), events[1..])
  }

  predicate Finished(t: Timeline) {
    t.outcome.terminal.Some?
  }
}
