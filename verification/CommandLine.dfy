/**
  Rewriting the command line before its grammar is applied: root options in front of the area are
  taken out and put behind the selected command, and name-first Extension calls get their action.
 */
module CommandLine {
  import opened Wrappers

  /** The command tree: a group of further commands, or a command with arguments of its own. */
  datatype Command = Leaf | Group(choices: map<string, Command>)

  datatype Error = NoValue(option: string) | BadOutput(value: string) | LifecycleFlag(flag: string)

  /** What the root options said: the presentation, and the target options as they were written. */
  datatype Root = Root(output: Option<string>, target: seq<string>)

  const ROOT_OPTIONS := {"--output", "--host", "--port", "--url", "--data-dir"}
  const ACTIONS := {"list", "reload", "enable", "disable", "show", "set", "operations", "run"}
  const LIFECYCLE_FLAGS := {"--server", "--restart", "--start", "--stop"}
  const HELP_FLAGS := {"--help", "-h"}

  const AREA_ALIASES: map<string, string> := map[
    "agents" := "agent",
    "projects" := "project",
    "sessions" := "session",
    "archives" := "archive",
    "channels" := "channel",
    "tools" := "tool",
    "prompts" := "prompt",
    "logs" := "log",
    "providers" := "provider",
    "models" := "model",
    "skills" := "skill",
    "task-models" := "task-model",
    "extension" := "extensions",
    "device" := "devices",
    "perf" := "performance",
    "agent-secret" := "agent-secrets"
  ]

  // ---------------------------------------------------------------- root options

  /** The part of a token before its first `=`. */
  function OptionName(token: string): string {
    if token == "" || token[0] == '=' then "" else [token[0]] + OptionName(token[1..])
  }

  predicate HasValue(token: string) {
    '=' in token
  }

  function ValueOf(token: string): string
    requires HasValue(token)
  {
    if token[0] == '=' then token[1..] else ValueOf(token[1..])
  }

  predicate IsRootOption(token: string) {
    OptionName(token) in ROOT_OPTIONS
  }

  predicate IsOutput(token: string) {
    OptionName(token) == "--output"
  }

  /** How many tokens an option takes with its value. */
  function Width(token: string): nat {
    if HasValue(token) then 1 else 2
  }

  function ValueAt(tokens: seq<string>): string
    requires tokens != [] && |tokens| >= Width(tokens[0])
  {
    if HasValue(tokens[0]) then ValueOf(tokens[0]) else tokens[1]
  }

  predicate GoodOutput(value: string) {
    value in {"auto", "human", "plain"}
  }

  /** The options taken from the front of `tokens` after those in `root`, and the tokens left. */
  function Take(root: Root, tokens: seq<string>): Result<(Root, seq<string>), Error>
    decreases |tokens|
  {
    if tokens == [] || !IsRootOption(tokens[0]) then Ok((root, tokens))
    else if |tokens| < Width(tokens[0]) then Err(NoValue(OptionName(tokens[0])))
    else
      var width := Width(tokens[0]);
      if !IsOutput(tokens[0]) then Take(root.(target := root.target + tokens[..width]), tokens[width..])
      else if GoodOutput(ValueAt(tokens)) then Take(root.(output := Some(ValueAt(tokens))), tokens[width..])
      else Err(BadOutput(ValueAt(tokens)))
  }

  // ---------------------------------------------------------------- Extension calls

  /** The next token from `i` that is neither an option nor an option's value. */
  function NextPositional(tokens: seq<string>, i: nat): (r: Option<nat>)
    ensures r.Some? ==> i <= r.value < |tokens|
    decreases |tokens| - i
  {
    if i >= |tokens| then None
    else if IsRootOption(tokens[i]) then NextPositional(tokens, i + Width(tokens[i]))
    else if "-" <= tokens[i] then None
    else Some(i)
  }

  predicate IsAction(token: string) {
    token in ACTIONS
  }

  function ActionFor(operation: string): string {
    if operation in {"set", "operations"} then operation else "run"
  }

  /** The call with the action its operation at `j` asks for behind the area; `run` keeps the operation. */
  function WithAction(tokens: seq<string>, j: nat): seq<string>
    requires 1 <= j < |tokens|
  {
    var action := ActionFor(tokens[j]);
    if action == "run" then tokens[..1] + ["run"] + tokens[1..]
    else tokens[..1] + [action] + tokens[1..j] + tokens[j + 1..]
  }

  /** A name-first call gets its action behind the area: `show`, `set`, `operations` or `run`. */
  function Normalized(tokens: seq<string>): seq<string> {
    if tokens == [] || tokens[0] != "extensions" then tokens
    else
      var name := NextPositional(tokens, 1);
      if name.None? || IsAction(tokens[name.value]) then tokens
      else
        var operation := NextPositional(tokens, name.value + 1);
        if operation.None? then tokens[..1] + ["show"] + tokens[1..] else WithAction(tokens, operation.value)
  }

  // ---------------------------------------------------------------- the selected command

  /** The command the tokens from `i` on lead to inside `command`, and where its own arguments start. */
  function Select(command: Command, tokens: seq<string>, i: nat): (r: (Command, nat))
    requires i <= |tokens|
    ensures i <= r.1 <= |tokens|
    decreases |tokens| - i
  {
    if i == |tokens| || command.Leaf? then (command, i)
    else if tokens[i] in command.choices then Select(command.choices[tokens[i]], tokens, i + 1)
    else if tokens[i] == "--output" && i + 1 < |tokens| then Select(command, tokens, i + 2)
    else if "--output=" <= tokens[i] then Select(command, tokens, i + 1)
    else (command, i)
  }

  function Aliased(tokens: seq<string>): seq<string> {
    if tokens != [] && tokens[0] in AREA_ALIASES then tokens[0 := AREA_ALIASES[tokens[0]]] else tokens
  }

  /** `help path…` asks for `path… --help`. */
  function HelpLast(tokens: seq<string>): seq<string> {
    if tokens != [] && tokens[0] == "help" then tokens[1..] + ["--help"] else tokens
  }

  predicate StartsLifecycle(tokens: seq<string>) {
    tokens != [] && tokens[0] in LIFECYCLE_FLAGS
  }

  function InsertAt(tokens: seq<string>, i: nat, more: seq<string>): seq<string>
    requires i <= |tokens|
  {
    tokens[..i] + more + tokens[i..]
  }

  /** The tokens with the root target behind the selected command, and behind a help flag next to it. */
  function Placed(tree: Command, tokens: seq<string>, target: seq<string>): seq<string> {
    var (selected, end) := Select(tree, tokens, 0);
    var shown := if end == |tokens| && selected.Group? then tokens + ["--help"] else tokens;
    if end < |shown| && shown[end] in HELP_FLAGS then InsertAt(shown, end + 1, target) else InsertAt(shown, end, target)
  }

  function Arranged(tree: Command, tokens: seq<string>, target: seq<string>): Result<seq<string>, Error> {
    var call := Normalized(Aliased(tokens));
    if StartsLifecycle(call) then Err(LifecycleFlag(call[0])) else Ok(Placed(tree, call, target))
  }

  /** The tokens the grammar gets for a command line, and the presentation it asked for in front. */
  function Rewritten(tree: Command, argv: seq<string>): Result<(Option<string>, seq<string>), Error> {
    var taken := Take(Root(None, []), argv);
    if taken.Err? then Err(taken.error)
    else
      var (root, rest) := taken.value;
      var arranged := Arranged(tree, HelpLast(rest), root.target);
      if arranged.Err? then Err(arranged.error) else Ok((root.output, arranged.value))
  }

  // ---------------------------------------------------------------- the rewriting in place

  lemma DeleteInsert(tokens: seq<string>, i: nat, action: string)
    requires 1 <= i < |tokens|
    ensures var rest := tokens[..i] + tokens[i + 1..];
            rest[..1] + [action] + rest[1..] == tokens[..1] + [action] + tokens[1..i] + tokens[i + 1..]
  {
  }

  class TokenList {
    var tokens: seq<string>

    constructor (argv: seq<string>)
      ensures tokens == argv
    {
      tokens := argv;
    }

    method TakeRootOptions() returns (r: Result<Root, Error>)
      modifies this
      ensures r.Err? <==> Take(Root(None, []), old(tokens)).Err?
      ensures r.Err? ==> r.error == Take(Root(None, []), old(tokens)).error
      ensures r.Ok? ==> Take(Root(None, []), old(tokens)) == Ok((r.value, tokens))
    {
      var output: Option<string>, target: seq<string> := None, [];
      while tokens != []
        invariant Take(Root(output, target), tokens) == Take(Root(None, []), old(tokens))
        decreases |tokens|
      {
        hide IsRootOption, OptionName, ValueOf, IsOutput, GoodOutput;
        ghost var before := tokens;
        var option := tokens[0];
        if !IsRootOption(option) { break; }
        tokens := tokens[1..];
        var value;
        if HasValue(option) {
          value := ValueOf(option);
        } else {
          if tokens == [] { return Err(NoValue(OptionName(option))); }
          value := tokens[0];
          tokens := tokens[1..];
        }
        if IsOutput(option) {
          if !GoodOutput(value) { return Err(BadOutput(value)); }
          output := Some(value);
        } else {
          target := target + if HasValue(option) then [option] else [option, value];
        }
        assert tokens == before[Width(option)..];
        assert before[..Width(option)] == if HasValue(option) then [option] else [option, value];
      }
      r := Ok(Root(output, target));
    }

    /** Where the first two tokens behind the area stand that are neither options nor their values. */
    method FindPositionals() returns (positionals: seq<nat>)
      ensures |positionals| <= 2
      ensures positionals == [] <==> NextPositional(tokens, 1).None?
      ensures positionals != [] ==> NextPositional(tokens, 1) == Some(positionals[0])
      ensures |positionals| == 1 ==> NextPositional(tokens, positionals[0] + 1).None?
      ensures |positionals| == 2 ==> NextPositional(tokens, positionals[0] + 1) == Some(positionals[1])
    {
      positionals := [];
      var index := 1;
      while index < |tokens|
        invariant 1 <= index && |positionals| < 2
        invariant positionals == [] ==> NextPositional(tokens, index) == NextPositional(tokens, 1)
        invariant |positionals| == 1 ==>
          && NextPositional(tokens, 1) == Some(positionals[0])
          && NextPositional(tokens, index) == NextPositional(tokens, positionals[0] + 1)
        decreases |tokens| - index
      {
        hide IsRootOption;
        var token := tokens[index];
        if IsRootOption(token) {
          index := index + Width(token);
          continue;
        }
        if "-" <= token { break; }
        positionals := positionals + [index];
        if |positionals| == 2 { break; }
        index := index + 1;
      }
    }

    method NormalizeExtensionOperation()
      modifies this
      ensures tokens == Normalized(old(tokens))
    {
      hide NextPositional, ActionFor, IsAction;
      if tokens == [] || tokens[0] != "extensions" { return; }
      var positionals := FindPositionals();
      if positionals == [] || IsAction(tokens[positionals[0]]) { return; }
      var action := "show";
      if |positionals| == 2 {
        var operation := positionals[1];
        action := ActionFor(tokens[operation]);
        if action != "run" {
          assert operation > 1;
          DeleteInsert(tokens, operation, action);
          tokens := tokens[..operation] + tokens[operation + 1..];
        }
      }
      tokens := tokens[..1] + [action] + tokens[1..];
    }

    method SelectCommand(tree: Command) returns (selected: Command, index: nat)
      ensures (selected, index) == Select(tree, tokens, 0) && index <= |tokens|
    {
      selected, index := tree, 0;
      while index < |tokens|
        invariant 0 <= index <= |tokens| && Select(selected, tokens, index) == Select(tree, tokens, 0)
        decreases |tokens| - index
      {
        if selected.Leaf? { break; }
        var token := tokens[index];
        if token in selected.choices {
          selected, index := selected.choices[token], index + 1;
        } else if token == "--output" && index + 1 < |tokens| {
          index := index + 2;
        } else if "--output=" <= token {
          index := index + 1;
        } else {
          break;
        }
      }
    }

    method Place(tree: Command, target: seq<string>)
      modifies this
      ensures tokens == Placed(tree, old(tokens), target)
    {
      hide Select;
      var selected, end := SelectCommand(tree);
      if end == |tokens| && selected.Group? {
        tokens := tokens + ["--help"];
      }
      if end < |tokens| && tokens[end] in HELP_FLAGS {
        end := end + 1;
      }
      tokens := tokens[..end] + target + tokens[end..];
    }

    /** The whole rewriting of one command line. */
    method Rewrite(tree: Command) returns (r: Result<Option<string>, Error>)
      modifies this
      ensures r.Err? <==> Rewritten(tree, old(tokens)).Err?
      ensures r.Err? ==> r.error == Rewritten(tree, old(tokens)).error
      ensures r.Ok? ==> Rewritten(tree, old(tokens)) == Ok((r.value, tokens))
    {
      hide Take, Normalized, Placed;
      var root := TakeRootOptions();
      if root.Err? { return Err(root.error); }
      if tokens != [] && tokens[0] == "help" {
        tokens := tokens[1..] + ["--help"];
      }
      if tokens != [] && tokens[0] in AREA_ALIASES {
        tokens := tokens[0 := AREA_ALIASES[tokens[0]]];
      }
      NormalizeExtensionOperation();
      if StartsLifecycle(tokens) { return Err(LifecycleFlag(tokens[0])); }
      Place(tree, root.value.target);
      r := Ok(root.value.output);
    }
  }
}
