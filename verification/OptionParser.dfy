/**
  The arguments of an Extension operation on the command line: `--key value` pairs, at most one
  leading positional value, an optional JSON object from standard input, and named documents.
 */
module OptionParser {
  import opened Wrappers
  import opened Json

  /** The argument of a document names the file that holds it; the name is a text unless the schema says otherwise. */
  datatype Kind = Text | Document(text: bool) | Data

  datatype Property = Property(name: string, kind: Kind, choices: Option<seq<Value>>)

  /** `properties` in the order the operation declares them, no name twice. */
  datatype Operation = Operation(secret: bool, properties: seq<Property>)

  datatype Error =
    | BadInput
    | NotAnObject
    | NeedsStdin
    | NoPositional
    | UnknownArgument(token: string)
    | Duplicate(key: string)
    | MissingValue(key: string)
    | NotJson(key: string)
    | InvalidChoice(key: string)
    | InputTaken(key: string)
    | Unreadable(key: string)
    | NotAName(key: string)

  type Arguments = map<string, Value>

  const STDIN_FLAG := "--stdin"

  // ---------------------------------------------------------------- single arguments

  function Find(properties: seq<Property>, key: string): (r: Option<Property>)
    ensures r.Some? ==> r.value in properties && r.value.name == key
  {
    if properties == [] then None
    else if properties[0].name == key then Some(properties[0])
    else Find(properties[1..], key)
  }

  predicate Declares(op: Operation, key: string) {
    Find(op.properties, key).Some?
  }

  function Under(s: string): string {
    if s == "" then "" else [if s[0] == '-' then '_' else s[0]] + Under(s[1..])
  }

  function Dash(s: string): string {
    if s == "" then "" else [if s[0] == '_' then '-' else s[0]] + Dash(s[1..])
  }

  predicate IsFlag(token: string) {
    "--" <= token
  }

  /** The property a `--some-key` token names. */
  function KeyOf(token: string): string {
    Under(if IsFlag(token) then token[2..] else token)
  }

  function FirstDocument(properties: seq<Property>): Option<string> {
    if properties == [] then None
    else if properties[0].kind.Document? then Some(properties[0].name)
    else FirstDocument(properties[1..])
  }

  function Positional(op: Operation): Option<string> {
    if Declares(op, "id") then Some("id")
    else if Declares(op, "request_id") then Some("request_id")
    else if Declares(op, "job_id") then Some("job_id")
    else FirstDocument(op.properties)
  }

  predicate TakesText(p: Property) {
    || p.kind.Text? || (p.kind.Document? && p.kind.text)
    || (p.choices.Some? && p.choices.value != [] && forall c <- p.choices.value :: c.Str?)
  }

  /** What Python's equality compares: `True` equals 1, `False` equals 0, and the order of keys is no matter. */
  function Loose(v: Value): Value
    decreases v, 0
  {
    match v
    case Bool(b) => Int(if b then 1 else 0)
    case Arr(items) => Arr(seq(|items|, i requires 0 <= i < |items| => Loose(items[i])))
    case Obj(members) => Obj(LooseMembers(members))
    case _ => v
  }

  /** The members in key order, whatever order they were written in. */
  function LooseMembers(members: seq<Member>): seq<Member>
    decreases members, 1
  {
    if members == [] then []
    else SetFirst(LooseMembers(members[1..]), Member(members[0].key, Loose(members[0].value)))
  }

  predicate Offered(p: Property, v: Value) {
    p.choices.Some? ==> exists i :: 0 <= i < |p.choices.value| && Loose(p.choices.value[i]) == Loose(v)
  }

  function ReadRaw(p: Property, raw: string): Result<Value, Error> {
    var value := if TakesText(p) then Some(Str(raw)) else Loads(raw);
    if value.None? then Err(NotJson(p.name))
    else if Offered(p, value.value) then Ok(value.value)
    else Err(InvalidChoice(p.name))
  }

  // ---------------------------------------------------------------- the specification

  /** The pairs after the positional value, taken from the front. */
  function ReadPairs(op: Operation, args: Arguments, tokens: seq<string>): Result<Arguments, Error>
    decreases |tokens|
  {
    if tokens == [] then Ok(args)
    else
      var key := KeyOf(tokens[0]);
      if !IsFlag(tokens[0]) || !Declares(op, key) then Err(UnknownArgument(tokens[0]))
      else if key in args then Err(Duplicate(key))
      else if |tokens| == 1 then Err(MissingValue(key))
      else
        var value := ReadRaw(Find(op.properties, key).value, tokens[1]);
        if value.Err? then Err(value.error)
        else ReadPairs(op, args[key := value.value], tokens[2..])
  }

  function ReadNamed(op: Operation, given: Arguments, tokens: seq<string>): Result<Arguments, Error> {
    if tokens != [] && !IsFlag(tokens[0]) then
      var key := Positional(op);
      if key.None? || key.value in given then Err(NoPositional)
      else ReadPairs(op, given[key.value := Str(tokens[0])], tokens[1..])
    else ReadPairs(op, given, tokens)
  }

  /** Standard input: the text not read yet, or None when it is not UTF-8. */
  type Input = Option<string>

  datatype Outcome = Outcome(result: Result<Arguments, Error>, unread: Input)

  /** What runs of one parse share: readable files by name, and whether `--stdin` took standard input. */
  datatype Source = Source(files: map<string, string>, stdinUsed: bool)

  function DropMarks(s: string): string {
    if s != "" && s[0] == '\U{feff}' then DropMarks(s[1..]) else s
  }

  function ReadDocument(source: Source, key: string, name: Value, input: Input): (Result<string, Error>, Input) {
    if name == Str("-") then
      if source.stdinUsed then (Err(InputTaken(key)), input)
      else if input.None? then (Err(BadInput), input)
      else (Ok(DropMarks(input.value)), Some(""))
    else if !name.Str? then (Err(NotAName(key)), input)
    else if name.s in source.files then (Ok(source.files[name.s]), input)
    else (Err(Unreadable(key)), input)
  }

  function ReadDocuments(
      source: Source, properties: seq<Property>, named: set<string>, args: Arguments, input: Input): Outcome
    requires named <= args.Keys
    decreases |properties|
  {
    if properties == [] then Outcome(Ok(args), input)
    else
      var p := properties[0];
      if p.kind.Document? && p.name in named then
        var (text, after) := ReadDocument(source, p.name, args[p.name], input);
        if text.Err? then Outcome(Err(text.error), after)
        else ReadDocuments(source, properties[1..], named, args[p.name := Str(text.value)], after)
      else ReadDocuments(source, properties[1..], named, args, input)
  }

  function Fields(members: seq<Member>): Arguments {
    if members == [] then map[] else Fields(members[1..])[members[0].key := members[0].value]
  }

  function GivenArguments(input: Input): Result<Arguments, Error> {
    if input.None? then Err(BadInput)
    else
      var value := Loads(DropMarks(input.value));
      if value.None? then Err(BadInput)
      else if value.value.Obj? then Ok(Fields(value.value.members))
      else Err(NotAnObject)
  }

  function IndexOf(tokens: seq<string>, token: string): (i: nat)
    requires token in tokens
    ensures i < |tokens| && tokens[i] == token && token !in tokens[..i]
  {
    if tokens[0] == token then 0 else 1 + IndexOf(tokens[1..], token)
  }

  /** `list.remove` */
  function WithoutFirst(tokens: seq<string>, token: string): seq<string>
    requires token in tokens
  {
    var i := IndexOf(tokens, token);
    tokens[..i] + tokens[i + 1..]
  }

  function Finish(
      op: Operation, given: Arguments, read: Result<Arguments, Error>, source: Source, input: Input): Outcome
  {
    match read
    case Err(error) => Outcome(read, input)
    case Ok(args) => ReadDocuments(source, op.properties, args.Keys - given.Keys, args, input)
  }

  function Parse(op: Operation, tokens: seq<string>, files: map<string, string>, input: Input): Outcome {
    if STDIN_FLAG in tokens then
      var given := GivenArguments(input);
      var left := if input.None? then input else Some("");
      if given.Err? then Outcome(Err(given.error), left)
      else
        var read := ReadNamed(op, given.value, WithoutFirst(tokens, STDIN_FLAG));
        Finish(op, given.value, read, Source(files, true), left)
    else if op.secret then Outcome(Err(NeedsStdin), input)
    else Finish(op, map[], ReadNamed(op, map[], tokens), Source(files, false), input)
  }

  // ---------------------------------------------------------------- the parser

  class StandardInput {
    var unread: Input

    constructor (text: Input)
      ensures unread == text
    {
      unread := text;
    }

    /** All the text left, without leading byte order marks. */
    method Read() returns (r: Option<string>)
      modifies this
      ensures old(unread).None? ==> r == None && unread == None
      ensures old(unread).Some? ==> r == Some(DropMarks(old(unread).value)) && unread == Some("")
    {
      if unread.None? { return None; }
      r := Some(DropMarks(unread.value));
      unread := Some("");
    }
  }

  method TakePairs(op: Operation, given: Arguments, tokens: seq<string>) returns (r: Result<Arguments, Error>)
    ensures r == ReadPairs(op, given, tokens)
  {
    var arguments, remaining := given, tokens;
    while remaining != []
      invariant ReadPairs(op, arguments, remaining) == ReadPairs(op, given, tokens)
      decreases |remaining|
    {
      hide Find, KeyOf, ReadRaw;
      var token := remaining[0];
      remaining := remaining[1..];
      var key := KeyOf(token);
      if !IsFlag(token) || !Declares(op, key) { return Err(UnknownArgument(token)); }
      if key in arguments { return Err(Duplicate(key)); }
      if remaining == [] { return Err(MissingValue(key)); }
      var value := ReadRaw(Find(op.properties, key).value, remaining[0]);
      remaining := remaining[1..];
      if value.Err? { return Err(value.error); }
      arguments := arguments[key := value.value];
    }
    r := Ok(arguments);
  }

  method TakeDocument(source: Source, key: string, name: Value, stdin: StandardInput) returns (r: Result<string, Error>)
    modifies stdin
    ensures (r, stdin.unread) == ReadDocument(source, key, name, old(stdin.unread))
  {
    if name == Str("-") {
      if source.stdinUsed { return Err(InputTaken(key)); }
      var text := stdin.Read();
      return if text.None? then Err(BadInput) else Ok(text.value);
    }
    if !name.Str? { return Err(NotAName(key)); }
    if name.s in source.files { return Ok(source.files[name.s]); }
    return Err(Unreadable(key));
  }

  method TakeDocuments(op: Operation, source: Source, named: set<string>, args: Arguments, stdin: StandardInput)
    returns (r: Result<Arguments, Error>)
    requires named <= args.Keys
    modifies stdin
    ensures Outcome(r, stdin.unread) == ReadDocuments(source, op.properties, named, args, old(stdin.unread))
  {
    var arguments := args;
    ghost var start := stdin.unread;
    var i := 0;
    while i < |op.properties|
      invariant 0 <= i <= |op.properties| && named <= arguments.Keys
      invariant ReadDocuments(source, op.properties[i..], named, arguments, stdin.unread)
             == ReadDocuments(source, op.properties, named, args, start)
    {
      var p := op.properties[i];
      if p.kind.Document? && p.name in named {
        var text := TakeDocument(source, p.name, arguments[p.name], stdin);
        if text.Err? { return Err(text.error); }
        arguments := arguments[p.name := Str(text.value)];
      }
      i := i + 1;
    }
    r := Ok(arguments);
  }

  /** The arguments of one call: `--stdin` first, then a positional value, the pairs and the documents. */
  method OperationArguments(op: Operation, tokens: seq<string>, files: map<string, string>, stdin: StandardInput)
    returns (r: Result<Arguments, Error>)
    modifies stdin
    ensures Outcome(r, stdin.unread) == Parse(op, tokens, files, old(stdin.unread))
  {
    hide ReadPairs, ReadDocuments, IndexOf, Loads, Fields, DropMarks, Positional;
    var given: Arguments, remaining := map[], tokens;
    var stdinUsed := STDIN_FLAG in tokens;
    if stdinUsed {
      remaining := WithoutFirst(tokens, STDIN_FLAG);
      var text := stdin.Read();
      if text.None? { return Err(BadInput); }
      var value := Loads(text.value);
      if value.None? { return Err(BadInput); }
      if !value.value.Obj? { return Err(NotAnObject); }
      given := Fields(value.value.members);
    } else if op.secret {
      return Err(NeedsStdin);
    }
    var arguments := given;
    if remaining != [] && !IsFlag(remaining[0]) {
      var positional := Positional(op);
      if positional.None? || positional.value in arguments { return Err(NoPositional); }
      arguments := arguments[positional.value := Str(remaining[0])];
      remaining := remaining[1..];
    }
    var read := TakePairs(op, arguments, remaining);
    if read.Err? { return read; }
    r := TakeDocuments(op, Source(files, stdinUsed), read.value.Keys - given.Keys, read.value, stdin);
  }
}
