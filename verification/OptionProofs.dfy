/** Which calls the operation parser accepts, what it sets, and that rendered arguments parse back. */
module OptionProofs {
  import opened Wrappers
  import opened Json
  import JsonProofs
  import opened OptionParser

  // ---------------------------------------------------------------- accepted calls

  function KeyAt(pairs: seq<string>, i: nat): string
    requires 2 * i < |pairs|
  {
    KeyOf(pairs[2 * i])
  }

  /** The value the i-th pair sets, or the reason why it is refused. */
  function ValueAt(op: Operation, pairs: seq<string>, i: nat): Result<Value, Error>
    requires 2 * i + 1 < |pairs| && Declares(op, KeyAt(pairs, i))
  {
    ReadRaw(Find(op.properties, KeyAt(pairs, i)).value, pairs[2 * i + 1])
  }

  predicate GoodPair(op: Operation, given: Arguments, pairs: seq<string>, i: nat)
    requires 2 * i + 1 < |pairs|
  {
    && IsFlag(pairs[2 * i])
    && Declares(op, KeyAt(pairs, i))
    && KeyAt(pairs, i) !in given
    && ValueAt(op, pairs, i).Ok?
  }

  ghost predicate GoodPairs(op: Operation, given: Arguments, pairs: seq<string>) {
    && |pairs| % 2 == 0
    && (forall i :: 0 <= i < |pairs| / 2 ==> GoodPair(op, given, pairs, i))
    && (forall i, j :: 0 <= i < j < |pairs| / 2 ==> KeyAt(pairs, i) != KeyAt(pairs, j))
  }

  /** `result` holds what was given, what the pairs set, and nothing else. */
  ghost predicate SetBy(op: Operation, given: Arguments, pairs: seq<string>, result: Arguments)
    requires GoodPairs(op, given, pairs)
  {
    && (forall k :: k in given ==> k in result && result[k] == given[k])
    && (forall i :: 0 <= i < |pairs| / 2 ==>
          GoodPair(op, given, pairs, i) && KeyAt(pairs, i) in result
          && result[KeyAt(pairs, i)] == ValueAt(op, pairs, i).value)
    && (forall k :: k in result ==> k in given || exists i :: 0 <= i < |pairs| / 2 && KeyAt(pairs, i) == k)
  }

  lemma Shifted(op: Operation, given: Arguments, pairs: seq<string>, i: nat)
    requires 2 * i + 3 < |pairs|
    ensures KeyAt(pairs[2..], i) == KeyAt(pairs, i + 1)
    ensures GoodPair(op, given, pairs[2..], i) <==> GoodPair(op, given, pairs, i + 1)
    ensures GoodPair(op, given, pairs, i + 1) ==> ValueAt(op, pairs[2..], i) == ValueAt(op, pairs, i + 1)
  {
  }

  lemma GoodPairsTail(op: Operation, given: Arguments, pairs: seq<string>, value: Value)
    requires |pairs| >= 2 && GoodPair(op, given, pairs, 0)
    ensures GoodPairs(op, given, pairs) <==> GoodPairs(op, given[KeyAt(pairs, 0) := value], pairs[2..])
  {
    hide KeyAt, ValueAt;
    var more := given[KeyAt(pairs, 0) := value];
    var tail := pairs[2..];
    if GoodPairs(op, given, pairs) {
      forall i | 0 <= i < |tail| / 2 ensures GoodPair(op, more, tail, i) {
        Shifted(op, given, pairs, i);
        assert GoodPair(op, given, pairs, i + 1) && KeyAt(pairs, 0) != KeyAt(pairs, i + 1);
      }
      forall i, j | 0 <= i < j < |tail| / 2 ensures KeyAt(tail, i) != KeyAt(tail, j) {
        Shifted(op, given, pairs, i);
        Shifted(op, given, pairs, j);
      }
    }
    if GoodPairs(op, more, tail) {
      forall i | 0 <= i < |pairs| / 2
        ensures GoodPair(op, given, pairs, i) && (i > 0 ==> KeyAt(pairs, i) !in more)
      {
        if i > 0 {
          Shifted(op, given, pairs, i - 1);
          assert GoodPair(op, more, tail, i - 1);
        }
      }
      forall i, j | 0 <= i < j < |pairs| / 2 ensures KeyAt(pairs, i) != KeyAt(pairs, j) {
        if i > 0 {
          Shifted(op, given, pairs, i - 1);
          Shifted(op, given, pairs, j - 1);
          assert KeyAt(tail, i - 1) != KeyAt(tail, j - 1);
        }
      }
    }
  }

  lemma SetByTail(op: Operation, given: Arguments, pairs: seq<string>, result: Arguments)
    requires |pairs| >= 2 && GoodPairs(op, given, pairs) && GoodPair(op, given, pairs, 0)
    requires var more := given[KeyAt(pairs, 0) := ValueAt(op, pairs, 0).value];
             GoodPairs(op, more, pairs[2..]) && SetBy(op, more, pairs[2..], result)
    ensures SetBy(op, given, pairs, result)
  {
    hide KeyAt, ValueAt, GoodPairs;
    var more := given[KeyAt(pairs, 0) := ValueAt(op, pairs, 0).value];
    var tail := pairs[2..];
    forall i | 0 <= i < |pairs| / 2
      ensures GoodPair(op, given, pairs, i) && KeyAt(pairs, i) in result
              && result[KeyAt(pairs, i)] == ValueAt(op, pairs, i).value
    {
      if i > 0 {
        Shifted(op, given, pairs, i - 1);
        Shifted(op, more, pairs, i - 1);
        assert GoodPair(op, more, tail, i - 1);
      } else {
        assert KeyAt(pairs, 0) in more;
      }
    }
    forall k | k in result && k !in given ensures exists i :: 0 <= i < |pairs| / 2 && KeyAt(pairs, i) == k {
      if k != KeyAt(pairs, 0) {
        var i :| 0 <= i < |tail| / 2 && KeyAt(tail, i) == k;
        Shifted(op, given, pairs, i);
        assert KeyAt(pairs, i + 1) == k;
      }
    }
  }

  /** The pairs are accepted exactly when all tokens are well-formed pairs of new, distinct properties. */
  lemma {:induction false} PairsAccepted(op: Operation, given: Arguments, pairs: seq<string>)
    ensures ReadPairs(op, given, pairs).Ok? <==> GoodPairs(op, given, pairs)
    ensures GoodPairs(op, given, pairs) ==> SetBy(op, given, pairs, ReadPairs(op, given, pairs).value)
    decreases |pairs|
  {
    hide Find, KeyOf, ReadRaw;
    if pairs != [] {
      hide GoodPairs, SetBy;
      if |pairs| >= 2 && GoodPair(op, given, pairs, 0) {
        var value := ValueAt(op, pairs, 0).value;
        var more := given[KeyAt(pairs, 0) := value];
        PairsAccepted(op, more, pairs[2..]);
        GoodPairsTail(op, given, pairs, value);
        if GoodPairs(op, given, pairs) {
          SetByTail(op, given, pairs, ReadPairs(op, more, pairs[2..]).value);
        }
      } else {
        FirstPairGood(op, given, pairs);
      }
    }
  }

  lemma FirstPairGood(op: Operation, given: Arguments, pairs: seq<string>)
    requires pairs != []
    ensures GoodPairs(op, given, pairs) ==> |pairs| >= 2 && GoodPair(op, given, pairs, 0)
  {
  }

  /** What is left for the pairs after `--stdin` and a positional value are taken. */
  function PairTokens(tokens: seq<string>): seq<string> {
    var remaining := if STDIN_FLAG in tokens then WithoutFirst(tokens, STDIN_FLAG) else tokens;
    if remaining != [] && !IsFlag(remaining[0]) then remaining[1..] else remaining
  }

  /** The arguments before the first pair: those of standard input, and the positional one. */
  function Before(op: Operation, tokens: seq<string>, input: Input): Result<Arguments, Error> {
    var given := if STDIN_FLAG in tokens then GivenArguments(input) else Ok(map[]);
    var remaining := if STDIN_FLAG in tokens then WithoutFirst(tokens, STDIN_FLAG) else tokens;
    if given.Err? || remaining == [] || IsFlag(remaining[0]) then given
    else if Positional(op).None? || Positional(op).value in given.value then Err(NoPositional)
    else Ok(given.value[Positional(op).value := Str(remaining[0])])
  }

  lemma {:induction false} DocumentsKeepKeys(
      source: Source, properties: seq<Property>, named: set<string>, args: Arguments, input: Input)
    requires named <= args.Keys
    ensures var r := ReadDocuments(source, properties, named, args, input).result;
            r.Ok? ==> r.value.Keys == args.Keys
                      && forall k <- args ::
                           || r.value[k] == args[k]
                           || (k in named && exists p <- properties :: p.kind.Document? && p.name == k)
    decreases |properties|
  {
    if properties != [] {
      var p := properties[0];
      if p.kind.Document? && p.name in named {
        var (text, after) := ReadDocument(source, p.name, args[p.name], input);
        if text.Ok? {
          DocumentsKeepKeys(source, properties[1..], named, args[p.name := Str(text.value)], after);
        }
      } else {
        DocumentsKeepKeys(source, properties[1..], named, args, input);
      }
    }
  }

  function Given(tokens: seq<string>, input: Input): Result<Arguments, Error> {
    if STDIN_FLAG in tokens then GivenArguments(input) else Ok(map[])
  }

  /** The tokens are in order: all of them are used, nothing is set twice, and only what is declared. */
  ghost predicate InOrder(op: Operation, tokens: seq<string>, input: Input) {
    && (op.secret ==> STDIN_FLAG in tokens)
    && Before(op, tokens, input).Ok?
    && GoodPairs(op, Before(op, tokens, input).value, PairTokens(tokens))
  }

  /**
    A call whose tokens are not in order is refused. One whose tokens are in order sets what the
    tokens before the pairs set, what each pair sets and nothing else, with named documents then read.
   */
  lemma AcceptedCall(op: Operation, tokens: seq<string>, files: map<string, string>, input: Input)
    returns (read: Arguments)
    ensures !InOrder(op, tokens, input) ==> Parse(op, tokens, files, input).result.Err?
    ensures InOrder(op, tokens, input) ==>
              && Given(tokens, input).Ok?
              && SetBy(op, Before(op, tokens, input).value, PairTokens(tokens), read)
              && Parse(op, tokens, files, input)
                 == ReadDocuments(Source(files, STDIN_FLAG in tokens), op.properties,
                                  read.Keys - Given(tokens, input).value.Keys, read,
                                  if STDIN_FLAG in tokens then Some("") else input)
  {
    hide ReadPairs, ReadDocuments, GoodPairs, SetBy, IndexOf, Loads, Fields, DropMarks, Positional;
    read := map[];
    if Before(op, tokens, input).Ok? {
      PairsAccepted(op, Before(op, tokens, input).value, PairTokens(tokens));
      if InOrder(op, tokens, input) {
        read := ReadPairs(op, Before(op, tokens, input).value, PairTokens(tokens)).value;
      }
    }
  }

  lemma SetKept(op: Operation, given: Arguments, pairs: seq<string>, read: Arguments, key: string)
    requires GoodPairs(op, given, pairs) && SetBy(op, given, pairs, read)
    ensures key in given ==> key in read && read[key] == given[key]
    ensures key in read ==> key in given || Declares(op, key)
  {
    hide KeyAt, ValueAt, Find;
  }

  lemma BeforeGiven(op: Operation, tokens: seq<string>, input: Input, key: string)
    requires Before(op, tokens, input).Ok?
    ensures Given(tokens, input).Ok?
    ensures var given, before := Given(tokens, input).value, Before(op, tokens, input).value;
            && (key in given ==> key in before && before[key] == given[key])
            && (key in before ==> key in given || Declares(op, key))
  {
    PositionalDeclared(op);
    hide Positional, GivenArguments, IndexOf, Find;
  }

  /** What standard input gave is never overwritten, and everything else that is set is declared. */
  lemma OnlyDeclaredSet(op: Operation, tokens: seq<string>, files: map<string, string>, input: Input, key: string)
    requires Parse(op, tokens, files, input).result.Ok?
    ensures var args := Parse(op, tokens, files, input).result.value;
            && Given(tokens, input).Ok?
            && (key in Given(tokens, input).value ==> key in args && args[key] == Given(tokens, input).value[key])
            && (key in args ==> key in Given(tokens, input).value || Declares(op, key))
  {
    hide ReadPairs, ReadDocuments, Parse, SetBy, GoodPairs, Before, Given, PairTokens, Declares;
    var read := AcceptedCall(op, tokens, files, input);
    var given := Given(tokens, input).value;
    BeforeGiven(op, tokens, input, key);
    SetKept(op, Before(op, tokens, input).value, PairTokens(tokens), read, key);
    DocumentsKeepKeys(Source(files, STDIN_FLAG in tokens), op.properties, read.Keys - given.Keys, read,
                      if STDIN_FLAG in tokens then Some("") else input);
  }

  lemma PositionalDeclared(op: Operation)
    ensures Positional(op).Some? ==> Declares(op, Positional(op).value)
  {
    FirstDocumentDeclared(op.properties);
  }

  lemma {:induction false} FirstDocumentDeclared(properties: seq<Property>)
    ensures FirstDocument(properties).Some? ==> Find(properties, FirstDocument(properties).value).Some?
  {
    if properties != [] {
      FirstDocumentDeclared(properties[1..]);
    }
  }

  // ---------------------------------------------------------------- rendering and parsing back

  predicate UnderscoreNamed(key: string) {
    forall i :: 0 <= i < |key| ==> key[i] != '-'
  }

  ghost predicate IsDocument(properties: seq<Property>, key: string) {
    exists i :: 0 <= i < |properties| && properties[i].kind.Document? && properties[i].name == key
  }

  /** The declared properties are the keys of a dictionary. */
  ghost predicate DistinctProperties(properties: seq<Property>) {
    forall i, j :: 0 <= i < j < |properties| ==> properties[i].name != properties[j].name
  }

  /** A value the property can take from the command line; a document's is the name of its file. */
  ghost predicate Renderable(op: Operation, key: string, v: Value) {
    && Declares(op, key)
    && UnderscoreNamed(key)
    && (if TakesText(Find(op.properties, key).value) then v.Str? else Canonical(v))
    && Offered(Find(op.properties, key).value, v)
  }

  function FlagFor(key: string): string {
    "--" + Dash(key)
  }

  function RawFor(op: Operation, key: string, v: Value): string {
    if v.Str? && (Find(op.properties, key).None? || TakesText(Find(op.properties, key).value)) then v.s else Dumps(v)
  }

  function Render(op: Operation, keys: seq<string>, args: Arguments): seq<string> {
    if keys == [] then []
    else
      var value := if keys[0] in args then args[keys[0]] else Null;
      [FlagFor(keys[0]), RawFor(op, keys[0], value)] + Render(op, keys[1..], args)
  }

  /** All listed keys are among the arguments and have no dash. */
  ghost predicate Named(keys: seq<string>, args: Arguments) {
    forall i :: 0 <= i < |keys| ==> keys[i] in args && UnderscoreNamed(keys[i])
  }

  ghost predicate Lists(keys: seq<string>, args: Arguments) {
    && (forall i :: 0 <= i < |keys| ==> keys[i] in args)
    && (forall i, j :: 0 <= i < j < |keys| ==> keys[i] != keys[j])
  }

  lemma {:induction false} UnderDash(key: string)
    requires UnderscoreNamed(key)
    ensures Under(Dash(key)) == key
  {
    if key != "" {
      UnderDash(key[1..]);
      assert Dash(key)[1..] == Dash(key[1..]);
    }
  }

  lemma FlagKey(key: string)
    requires UnderscoreNamed(key)
    ensures IsFlag(FlagFor(key)) && KeyOf(FlagFor(key)) == key
  {
    UnderDash(key);
    assert FlagFor(key)[2..] == Dash(key);
  }

  lemma RawRead(op: Operation, key: string, v: Value)
    requires Renderable(op, key, v)
    ensures ReadRaw(Find(op.properties, key).value, RawFor(op, key, v)) == Ok(v)
  {
    hide Dumps, Loads, Find;
    if !TakesText(Find(op.properties, key).value) {
      JsonProofs.LoadsDumps(v);
    }
  }

  /** `base` with the listed arguments set one after the other. */
  function Assign(base: Arguments, keys: seq<string>, args: Arguments): Arguments
    requires forall i :: 0 <= i < |keys| ==> keys[i] in args
    decreases |keys|
  {
    if keys == [] then base else Assign(base[keys[0] := args[keys[0]]], keys[1..], args)
  }

  lemma {:induction false} AssignHas(base: Arguments, keys: seq<string>, args: Arguments, k: string)
    requires forall i :: 0 <= i < |keys| ==> keys[i] in args
    ensures var r := Assign(base, keys, args);
            && (k in keys ==> k in r && r[k] == args[k])
            && (k !in keys ==> (k in r <==> k in base) && (k in base ==> r[k] == base[k]))
    decreases |keys|
  {
    if keys != [] {
      AssignHas(base[keys[0] := args[keys[0]]], keys[1..], args, k);
      assert keys == [keys[0]] + keys[1..];
    }
  }

  lemma {:induction false} PairsRead(op: Operation, base: Arguments, keys: seq<string>, args: Arguments)
    requires Lists(keys, args)
    requires forall i :: 0 <= i < |keys| ==> Renderable(op, keys[i], args[keys[i]]) && keys[i] !in base
    ensures ReadPairs(op, base, Render(op, keys, args)) == Ok(Assign(base, keys, args))
    decreases |keys|
  {
    if keys != [] {
      hide Renderable, KeyOf, IsFlag, FlagFor, RawFor, ReadRaw, Find;
      var key := keys[0];
      FlagRenderable(op, key, args[key]);
      RawRead(op, key, args[key]);
      var tokens := Render(op, keys, args);
      assert tokens[2..] == Render(op, keys[1..], args);
      PairsRead(op, base[key := args[key]], keys[1..], args);
    }
  }

  lemma FlagRenderable(op: Operation, key: string, v: Value)
    requires Renderable(op, key, v)
    ensures UnderscoreNamed(key) && Declares(op, key) && IsFlag(FlagFor(key)) && KeyOf(FlagFor(key)) == key
  {
    FlagKey(key);
  }

  lemma {:induction false} RenderAt(op: Operation, keys: seq<string>, args: Arguments, j: nat)
    requires Named(keys, args)
    ensures |Render(op, keys, args)| == 2 * |keys|
    ensures j < |keys| ==> Render(op, keys, args)[2 * j] == FlagFor(keys[j])
    decreases |keys|
  {
    if keys != [] {
      hide FlagFor, RawFor;
      RenderAt(op, keys[1..], args, if j > 0 then j - 1 else 0);
      assert j > 0 && j < |keys| ==> Render(op, keys, args)[2 * j] == Render(op, keys[1..], args)[2 * (j - 1)];
    }
  }

  /** Standard input when the document `key` is read: a document before it that is called `-` takes it. */
  function InputAt(properties: seq<Property>, written: Arguments, key: string, input: Input): Input {
    if properties == [] || properties[0].name == key then input
    else
      var p := properties[0];
      var taken := p.kind.Document? && p.name in written && written[p.name] == Str("-") && input.Some?;
      InputAt(properties[1..], written, key, if taken then Some("") else input)
  }

  /** `args` is what was written, each document by the text of the file, or the standard input, that it names. */
  ghost predicate Documented(
      properties: seq<Property>, written: Arguments, args: Arguments, source: Source, input: Input)
  {
    && written.Keys == args.Keys
    && forall k <- written ::
         if IsDocument(properties, k) then
           args[k].Str?
           && ReadDocument(source, k, written[k], InputAt(properties, written, k, input)).0 == Ok(args[k].s)
         else args[k] == written[k]
  }

  lemma DocumentsTail(properties: seq<Property>, key: string)
    requires properties != [] && DistinctProperties(properties)
    ensures DistinctProperties(properties[1..])
    ensures key != properties[0].name ==> (IsDocument(properties[1..], key) <==> IsDocument(properties, key))
    ensures IsDocument(properties, properties[0].name) <==> properties[0].kind.Document?
    ensures !IsDocument(properties[1..], properties[0].name)
  {
    var rest := properties[1..];
    if IsDocument(properties, key) && key != properties[0].name {
      var i :| 0 <= i < |properties| && properties[i].kind.Document? && properties[i].name == key;
      assert rest[i - 1] == properties[i];
    }
    if IsDocument(rest, key) {
      var i :| 0 <= i < |rest| && rest[i].kind.Document? && rest[i].name == key;
      assert properties[i + 1] == rest[i];
    }
  }

  lemma {:induction false} InputAtKept(
      properties: seq<Property>, written: Arguments, name: string, v: Value, key: string, input: Input)
    requires forall i :: 0 <= i < |properties| ==> properties[i].name != name
    ensures InputAt(properties, written[name := v], key, input) == InputAt(properties, written, key, input)
    decreases |properties|
  {
    if properties != [] && properties[0].name != key {
      var p := properties[0];
      var taken := p.kind.Document? && p.name in written && written[p.name] == Str("-") && input.Some?;
      InputAtKept(properties[1..], written, name, v, key, if taken then Some("") else input);
    }
  }

  /** After one document is read, the others stand for what they stood for before. */
  lemma DocumentedNext(
      source: Source, properties: seq<Property>, written: Arguments, args: Arguments, input: Input, text: string)
    requires properties != [] && DistinctProperties(properties)
    requires properties[0].kind.Document? && properties[0].name in written && written.Keys == args.Keys
    requires var p := properties[0]; ReadDocument(source, p.name, written[p.name], input).0 == Ok(text)
    ensures var p := properties[0];
            var after := ReadDocument(source, p.name, written[p.name], input).1;
            Documented(properties[1..], written[p.name := Str(text)], args, source, after)
            <==> Documented(properties, written, args, source, input)
  {
    var p, rest := properties[0], properties[1..];
    var next, after := written[p.name := Str(text)], ReadDocument(source, p.name, written[p.name], input).1;
    DocumentsTail(properties, p.name);
    hide ReadDocument, IsDocument;
    assert InputAt(properties, written, p.name, input) == input;
    forall k | k in written && k != p.name
      ensures IsDocument(rest, k) <==> IsDocument(properties, k)
      ensures InputAt(properties, written, k, input) == InputAt(rest, next, k, after)
    {
      DocumentsTail(properties, k);
      InputTaken(source, p, written, input);
      InputAtKept(rest, written, p.name, Str(text), k, after);
    }
    if Documented(rest, next, args, source, after) {
      assert next[p.name] == args[p.name];
    }
  }

  lemma InputTaken(source: Source, p: Property, written: Arguments, input: Input)
    requires p.kind.Document? && p.name in written && ReadDocument(source, p.name, written[p.name], input).0.Ok?
    ensures ReadDocument(source, p.name, written[p.name], input).1
         == if written[p.name] == Str("-") && input.Some? then Some("") else input
  {
  }

  lemma DocumentedRest(source: Source, properties: seq<Property>, written: Arguments, args: Arguments, input: Input)
    requires properties != [] && DistinctProperties(properties)
    requires !(properties[0].kind.Document? && properties[0].name in written)
    ensures Documented(properties[1..], written, args, source, input)
       <==> Documented(properties, written, args, source, input)
  {
    var p, rest := properties[0], properties[1..];
    DocumentsTail(properties, p.name);
    hide ReadDocument, IsDocument;
    forall k | k in written
      ensures IsDocument(rest, k) <==> IsDocument(properties, k)
      ensures IsDocument(properties, k) ==> InputAt(properties, written, k, input) == InputAt(rest, written, k, input)
    {
      DocumentsTail(properties, k);
    }
  }

  /** Reading the documents turns what was written into exactly these arguments. */
  lemma {:induction false} DocumentsRead(
      source: Source, properties: seq<Property>, written: Arguments, args: Arguments, input: Input)
    requires DistinctProperties(properties) && written.Keys == args.Keys
    ensures ReadDocuments(source, properties, written.Keys, written, input).result == Ok(args)
       <==> Documented(properties, written, args, source, input)
    decreases |properties|
  {
    if properties == [] {
      assert (forall k <- written :: args[k] == written[k]) <==> written == args;
    } else {
      var p := properties[0];
      DocumentsTail(properties, p.name);
      if p.kind.Document? && p.name in written {
        hide IsDocument, DistinctProperties, ReadDocument, Documented;
        var (text, after) := ReadDocument(source, p.name, written[p.name], input);
        if text.Ok? {
          var next := written[p.name := Str(text.value)];
          assert next.Keys == written.Keys;
          DocumentedNext(source, properties, written, args, input, text.value);
          DocumentsRead(source, properties[1..], next, args, after);
        } else {
          NotDocumented(source, properties, written, args, input);
        }
      } else {
        hide IsDocument, DistinctProperties, ReadDocument, Documented;
        DocumentedRest(source, properties, written, args, input);
        DocumentsRead(source, properties[1..], written, args, input);
      }
    }
  }

  lemma NotDocumented(source: Source, properties: seq<Property>, written: Arguments, args: Arguments, input: Input)
    requires properties != [] && IsDocument(properties, properties[0].name) && properties[0].name in written
    requires ReadDocument(source, properties[0].name, written[properties[0].name], input).0.Err?
    ensures !Documented(properties, written, args, source, input)
  {
    hide ReadDocument, IsDocument;
  }

  lemma {:induction false} FirstDocumentIs(properties: seq<Property>)
    ensures FirstDocument(properties).Some? ==> IsDocument(properties, FirstDocument(properties).value)
  {
    if properties != [] {
      FirstDocumentIs(properties[1..]);
      if properties[0].kind.Document? {
        assert IsDocument(properties, properties[0].name);
      } else if FirstDocument(properties).Some? {
        var i :| 0 <= i < |properties[1..]| && properties[1..][i].kind.Document?
                 && properties[1..][i].name == FirstDocument(properties).value;
        assert properties[i + 1].kind.Document? && properties[i + 1].name == FirstDocument(properties).value;
      }
    }
  }

  /** Setting all listed arguments over some of them gives exactly these arguments. */
  lemma AssignAll(base: Arguments, keys: seq<string>, args: Arguments)
    requires forall i :: 0 <= i < |keys| ==> keys[i] in args
    requires forall k <- args :: k in keys || (k in base && base[k] == args[k])
    requires forall k <- base :: k in args
    ensures Assign(base, keys, args) == args
  {
    hide Assign;
    forall k ensures k in Assign(base, keys, args) <==> k in args
             ensures k in args ==> Assign(base, keys, args)[k] == args[k]
    {
      AssignHas(base, keys, args, k);
    }
  }

  lemma PlainRoundTrip(
      op: Operation, keys: seq<string>, written: Arguments, args: Arguments, files: map<string, string>, input: Input)
    requires DistinctProperties(op.properties)
    requires Documented(op.properties, written, args, Source(files, false), input)
    requires Lists(keys, written) && (forall k <- written :: k in keys)
    requires forall i :: 0 <= i < |keys| ==> Renderable(op, keys[i], written[keys[i]])
    requires !op.secret && STDIN_FLAG !in Render(op, keys, written)
    ensures Parse(op, Render(op, keys, written), files, input).result == Ok(args)
  {
    assert written.Keys == args.Keys;
    hide Render, ReadPairs, ReadDocuments, Assign, Positional, Documented, DistinctProperties;
    PairsRead(op, map[], keys, written);
    AssignAll(map[], keys, written);
    var nothing: Arguments := map[];
    assert written.Keys - nothing.Keys == written.Keys;
    DocumentsRead(Source(files, false), op.properties, written, args, input);
    FirstIsFlag(op, keys, written);
  }

  lemma FirstIsFlag(op: Operation, keys: seq<string>, args: Arguments)
    requires forall i :: 0 <= i < |keys| ==> keys[i] in args && Renderable(op, keys[i], args[keys[i]])
    ensures Render(op, keys, args) != [] ==> IsFlag(Render(op, keys, args)[0])
  {
  }

  lemma OddNotPairs(op: Operation, given: Arguments, pairs: seq<string>)
    requires |pairs| % 2 == 1
    ensures !GoodPairs(op, given, pairs)
  {
  }

  /** With `--stdin` among paired tokens, only `--stdin` in front leaves pairs. */
  lemma StdinInFront(op: Operation, tokens: seq<string>, input: Input)
    requires |tokens| % 2 == 0 && STDIN_FLAG in tokens && IsFlag(tokens[0])
    requires InOrder(op, tokens, input)
    ensures |tokens| >= 2 && tokens[0] == STDIN_FLAG && !IsFlag(tokens[1]) && PairTokens(tokens) == tokens[2..]
    ensures Positional(op).Some? && Positional(op).value in Before(op, tokens, input).value
  {
    hide GoodPairs, GivenArguments, Positional, IsFlag;
    var i := IndexOf(tokens, STDIN_FLAG);
    var remaining := WithoutFirst(tokens, STDIN_FLAG);
    OddNotPairs(op, Before(op, tokens, input).value, remaining);
    assert remaining[1..] == tokens[2..];
  }

  lemma StdinKey(key: string)
    requires UnderscoreNamed(key) && FlagFor(key) == STDIN_FLAG
    ensures key == "stdin"
  {
    FlagKey(key);
    assert STDIN_FLAG[2..] == "stdin";
    assert Under("stdin") == "stdin";
  }

  lemma BeforeKept(op: Operation, tokens: seq<string>, files: map<string, string>, input: Input, key: string)
    requires Parse(op, tokens, files, input).result.Ok?
    ensures InOrder(op, tokens, input)
    ensures key in Before(op, tokens, input).value ==> key in Parse(op, tokens, files, input).result.value
  {
    hide Parse, PairTokens, GoodPairs, ReadDocuments, Before, Given;
    var read := AcceptedCall(op, tokens, files, input);
    DocumentsKeepKeys(Source(files, STDIN_FLAG in tokens), op.properties, read.Keys - Given(tokens, input).value.Keys,
                      read, if STDIN_FLAG in tokens then Some("") else input);
  }

  lemma SetTwice(op: Operation, given: Arguments, keys: seq<string>, args: Arguments, key: string)
    requires Named(keys, args) && key in keys && key in given
    ensures !GoodPairs(op, given, Render(op, keys, args))
  {
    hide KeyOf, FlagFor, Render, Find, ReadRaw;
    var j :| 0 <= j < |keys| && keys[j] == key;
    RenderAt(op, keys, args, j);
    FlagKey(key);
    assert KeyAt(Render(op, keys, args), j) == key;
    assert !GoodPair(op, given, Render(op, keys, args), j);
  }

  lemma AllNamed(op: Operation, keys: seq<string>, args: Arguments)
    requires forall i :: 0 <= i < |keys| ==> keys[i] in args && Renderable(op, keys[i], args[keys[i]])
    ensures Named(keys, args)
  {
  }

  /** A property `stdin` in front takes the place of the flag, its value that of the positional argument. */
  ghost predicate StdinShape(op: Operation, keys: seq<string>, tokens: seq<string>, input: Input) {
    && keys != [] && keys[0] == "stdin" && Positional(op) == Some("stdin")
    && |tokens| >= 2 && !IsFlag(tokens[1])
    && GivenArguments(input) == Ok(map[])
  }

  /**
    The one rendering with `--stdin` that parses back: a document property of that name in front that is
    the operation's positional argument, with a file name that is no flag, an empty object on standard
    input, and no document that needs standard input.
   */
  ghost predicate StdinFront(op: Operation, keys: seq<string>, written: Arguments, args: Arguments,
                             files: map<string, string>, input: Input)
  {
    var tokens := Render(op, keys, written);
    && StdinShape(op, keys, tokens, input)
    && Documented(op.properties, written["stdin" := Str(tokens[1])], args, Source(files, true), Some(""))
  }

  lemma PositionalStdin(op: Operation)
    requires Positional(op) == Some("stdin")
    ensures IsDocument(op.properties, "stdin")
  {
    FirstDocumentIs(op.properties);
  }

  lemma StdinFlag()
    ensures FlagFor("stdin") == STDIN_FLAG
  {
    assert Dash("stdin") == "stdin";
  }

  lemma FrontParse(op: Operation, tokens: seq<string>, files: map<string, string>, input: Input)
    requires |tokens| >= 2 && tokens[0] == STDIN_FLAG && !IsFlag(tokens[1]) && Positional(op) == Some("stdin")
    requires GivenArguments(input) == Ok(map[])
    ensures var read := ReadPairs(op, map["stdin" := Str(tokens[1])], tokens[2..]);
            Parse(op, tokens, files, input) == Finish(op, map[], read, Source(files, true), Some(""))
  {
    hide ReadPairs, Positional, IsFlag, Loads, Fields, DropMarks, Finish;
    assert IndexOf(tokens, STDIN_FLAG) == 0;
    assert WithoutFirst(tokens, STDIN_FLAG) == tokens[1..];
    assert tokens[1..][1..] == tokens[2..];
    assert input.Some?;
  }

  /** The front of a rendering, and the pairs behind it. */
  lemma RenderShape(op: Operation, keys: seq<string>, written: Arguments)
    requires keys != [] && Named(keys, written)
    ensures var tokens := Render(op, keys, written);
            && |tokens| == 2 * |keys| && tokens[0] == FlagFor(keys[0]) && IsFlag(tokens[0])
            && tokens[1] == RawFor(op, keys[0], written[keys[0]]) && tokens[2..] == Render(op, keys[1..], written)
  {
    RenderAt(op, keys, written, 0);
    FlagKey(keys[0]);
    hide FlagFor, RawFor, IsFlag;
  }

  lemma {:induction false} RenderOthers(op: Operation, keys: seq<string>, args: Arguments, key: string, v: Value)
    requires key !in keys
    ensures Render(op, keys, args[key := v]) == Render(op, keys, args)
    decreases |keys|
  {
    if keys != [] {
      RenderOthers(op, keys[1..], args, key, v);
      assert keys[0] in keys;
    }
  }

  lemma FrontPairs(op: Operation, keys: seq<string>, written: Arguments, v: Value)
    requires keys != [] && Lists(keys, written) && (forall k <- written :: k in keys)
    requires forall i :: 0 <= i < |keys| ==> Renderable(op, keys[i], written[keys[i]])
    ensures ReadPairs(op, map[keys[0] := v], Render(op, keys[1..], written)) == Ok(written[keys[0] := v])
  {
    hide Render, ReadPairs, Assign, Renderable;
    var base, named: Arguments := map[keys[0] := v], written[keys[0] := v];
    assert keys == [keys[0]] + keys[1..];
    RenderOthers(op, keys[1..], written, keys[0], v);
    PairsRead(op, base, keys[1..], named);
    AssignAll(base, keys[1..], named);
  }

  lemma FrontTokens(op: Operation, keys: seq<string>, written: Arguments, input: Input)
    requires Named(keys, written) && StdinShape(op, keys, Render(op, keys, written), input)
    ensures var tokens := Render(op, keys, written);
            && tokens[0] == STDIN_FLAG && STDIN_FLAG in tokens && tokens[2..] == Render(op, keys[1..], written)
  {
    hide Render, GivenArguments, RawFor, FlagFor, IsFlag, Positional;
    RenderShape(op, keys, written);
    StdinFlag();
  }

  /** A rendering of this shape is read up to its documents. */
  lemma FrontReads(op: Operation, keys: seq<string>, written: Arguments, files: map<string, string>, input: Input)
    requires Lists(keys, written) && (forall k <- written :: k in keys) && Named(keys, written)
    requires forall i :: 0 <= i < |keys| ==> Renderable(op, keys[i], written[keys[i]])
    requires StdinShape(op, keys, Render(op, keys, written), input)
    ensures var tokens := Render(op, keys, written);
            var named := written["stdin" := Str(tokens[1])];
            && named.Keys == written.Keys
            && Parse(op, tokens, files, input)
               == ReadDocuments(Source(files, true), op.properties, named.Keys, named, Some(""))
  {
    hide Render, ReadPairs, ReadDocuments, Positional, Renderable, GivenArguments, IsFlag, Parse, Named;
    var tokens := Render(op, keys, written);
    var named := written["stdin" := Str(tokens[1])];
    FrontTokens(op, keys, written, input);
    FrontPairs(op, keys, written, Str(tokens[1]));
    FrontParse(op, tokens, files, input);
    var nothing: Arguments := map[];
    assert named.Keys == written.Keys && named.Keys - nothing.Keys == named.Keys;
  }

  /** A rendering of this shape parses back exactly when the documents it then names are those of the arguments. */
  lemma FrontRoundTrip(
      op: Operation, keys: seq<string>, written: Arguments, args: Arguments, files: map<string, string>, input: Input)
    requires DistinctProperties(op.properties) && written.Keys == args.Keys
    requires Lists(keys, written) && (forall k <- written :: k in keys)
    requires forall i :: 0 <= i < |keys| ==> Renderable(op, keys[i], written[keys[i]])
    requires StdinShape(op, keys, Render(op, keys, written), input)
    ensures Parse(op, Render(op, keys, written), files, input).result == Ok(args)
       <==> StdinFront(op, keys, written, args, files, input)
  {
    AllNamed(op, keys, written);
    hide Render, ReadDocuments, Positional, Documented, DistinctProperties, Renderable, GivenArguments, IsFlag, Parse,
         Named;
    FrontReads(op, keys, written, files, input);
    var named := written["stdin" := Str(Render(op, keys, written)[1])];
    DocumentsRead(Source(files, true), op.properties, named, args, Some(""));
  }

  lemma GivenBefore(op: Operation, tokens: seq<string>, input: Input, key: string)
    requires STDIN_FLAG in tokens && Before(op, tokens, input).Ok?
    ensures GivenArguments(input).Ok?
    ensures key in GivenArguments(input).value ==> key in Before(op, tokens, input).value
    ensures PairTokens(tokens) != WithoutFirst(tokens, STDIN_FLAG) && Positional(op).Some? ==>
              Positional(op).value !in GivenArguments(input).value
  {
    hide GivenArguments, Positional, IndexOf;
  }

  lemma NamedTail(keys: seq<string>, args: Arguments)
    requires keys != [] && Named(keys, args)
    ensures UnderscoreNamed(keys[0]) && Named(keys[1..], args)
  {
  }

  /** What was set before the pairs of an accepted rendering is the first listed argument at most. */
  lemma OnlyFirstBefore(op: Operation, tokens: seq<string>, keys: seq<string>, written: Arguments, args: Arguments,
                        files: map<string, string>, input: Input, key: string)
    requires keys != [] && (forall k <- written :: k in keys) && written.Keys == args.Keys && Named(keys[1..], written)
    requires PairTokens(tokens) == Render(op, keys[1..], written)
    requires Parse(op, tokens, files, input).result == Ok(args)
    ensures InOrder(op, tokens, input)
    ensures key in Before(op, tokens, input).value ==> key == keys[0]
  {
    BeforeKept(op, tokens, files, input, key);
    hide Render, Parse, GoodPairs, Before, PairTokens, Named;
    if key in Before(op, tokens, input).value {
      assert key in keys && keys == [keys[0]] + keys[1..];
      if key in keys[1..] {
        SetTwice(op, Before(op, tokens, input).value, keys[1..], written, key);
      }
    }
  }

  /** A property named `stdin` that takes the front for `--stdin` makes the next value positional. */
  lemma StdinTakesFront(op: Operation, tokens: seq<string>, keys: seq<string>, written: Arguments, args: Arguments,
                        files: map<string, string>, input: Input)
    requires keys != [] && (forall k <- written :: k in keys) && written.Keys == args.Keys && Named(keys, written)
    requires |tokens| >= 2 && |tokens| % 2 == 0 && STDIN_FLAG in tokens
    requires tokens[0] == FlagFor(keys[0]) && IsFlag(tokens[0]) && tokens[2..] == Render(op, keys[1..], written)
    requires Parse(op, tokens, files, input).result == Ok(args)
    ensures StdinShape(op, keys, tokens, input)
  {
    assert InOrder(op, tokens, input) by { BeforeKept(op, tokens, files, input, ""); }
    hide FlagFor, Render, Parse, GoodPairs, Before, PairTokens, Positional, IsFlag, UnderscoreNamed, GivenArguments,
         Named;
    StdinInFront(op, tokens, input);
    NamedTail(keys, written);
    StdinKey(keys[0]);
    var positional := Positional(op).value;
    OnlyFirstBefore(op, tokens, keys, written, args, files, input, positional);
    OnePositional(op, tokens, input);
    forall k ensures k !in GivenArguments(input).value {
      GivenBefore(op, tokens, input, k);
      OnlyFirstBefore(op, tokens, keys, written, args, files, input, k);
    }
    assert GivenArguments(input).value == map[];
  }

  /** With a positional value taken, standard input did not give it. */
  lemma OnePositional(op: Operation, tokens: seq<string>, input: Input)
    requires |tokens| >= 2 && tokens[0] == STDIN_FLAG && !IsFlag(tokens[1]) && PairTokens(tokens) == tokens[2..]
    requires Before(op, tokens, input).Ok?
    ensures GivenArguments(input).Ok? && Positional(op).Some? && Positional(op).value !in GivenArguments(input).value
  {
    hide GivenArguments, Positional, IsFlag;
    assert IndexOf(tokens, STDIN_FLAG) == 0;
    assert WithoutFirst(tokens, STDIN_FLAG) == tokens[1..];
  }

  lemma OnlyFront(op: Operation, keys: seq<string>, written: Arguments, args: Arguments,
                  files: map<string, string>, input: Input)
    requires keys != [] && Lists(keys, written) && (forall k <- written :: k in keys) && written.Keys == args.Keys
    requires Named(keys, written)
    requires STDIN_FLAG in Render(op, keys, written)
    requires Parse(op, Render(op, keys, written), files, input).result == Ok(args)
    ensures StdinShape(op, keys, Render(op, keys, written), input)
  {
    hide *;
    RenderShape(op, keys, written);
    StdinTakesFront(op, Render(op, keys, written), keys, written, args, files, input);
  }

  lemma FrontShape(op: Operation, keys: seq<string>, written: Arguments, args: Arguments,
                   files: map<string, string>, input: Input)
    requires StdinFront(op, keys, written, args, files, input)
    ensures StdinShape(op, keys, Render(op, keys, written), input)
  {
  }

  /** A rendering that contains `--stdin` comes back as the arguments it was rendered from in that one case only. */
  lemma StdinInTheWay(
      op: Operation, keys: seq<string>, written: Arguments, args: Arguments, files: map<string, string>, input: Input)
    requires DistinctProperties(op.properties) && written.Keys == args.Keys
    requires Lists(keys, written) && (forall k <- written :: k in keys)
    requires forall i :: 0 <= i < |keys| ==> Renderable(op, keys[i], written[keys[i]])
    requires STDIN_FLAG in Render(op, keys, written)
    ensures Parse(op, Render(op, keys, written), files, input).result == Ok(args)
       <==> StdinFront(op, keys, written, args, files, input)
  {
    AllNamed(op, keys, written);
    assert keys != [];
    hide *;
    if Parse(op, Render(op, keys, written), files, input).result == Ok(args) {
      OnlyFront(op, keys, written, args, files, input);
      FrontRoundTrip(op, keys, written, args, files, input);
    } else if StdinFront(op, keys, written, args, files, input) {
      FrontShape(op, keys, written, args, files, input);
      FrontRoundTrip(op, keys, written, args, files, input);
    }
  }

  lemma FrontHasStdin(op: Operation, keys: seq<string>, written: Arguments, args: Arguments,
                      files: map<string, string>, input: Input)
    requires Named(keys, written) && StdinFront(op, keys, written, args, files, input)
    ensures STDIN_FLAG in Render(op, keys, written)
  {
    hide *;
    FrontShape(op, keys, written, args, files, input);
    FrontTokens(op, keys, written, input);
  }

  /**
    Arguments rendered as pairs, in any order, documents by the names of their files or by `-` for
    standard input, parse back to the same arguments exactly when the operation does not insist on
    standard input and no rendered token is `--stdin`, or in the one case where it stands for a document
    of that name.
   */
  lemma RoundTrip(
      op: Operation, keys: seq<string>, written: Arguments, args: Arguments, files: map<string, string>, input: Input)
    requires DistinctProperties(op.properties)
    requires Documented(op.properties, written, args, Source(files, false), input)
    requires Lists(keys, written) && (forall k <- written :: k in keys)
    requires forall i :: 0 <= i < |keys| ==> Renderable(op, keys[i], written[keys[i]])
    ensures Parse(op, Render(op, keys, written), files, input).result == Ok(args)
       <==> (!op.secret && STDIN_FLAG !in Render(op, keys, written))
            || StdinFront(op, keys, written, args, files, input)
  {
    assert written.Keys == args.Keys;
    AllNamed(op, keys, written);
    hide Render, Renderable, Documented, DistinctProperties, StdinFront, Named;
    if STDIN_FLAG in Render(op, keys, written) {
      StdinInTheWay(op, keys, written, args, files, input);
    } else if StdinFront(op, keys, written, args, files, input) {
      FrontHasStdin(op, keys, written, args, files, input);
    } else if !op.secret {
      PlainRoundTrip(op, keys, written, args, files, input);
    }
  }

  /** Without documents among the arguments that case does not arise. */
  lemma RoundTripWithoutDocuments(
      op: Operation, keys: seq<string>, args: Arguments, files: map<string, string>, input: Input)
    requires DistinctProperties(op.properties) && forall k <- args :: !IsDocument(op.properties, k)
    requires Lists(keys, args) && (forall k <- args :: k in keys)
    requires forall i :: 0 <= i < |keys| ==> Renderable(op, keys[i], args[keys[i]])
    ensures Parse(op, Render(op, keys, args), files, input).result == Ok(args)
       <==> !op.secret && STDIN_FLAG !in Render(op, keys, args)
  {
    assert Documented(op.properties, args, args, Source(files, false), input);
    hide Render, Renderable, Documented, DistinctProperties, IsDocument;
    RoundTrip(op, keys, args, args, files, input);
    if StdinFront(op, keys, args, args, files, input) {
      PositionalStdin(op);
    }
  }

  /** A value that reads like the flag does not come back. */
  lemma StdinValueLost(files: map<string, string>, input: Input)
    ensures var op := Operation(false, [Property("note", Text, None)]);
            Parse(op, ["--note", "--stdin"], files, input).result != Ok(map["note" := Str("--stdin")])
  {
    var op := Operation(false, [Property("note", Text, None)]);
    var keys, args := ["note"], map["note" := Str("--stdin")];
    assert Dash("note") == "note";
    assert Renderable(op, "note", Str("--stdin")) && UnderscoreNamed("note");
    RenderShape(op, keys, args);
    var tokens := Render(op, keys, args);
    assert tokens[0] == "--note" && tokens[1] == "--stdin" && |tokens| == 2;
    assert tokens == ["--note", "--stdin"];
    hide Render, Renderable, Parse, RawFor, FlagFor;
    RoundTripWithoutDocuments(op, keys, args, files, input);
  }
}
