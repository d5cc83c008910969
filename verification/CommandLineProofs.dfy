/** What the rewriting of a command line keeps, and when the place of the root options does not matter. */
module CommandLineProofs {
  import opened Wrappers
  import opened CommandLine
  import Seqs

  // ---------------------------------------------------------------- root options in front

  /** Whole root options with their values. */
  predicate Options(s: seq<string>)
    decreases |s|
  {
    s == [] || (IsRootOption(s[0]) && |s| >= Width(s[0]) && Options(s[Width(s[0])..]))
  }

  predicate OutputsGood(s: seq<string>)
    requires Options(s)
    decreases |s|
  {
    s == [] || ((IsOutput(s[0]) ==> GoodOutput(ValueAt(s))) && OutputsGood(s[Width(s[0])..]))
  }

  /** The target options among root options, as they were written. */
  function Targets(s: seq<string>): seq<string>
    requires Options(s)
    decreases |s|
  {
    if s == [] then [] else (if IsOutput(s[0]) then [] else s[..Width(s[0])]) + Targets(s[Width(s[0])..])
  }

  /** The last presentation among root options. */
  function LastOutput(s: seq<string>): Option<string>
    requires Options(s)
    decreases |s|
  {
    if s == [] then None
    else
      var later := LastOutput(s[Width(s[0])..]);
      if later.None? && IsOutput(s[0]) then Some(ValueAt(s)) else later
  }

  function Summary(root: Root, s: seq<string>): Root
    requires Options(s)
  {
    Root(if LastOutput(s).Some? then LastOutput(s) else root.output, root.target + Targets(s))
  }

  predicate StartsPlain(tokens: seq<string>) {
    tokens == [] || !IsRootOption(tokens[0])
  }

  lemma CutSum(s: seq<string>, rest: seq<string>, k: nat)
    requires k <= |s|
    ensures (s + rest)[..k] == s[..k] && (s + rest)[k..] == s[k..] + rest
  {
  }

  lemma FirstOption(s: seq<string>, rest: seq<string>)
    requires s != [] && |s| >= Width(s[0])
    ensures var tokens := s + rest; var width := Width(s[0]);
            && tokens[0] == s[0] && tokens[..width] == s[..width]
            && tokens[width..] == s[width..] + rest && ValueAt(tokens) == ValueAt(s)
  {
  }

  /** Whole root options before a token that is none are taken, all of them and nothing else. */
  lemma {:induction false} TakeAll(root: Root, s: seq<string>, rest: seq<string>)
    requires Options(s) && StartsPlain(rest)
    ensures OutputsGood(s) ==> Take(root, s + rest) == Ok((Summary(root, s), rest))
    ensures !OutputsGood(s) ==> Take(root, s + rest).Err?
    decreases |s|
  {
    hide IsRootOption, IsOutput, GoodOutput, ValueAt;
    if s == [] {
      assert s + rest == rest;
      assert root.target + [] == root.target;
    } else {
      FirstOption(s, rest);
      var width := Width(s[0]);
      var next := if IsOutput(s[0]) then root.(output := Some(ValueAt(s)))
                  else root.(target := root.target + s[..width]);
      TakeAll(next, s[width..], rest);
      if !IsOutput(s[0]) {
        assert root.target + (s[..width] + Targets(s[width..])) == root.target + s[..width] + Targets(s[width..]);
      } else {
        assert [] + Targets(s[width..]) == Targets(s[width..]);
      }
    }
  }

  /** What was taken is the longest run of whole root options; everything behind it is left as it was. */
  lemma {:induction false} TakeSplits(root: Root, tokens: seq<string>) returns (k: nat)
    requires Take(root, tokens).Ok?
    ensures k <= |tokens| && Options(tokens[..k]) && OutputsGood(tokens[..k]) && StartsPlain(tokens[k..])
    ensures Take(root, tokens).value == (Summary(root, tokens[..k]), tokens[k..])
    decreases |tokens|
  {
    hide IsRootOption, IsOutput, GoodOutput, ValueAt;
    k := 0;
    if tokens != [] && IsRootOption(tokens[0]) {
      var width := Width(tokens[0]);
      var next := if IsOutput(tokens[0]) then root.(output := Some(ValueAt(tokens)))
                  else root.(target := root.target + tokens[..width]);
      var more := TakeSplits(next, tokens[width..]);
      k := width + more;
      Seqs.CutAgain(tokens, width, more);
      assert tokens[..k][0] == tokens[0] && |tokens[..k]| >= width;
      assert Options(tokens[..k]);
    }
    assert tokens == tokens[..k] + tokens[k..];
    TakeAll(root, tokens[..k], tokens[k..]);
  }

  /** There is only one way to split off whole root options. */
  lemma SplitUnique(a: seq<string>, rest: seq<string>, b: seq<string>, other: seq<string>)
    requires Options(a) && OutputsGood(a) && StartsPlain(rest)
    requires Options(b) && OutputsGood(b) && StartsPlain(other)
    requires a + rest == b + other
    ensures a == b && rest == other
  {
    TakeAll(Root(None, []), a, rest);
    TakeAll(Root(None, []), b, other);
    assert a == (a + rest)[..|a|] && b == (b + other)[..|b|];
  }

  // ---------------------------------------------------------------- Extension calls

  lemma OptionStart(token: string)
    requires IsRootOption(token)
    ensures |token| > 2 && token[0] == '-' && token[1] == '-'
  {
    NameIsPrefix(token);
    var name := OptionName(token);
    assert |name| > 2 && name[0] == '-' && name[1] == '-';
    assert name[0] == token[0] && name[1] == token[1];
  }

  lemma OtherWords(token: string)
    requires token in HELP_FLAGS || token in LIFECYCLE_FLAGS
    ensures !IsRootOption(token)
  {
    hide OptionName;
    PlainName(token);
  }

  lemma DashedAliases(token: string)
    requires |token| > 2 && token[0] == '-'
    ensures token !in AREA_ALIASES
  {
  }

  lemma OptionDashed(token: string)
    requires IsRootOption(token)
    ensures "-" <= token && token !in HELP_FLAGS && token !in LIFECYCLE_FLAGS && token !in AREA_ALIASES
    ensures token != "extensions" && token != "help"
  {
    hide IsRootOption;
    OptionStart(token);
    DashedAliases(token);
    if token in HELP_FLAGS || token in LIFECYCLE_FLAGS {
      OtherWords(token);
    }
  }

  lemma OutputSpelled(token: string)
    ensures IsOutput(token) <==> token == "--output" || "--output=" <= token
  {
    NameIsPrefix(token);
    if token == "--output" {
      PlainName(token);
    }
    if "--output=" <= token {
      assert "--output" + "=" == "--output=";
      NameOf("--output", token);
    }
  }

  lemma {:induction false} NameIsPrefix(token: string)
    ensures OptionName(token) <= token
    ensures OptionName(token) != token ==> OptionName(token) + "=" <= token
  {
    if token != "" && token[0] != '=' {
      NameIsPrefix(token[1..]);
      assert token == [token[0]] + token[1..];
    }
  }

  lemma {:induction false} PlainName(token: string)
    requires '=' !in token
    ensures OptionName(token) == token
  {
    if token != "" {
      PlainName(token[1..]);
      assert token == [token[0]] + token[1..];
    }
  }

  lemma {:induction false} NameOf(name: string, token: string)
    requires '=' !in name && name + "=" <= token
    ensures OptionName(token) == name
  {
    if name != "" {
      assert token[1..][..|name|] == (name + "=")[1..] == name[1..] + "=";
      NameOf(name[1..], token[1..]);
      assert name == [name[0]] + name[1..];
    }
  }

  predicate IsWord(token: string) {
    !IsRootOption(token) && !("-" <= token)
  }

  /** The first word among tokens, skipping whole options. */
  function FirstWord(s: seq<string>): (r: Option<nat>)
    ensures r.Some? ==> r.value < |s|
    decreases |s|
  {
    if s == [] then None
    else if IsRootOption(s[0]) then
      if |s| < Width(s[0]) then None
      else
        var more := FirstWord(s[Width(s[0])..]);
        if more.None? then None else Some(Width(s[0]) + more.value)
    else if IsWord(s[0]) then Some(0)
    else None
  }

  function Shift(r: Option<nat>, n: nat): Option<nat> {
    if r.None? then None else Some(n + r.value)
  }

  lemma {:induction false} NextIsFirst(tokens: seq<string>, i: nat)
    requires i <= |tokens|
    ensures NextPositional(tokens, i) == Shift(FirstWord(tokens[i..]), i)
    decreases |tokens| - i
  {
    hide IsRootOption, HasValue;
    if i < |tokens| {
      var s := tokens[i..];
      assert s[0] == tokens[i] && |s| == |tokens| - i;
      if IsRootOption(tokens[i]) {
        hide IsWord;
        var width := Width(tokens[i]);
        if i + width <= |tokens| {
          NextIsFirst(tokens, i + width);
          assert s[width..] == tokens[i + width..];
        }
      }
    }
  }

  lemma {:induction false} FirstWordSkips(s: seq<string>, rest: seq<string>)
    requires Options(s)
    ensures FirstWord(s + rest) == Shift(FirstWord(rest), |s|)
    decreases |s|
  {
    hide IsRootOption, IsWord;
    if s == [] {
      assert s + rest == rest;
    } else {
      FirstOption(s, rest);
      FirstWordSkips(s[Width(s[0])..], rest);
    }
  }

  lemma {:induction false} FirstWordParts(s: seq<string>)
    ensures FirstWord(s).Some? ==> Options(s[..FirstWord(s).value]) && IsWord(s[FirstWord(s).value])
    decreases |s|
  {
    hide IsRootOption, IsWord;
    if FirstWord(s).Some? && IsRootOption(s[0]) {
      var k := FirstWord(s).value;
      var width := Width(s[0]);
      FirstWordParts(s[width..]);
      assert s[..k][width..] == s[width..][..k - width];
    }
  }

  /** A second rewriting changes nothing. */
  lemma NormalizedTwice(tokens: seq<string>)
    ensures Normalized(Normalized(tokens)) == Normalized(tokens)
  {
    var once := Normalized(tokens);
    if once != tokens {
      hide IsRootOption;
      assert once[0] == "extensions" && IsAction(once[1]) && once[1] in {"show", "run", "set", "operations"};
      PlainWord(once[1]);
      assert NextPositional(once, 1) == Some(1);
    }
  }

  lemma PlainWord(token: string)
    requires token in {"show", "run", "set", "operations"}
    ensures IsWord(token)
  {
    hide OptionName;
    PlainName(token);
    assert token != "" && token[0] != '-';
  }

  lemma FirstIsWord(word: string, rest: seq<string>)
    requires IsWord(word)
    ensures FirstWord([word] + rest) == Some(0)
  {
  }

  /** A word behind whole options is the next positional. */
  lemma WordBehindOptions(
      tokens: seq<string>, start: seq<string>, options: seq<string>, word: string, rest: seq<string>)
    requires Options(options) && IsWord(word) && tokens == start + (options + ([word] + rest))
    ensures var i := |start| + |options|;
            NextPositional(tokens, |start|) == Some(i) && tokens[i] == word
            && tokens[i + 1..] == rest && tokens[|start|..i] == options
  {
    hide Options, IsWord, NextPositional, FirstWord;
    assert tokens[|start|..] == options + ([word] + rest);
    NextIsFirst(tokens, |start|);
    FirstWordSkips(options, [word] + rest);
    FirstIsWord(word, rest);
  }

  /** A name-first call with its options before and behind the Extension's name. */
  function NameFirst(
      before: seq<string>, name: string, behind: seq<string>, operation: string, payload: seq<string>): seq<string>
  {
    ["extensions"] + (before + ([name] + (behind + ([operation] + payload))))
  }

  lemma RegroupCall(before: seq<string>, name: string, rest: seq<string>)
    ensures ["extensions"] + (before + ([name] + rest)) == (["extensions"] + (before + [name])) + rest
  {
  }

  lemma FindNameFirst(before: seq<string>, name: string, behind: seq<string>, operation: string, payload: seq<string>)
    requires Options(before) && Options(behind) && IsWord(name) && IsWord(operation)
    ensures var tokens := NameFirst(before, name, behind, operation, payload);
            var i := 1 + |before|;
            && NextPositional(tokens, 1) == Some(i) && tokens[i] == name
            && NextPositional(tokens, i + 1) == Some(i + 1 + |behind|) && tokens[i + 1 + |behind|] == operation
  {
    hide Options, IsWord, NextPositional;
    var tokens := NameFirst(before, name, behind, operation, payload);
    WordBehindOptions(tokens, ["extensions"], before, name, behind + ([operation] + payload));
    RegroupCall(before, name, behind + ([operation] + payload));
    WordBehindOptions(tokens, ["extensions"] + (before + [name]), behind, operation, payload);
  }

  lemma CutCall(before: seq<string>, name: string, behind: seq<string>, operation: string, payload: seq<string>)
    ensures var tokens := NameFirst(before, name, behind, operation, payload);
            var i := 2 + |before| + |behind|;
            tokens[..1] == ["extensions"] && tokens[i + 1..] == payload
            && tokens[1..i] == before + ([name] + behind)
            && tokens[1..] == before + ([name] + (behind + ([operation] + payload)))
  {
  }

  lemma NormalizedAt(tokens: seq<string>, i: nat, j: nat)
    requires tokens != [] && tokens[0] == "extensions"
    requires NextPositional(tokens, 1) == Some(i) && NextPositional(tokens, i + 1) == Some(j) && !IsAction(tokens[i])
    ensures j >= 1 && Normalized(tokens) == WithAction(tokens, j)
  {
    hide NextPositional, ActionFor, IsAction, WithAction;
  }

  lemma ActionOf(operation: string)
    ensures operation in {"set", "operations"} ==> ActionFor(operation) == operation && operation != "run"
    ensures operation !in {"set", "operations"} ==> ActionFor(operation) == "run"
  {
  }

  lemma CallParts(before: seq<string>, name: string, behind: seq<string>, operation: string, payload: seq<string>)
    requires Options(before) && Options(behind) && IsWord(name) && IsWord(operation) && !IsAction(name)
    ensures var tokens := NameFirst(before, name, behind, operation, payload);
            && (operation in {"set", "operations"} ==>
                  Normalized(tokens) == ["extensions"] + [operation] + (before + ([name] + behind)) + payload)
            && (operation !in {"set", "operations"} ==>
                  Normalized(tokens)
                  == ["extensions"] + ["run"] + (before + ([name] + (behind + ([operation] + payload)))))
  {
    hide Normalized, NextPositional, NameFirst, Options, IsWord, IsAction, ActionFor;
    var tokens := NameFirst(before, name, behind, operation, payload);
    FindNameFirst(before, name, behind, operation, payload);
    CutCall(before, name, behind, operation, payload);
    assert tokens[0] == tokens[..1][0];
    ActionOf(operation);
    NormalizedAt(tokens, 1 + |before|, 2 + |before| + |behind|);
  }

  /**
    A name-first call becomes the call of its action with the same options and name; the operation and
    everything behind it stay in place and order, whatever they look like.
   */
  lemma NameFirstCall(before: seq<string>, name: string, behind: seq<string>, operation: string, payload: seq<string>)
    requires Options(before) && Options(behind) && IsWord(name) && IsWord(operation) && !IsAction(name)
    ensures Normalized(NameFirst(before, name, behind, operation, payload))
         == if operation in {"set", "operations"} then
              ["extensions", operation] + (before + ([name] + behind)) + payload
            else ["extensions", "run"] + (before + ([name] + (behind + ([operation] + payload))))
  {
    hide *;
    CallParts(before, name, behind, operation, payload);
    assert ["extensions"] + [operation] == ["extensions", operation];
    assert ["extensions"] + ["run"] == ["extensions", "run"];
  }

  /** A call with a name alone becomes its `show` call. */
  lemma ShowCall(before: seq<string>, name: string, rest: seq<string>)
    requires Options(before) && IsWord(name) && !IsAction(name) && FirstWord(rest).None?
    ensures Normalized(["extensions"] + (before + ([name] + rest)))
         == ["extensions", "show"] + (before + ([name] + rest))
  {
    hide IsWord, NextPositional, Options, FirstWord;
    var tokens := ["extensions"] + (before + ([name] + rest));
    WordBehindOptions(tokens, ["extensions"], before, name, rest);
    NextIsFirst(tokens, |before| + 2);
    assert tokens[..1] == ["extensions"] && tokens[1..] == before + ([name] + rest);
    assert ["extensions"] + ["show"] == ["extensions", "show"];
  }

  lemma ChangedCall(tokens: seq<string>)
    requires Normalized(tokens) != tokens
    ensures tokens != [] && tokens[0] == "extensions"
    ensures NextPositional(tokens, 1).Some? && !IsAction(tokens[NextPositional(tokens, 1).value])
  {
  }

  lemma SplitAt(s: seq<string>, k: nat)
    requires k < |s|
    ensures s == s[..k] + ([s[k]] + s[k + 1..])
  {
  }

  /** The only calls that change are name-first calls. */
  lemma OnlyNameFirstChanges(tokens: seq<string>) returns (before: seq<string>, name: string, rest: seq<string>)
    requires Normalized(tokens) != tokens
    ensures tokens == ["extensions"] + (before + ([name] + rest))
    ensures Options(before) && IsWord(name) && !IsAction(name)
  {
    hide *;
    ChangedCall(tokens);
    var tail := tokens[1..];
    NextIsFirst(tokens, 1);
    FirstWordParts(tail);
    NoShift(FirstWord(tail), 1);
    var k := FirstWord(tail).value;
    before, name, rest := tail[..k], tail[k], tail[k + 1..];
    SplitAt(tail, k);
    assert tokens == ["extensions"] + tail;
  }

  lemma NoShift(r: Option<nat>, n: nat)
    ensures Shift(r, n).Some? <==> r.Some?
    ensures r.Some? ==> Shift(r, n).value == n + r.value
  {
  }

  // ---------------------------------------------------------------- the place of the root options

  /** Whole options that name the target: no presentation among them. */
  predicate TargetOptions(s: seq<string>)
    ensures TargetOptions(s) ==> Options(s)
    decreases |s|
  {
    s == [] || (IsRootOption(s[0]) && !IsOutput(s[0]) && |s| >= Width(s[0]) && TargetOptions(s[Width(s[0])..]))
  }

  /** No command or group is named like an option. */
  predicate NoDashes(command: Command) {
    command.Leaf? || forall k <- command.choices :: !("-" <= k) && NoDashes(command.choices[k])
  }

  /** What the model needs of the command tree: alias targets are areas, Extension actions are leaves. */
  ghost predicate GoodTree(tree: Command) {
    && tree.Group? && NoDashes(tree)
    && (forall alias <- AREA_ALIASES :: AREA_ALIASES[alias] in tree.choices)
    && "extensions" in tree.choices && GoodExtensions(tree.choices["extensions"])
  }

  predicate GoodExtensions(group: Command) {
    && group.Group? && NoDashes(group) && group.choices.Keys == ACTIONS
    && forall k <- group.choices :: group.choices[k].Leaf?
  }

  lemma TargetFirst(options: seq<string>)
    requires options != [] && TargetOptions(options)
    ensures "-" <= options[0]
    ensures options[0] !in HELP_FLAGS && options[0] !in LIFECYCLE_FLAGS && options[0] !in AREA_ALIASES
    ensures options[0] != "extensions" && options[0] != "help"
    ensures options[0] != "--output" && !("--output=" <= options[0])
  {
    hide IsRootOption, IsOutput;
    OptionDashed(options[0]);
    OutputSpelled(options[0]);
  }

  lemma InsertedTokens(tokens: seq<string>, i: nat, more: seq<string>)
    requires i <= |tokens|
    ensures |InsertAt(tokens, i, more)| == |tokens| + |more|
    ensures InsertAt(tokens, i, more)[..i] == tokens[..i] && InsertAt(tokens, i, more)[i..] == more + tokens[i..]
    ensures forall j :: 0 <= j < i ==> InsertAt(tokens, i, more)[j] == tokens[j]
    ensures more != [] ==> InsertAt(tokens, i, more)[i] == more[0]
  {
  }

  /** Target options where the command's own arguments start do not change the selection. */
  lemma {:induction false} SelectInserted(command: Command, tokens: seq<string>, i: nat, options: seq<string>)
    requires i <= |tokens| && NoDashes(command) && options != [] && TargetOptions(options)
    ensures var (selected, end) := Select(command, tokens, i);
            Select(command, InsertAt(tokens, end, options), i) == (selected, end)
    decreases |tokens| - i
  {
    hide TargetOptions, InsertAt;
    TargetFirst(options);
    var end := Select(command, tokens, i).1;
    InsertedTokens(tokens, end, options);
    if i < |tokens| && command.Group? {
      if tokens[i] in command.choices {
        SelectInserted(command.choices[tokens[i]], tokens, i + 1, options);
      } else if tokens[i] == "--output" && i + 1 < |tokens| {
        SelectInserted(command, tokens, i + 2, options);
      } else if "--output=" <= tokens[i] {
        SelectInserted(command, tokens, i + 1, options);
      }
    }
  }

  /** A help flag stands where the selected command's own arguments start. */
  predicate HelpNext(tree: Command, call: seq<string>) {
    var end := Select(tree, call, 0).1;
    end < |call| && call[end] in HELP_FLAGS
  }

  /** The tokens end in the name of a group. */
  predicate BareGroup(tree: Command, call: seq<string>) {
    var (selected, end) := Select(tree, call, 0);
    end == |call| && selected.Group?
  }

  lemma PlacedSame(tree: Command, call: seq<string>, options: seq<string>)
    requires NoDashes(tree) && options != [] && TargetOptions(options)
    ensures Placed(tree, call, options) == Placed(tree, InsertAt(call, Select(tree, call, 0).1, options), [])
       <==> !HelpNext(tree, call) && !BareGroup(tree, call)
  {
    hide Select, TargetOptions, InsertAt, NoDashes;
    var (selected, end) := Select(tree, call, 0);
    var inserted := InsertAt(call, end, options);
    SelectInserted(tree, call, 0, options);
    TargetFirst(options);
    InsertedTokens(call, end, options);
    InsertedTokens(inserted, end, []);
    InsertedNothing(inserted, end);
    if HelpNext(tree, call) {
      InsertedTokens(call, end + 1, options);
    } else if BareGroup(tree, call) {
      InsertedTokens(call + ["--help"], end + 1, options);
    }
  }

  lemma InsertedNothing(tokens: seq<string>, i: nat)
    requires i <= |tokens|
    ensures InsertAt(tokens, i, []) == tokens
  {
  }

  /** Where a command line's own tokens end their command: behind the area in a name-first call. */
  function CommandEnd(tree: Command, tokens: seq<string>): nat {
    var call := Normalized(Aliased(tokens));
    if call != Aliased(tokens) then 1 else Select(tree, call, 0).1
  }

  lemma {:induction false} OptionsJoin(a: seq<string>, b: seq<string>)
    requires Options(a) && Options(b)
    ensures Options(a + b)
    decreases |a|
  {
    if a == [] {
      assert a + b == b;
    } else {
      hide IsRootOption;
      CutSum(a, b, Width(a[0]));
      OptionsJoin(a[Width(a[0])..], b);
    }
  }

  lemma InsertBehindTwo(a: string, b: string, more: seq<string>, rest: seq<string>)
    ensures InsertAt([a] + rest, 1, more) == [a] + (more + rest)
    ensures InsertAt([a, b] + rest, 2, more) == [a, b] + (more + rest)
  {
  }

  /** Options behind the area of a name-first call end up behind its action. */
  lemma NameFirstInserted(tokens: seq<string>, options: seq<string>)
    requires Normalized(tokens) != tokens && Options(options)
    ensures |tokens| >= 1 && |Normalized(tokens)| >= 2
    ensures Normalized(InsertAt(tokens, 1, options)) == InsertAt(Normalized(tokens), 2, options)
    ensures tokens[0] == "extensions" && Normalized(tokens)[0] == "extensions" && IsAction(Normalized(tokens)[1])
  {
    hide IsWord, NextPositional, Options, InsertAt, Normalized;
    var before, name, rest := OnlyNameFirstChanges(tokens);
    OptionsJoin(options, before);
    InsertBehindTwo("extensions", "", options, before + ([name] + rest));
    Seqs.SumAssociates(options, before, [name] + rest);
    if FirstWord(rest).None? {
      ShowCall(before, name, rest);
      ShowCall(options + before, name, rest);
      InsertBehindTwo("extensions", "show", options, before + ([name] + rest));
    } else {
      var k := FirstWord(rest).value;
      FirstWordParts(rest);
      var behind, operation, payload := rest[..k], rest[k], rest[k + 1..];
      assert rest == behind + ([operation] + payload);
      NameFirstCall(before, name, behind, operation, payload);
      NameFirstCall(options + before, name, behind, operation, payload);
      if operation in {"set", "operations"} {
        SetCallInserted(options, before, name, behind, operation, payload);
      } else {
        InsertBehindTwo("extensions", "run", options, before + ([name] + rest));
      }
    }
  }

  lemma SetCallInserted(options: seq<string>, before: seq<string>, name: string, behind: seq<string>, action: string,
                        payload: seq<string>)
    ensures InsertAt(["extensions", action] + (before + ([name] + behind)) + payload, 2, options)
         == ["extensions", action] + ((options + before) + ([name] + behind)) + payload
  {
  }

  lemma NextAfterOption(tokens: seq<string>, i: nat)
    requires i < |tokens| && IsOutput(tokens[i])
    ensures NextPositional(tokens, i) == NextPositional(tokens, i + Width(tokens[i]))
  {
  }

  lemma NextIsWord(tokens: seq<string>, i: nat)
    requires i < |tokens| && !IsRootOption(tokens[i]) && !("-" <= tokens[i])
    ensures NextPositional(tokens, i) == Some(i)
  {
  }

  lemma OptionsInsertedHere(tokens: seq<string>, i: nat, options: seq<string>)
    requires i <= |tokens| && Options(options)
    ensures NextPositional(InsertAt(tokens, i, options), i) == Shift(NextPositional(tokens, i), |options|)
  {
    hide Options, NextPositional, FirstWord, InsertAt;
    InsertedTokens(tokens, i, options);
    NextIsFirst(tokens, i);
    NextIsFirst(InsertAt(tokens, i, options), i);
    FirstWordSkips(options, tokens[i..]);
  }

  lemma SelectStep(group: Command, tokens: seq<string>, i: nat)
    requires i <= |tokens| && GoodExtensions(group)
    ensures var end := Select(group, tokens, i).1;
            || end == i
            || (i < |tokens| && end == i + 1 && !IsRootOption(tokens[i]) && !("-" <= tokens[i]))
            || (i < |tokens| && IsOutput(tokens[i]) && i + Width(tokens[i]) <= end
                && end == Select(group, tokens, i + Width(tokens[i])).1)
  {
    assert group.Group?;
    hide GoodExtensions, IsRootOption, IsOutput, HasValue;
    if i < |tokens| {
      if tokens[i] in group.choices {
        ActionWord(group, tokens[i]);
        SelectLeaf(group.choices[tokens[i]], tokens, i + 1);
      } else if tokens[i] == "--output" || "--output=" <= tokens[i] {
        OutputSpelled(tokens[i]);
        OutputWidth(tokens[i]);
      }
    }
  }

  /** Options where an Extension action's own arguments start leave the first word what it was. */
  lemma {:induction false} WordInserted(group: Command, tokens: seq<string>, i: nat, options: seq<string>)
    requires i <= |tokens| && TargetOptions(options) && GoodExtensions(group)
    ensures var end := Select(group, tokens, i).1;
            var word := NextPositional(tokens, i);
            NextPositional(InsertAt(tokens, end, options), i)
            == if word.Some? && word.value < end then word else Shift(word, |options|)
    decreases |tokens| - i
  {
    hide *;
    var end := Select(group, tokens, i).1;
    var inserted := InsertAt(tokens, end, options);
    InsertedTokens(tokens, end, options);
    SelectStep(group, tokens, i);
    if end == i {
      OptionsInsertedHere(tokens, i, options);
      NoShift(NextPositional(tokens, i), |options|);
    } else {
      assert inserted[i] == tokens[i];
      if !IsRootOption(tokens[i]) && !("-" <= tokens[i]) && end == i + 1 {
        NextIsWord(tokens, i);
        NextIsWord(inserted, i);
      } else {
        NextAfterOption(tokens, i);
        NextAfterOption(inserted, i);
        SomeWidth(tokens[i]);
        WordInserted(group, tokens, i + Width(tokens[i]), options);
      }
    }
  }

  lemma SomeWidth(token: string)
    ensures Width(token) > 0
  {
  }

  lemma OutputWidth(token: string)
    requires token == "--output" || "--output=" <= token
    ensures Width(token) == if token == "--output" then 2 else 1
  {
    assert "--output=" <= token ==> token[8] == '=';
  }

  lemma SelectLeaf(command: Command, tokens: seq<string>, i: nat)
    requires i <= |tokens| && command.Leaf?
    ensures Select(command, tokens, i) == (command, i)
  {
  }

  lemma ActionWord(group: Command, token: string)
    requires GoodExtensions(group) && token in group.choices
    ensures !IsRootOption(token) && !("-" <= token) && group.choices[token].Leaf?
  {
    hide IsRootOption;
    if IsRootOption(token) {
      OptionDashed(token);
    }
  }

  lemma UnchangedCall(call: seq<string>)
    requires call != [] && call[0] == "extensions"
    ensures Normalized(call) == call
       <==> NextPositional(call, 1).None? || IsAction(call[NextPositional(call, 1).value])
  {
    hide NextPositional;
    var name := NextPositional(call, 1);
    if name.Some? && !IsAction(call[name.value]) {
      var operation := NextPositional(call, name.value + 1);
      assert IsAction(Normalized(call)[1]);
      if Normalized(call) == call {
        assert IsAction(call[1]);
        assert name.value != 1;
        assert call[1] in {"show", "run", "set", "operations"};
        PlainWord(call[1]);
        NextIsWord(call, 1);
      }
    }
  }

  lemma InsertedLater(tokens: seq<string>, i: nat, more: seq<string>, j: nat)
    requires i <= j < |tokens|
    ensures |more| + j < |InsertAt(tokens, i, more)| && InsertAt(tokens, i, more)[|more| + j] == tokens[j]
  {
  }

  lemma ExtensionSelected(tree: Command, call: seq<string>)
    requires GoodTree(tree) && call != [] && call[0] == "extensions"
    ensures Select(tree, call, 0) == Select(tree.choices["extensions"], call, 1)
  {
  }

  lemma ActionCallInserted(group: Command, call: seq<string>, options: seq<string>)
    requires GoodExtensions(group) && TargetOptions(options)
    requires call != [] && call[0] == "extensions" && Normalized(call) == call
    ensures var end := Select(group, call, 1).1;
            Normalized(InsertAt(call, end, options)) == InsertAt(call, end, options)
  {
    hide *;
    var end := Select(group, call, 1).1;
    var inserted := InsertAt(call, end, options);
    InsertedTokens(call, end, options);
    WordInserted(group, call, 1, options);
    UnchangedCall(call);
    UnchangedCall(inserted);
    var word := NextPositional(call, 1);
    NoShift(word, |options|);
    if word.Some? && word.value >= end {
      InsertedLater(call, end, options, word.value);
    }
  }

  /** Options behind the selected command leave a call with an action what it is. */
  lemma OtherCallInserted(tree: Command, call: seq<string>, options: seq<string>)
    requires GoodTree(tree) && Normalized(call) == call && options != [] && TargetOptions(options)
    ensures var end := Select(tree, call, 0).1;
            Normalized(InsertAt(call, end, options)) == InsertAt(call, end, options)
  {
    hide Select, NextPositional, InsertAt, TargetOptions, NoDashes, GoodExtensions;
    var end := Select(tree, call, 0).1;
    if end > 0 && call[0] == "extensions" {
      ExtensionSelected(tree, call);
      ActionCallInserted(tree.choices["extensions"], call, options);
    } else {
      InsertedTokens(call, end, options);
      TargetFirst(options);
      assert InsertAt(call, end, options)[0] != "extensions";
    }
  }

  lemma AliasInserted(tokens: seq<string>, k: nat, options: seq<string>)
    requires 1 <= k <= |tokens|
    ensures Aliased(InsertAt(tokens, k, options)) == InsertAt(Aliased(tokens), k, options)
  {
  }

  lemma ActionSelected(tree: Command, call: seq<string>)
    requires GoodTree(tree) && |call| >= 2 && call[0] == "extensions" && IsAction(call[1])
    ensures Select(tree, call, 0).1 == 2
  {
    ExtensionSelected(tree, call);
    hide NoDashes, GoodTree;
    SelectLeaf(tree.choices["extensions"].choices[call[1]], call, 2);
  }

  lemma AliasSelected(tree: Command, tokens: seq<string>)
    requires GoodTree(tree) && tokens != [] && (tokens[0] in AREA_ALIASES || tokens[0] == "extensions")
    ensures Select(tree, Aliased(tokens), 0).1 > 0
  {
  }

  /** Options behind the command as it was written end up behind the command that was selected. */
  lemma CallInserted(tree: Command, tokens: seq<string>, options: seq<string>)
    requires GoodTree(tree) && options != [] && TargetOptions(options)
    ensures var call := Normalized(Aliased(tokens));
            && CommandEnd(tree, tokens) <= |tokens|
            && Normalized(Aliased(InsertAt(tokens, CommandEnd(tree, tokens), options)))
               == InsertAt(call, Select(tree, call, 0).1, options)
  {
    hide Select, NextPositional, InsertAt, Normalized, TargetOptions, GoodTree;
    var named := Aliased(tokens);
    var call := Normalized(named);
    if call != named {
      NameFirstInserted(named, options);
      AliasInserted(tokens, 1, options);
      ActionSelected(tree, call);
    } else {
      var end := Select(tree, call, 0).1;
      OtherCallInserted(tree, call, options);
      if end > 0 {
        AliasInserted(tokens, end, options);
      } else {
        FirstInserted(tree, tokens, options);
      }
    }
  }

  lemma FirstInserted(tree: Command, tokens: seq<string>, options: seq<string>)
    requires GoodTree(tree) && options != [] && TargetOptions(options)
    requires Select(tree, Aliased(tokens), 0).1 == 0
    ensures Aliased(InsertAt(tokens, 0, options)) == InsertAt(Aliased(tokens), 0, options)
  {
    hide Select, TargetOptions, GoodTree;
    TargetFirst(options);
    if tokens != [] && tokens[0] in AREA_ALIASES {
      AliasSelected(tree, tokens);
    }
    assert InsertAt(tokens, 0, options)[0] == options[0];
  }

  /** The root options can stand in either place: no help flag there, no bare group, no lifecycle flag. */
  predicate EitherPlace(tree: Command, tokens: seq<string>) {
    var call := Normalized(Aliased(tokens));
    !HelpNext(tree, call) && !BareGroup(tree, call) && !StartsLifecycle(call)
  }

  /**
    Target options taken from the front give the same tokens as the same options written behind the
    command, exactly when no help flag follows the command, the command is no bare group that gets
    one, and the line does not start with a lifecycle flag.
   */
  lemma SamePlace(tree: Command, tokens: seq<string>, options: seq<string>)
    requires GoodTree(tree) && options != [] && TargetOptions(options)
    ensures CommandEnd(tree, tokens) <= |tokens|
    ensures Arranged(tree, tokens, options) == Arranged(tree, InsertAt(tokens, CommandEnd(tree, tokens), options), [])
       <==> EitherPlace(tree, tokens)
  {
    var call := Normalized(Aliased(tokens));
    var end := Select(tree, call, 0).1;
    CallInserted(tree, tokens, options);
    PlacedSame(tree, call, options);
    InsertedStart(tree, call, options);
    hide Select, Normalized, Aliased, InsertAt, TargetOptions, GoodTree, Placed, HelpNext, BareGroup, CommandEnd;
  }

  lemma InsertedStart(tree: Command, call: seq<string>, options: seq<string>)
    requires GoodTree(tree) && options != [] && TargetOptions(options)
    ensures var end := Select(tree, call, 0).1;
            StartsLifecycle(InsertAt(call, end, options)) ==> end > 0 && StartsLifecycle(call)
    ensures StartsLifecycle(call) ==> Select(tree, call, 0).1 == 0
  {
    hide TargetOptions, GoodExtensions, InsertAt;
    TargetFirst(options);
    InsertedTokens(call, Select(tree, call, 0).1, options);
    if StartsLifecycle(call) {
      assert "-" <= call[0] && call[0][2] != 'o';
    }
  }

  /**
    On a command line that does not ask for `help`, target options in front of the area and the same
    options behind the command give the same result, exactly when they were in front of it anyway or
    both places are free of help flags, bare groups and lifecycle flags.
   */
  lemma OptionPosition(tree: Command, argv: seq<string>, options: seq<string>)
    requires GoodTree(tree) && options != [] && TargetOptions(options)
    requires StartsPlain(argv) && (argv != [] ==> argv[0] != "help")
    ensures CommandEnd(tree, argv) <= |argv|
    ensures Rewritten(tree, options + argv) == Rewritten(tree, InsertAt(argv, CommandEnd(tree, argv), options))
       <==> CommandEnd(tree, argv) == 0 || EitherPlace(tree, argv)
  {
    hide Arranged, EitherPlace, CommandEnd, Take, Options, TargetOptions, StartsPlain, GoodTree;
    SamePlace(tree, argv, options);
    TakenInFront(options, argv);
    var k := CommandEnd(tree, argv);
    if k == 0 {
      assert InsertAt(argv, 0, options) == options + argv;
    } else {
      InsertedTokens(argv, k, options);
      NothingTaken(argv, InsertAt(argv, k, options));
    }
  }

  lemma {:induction false} OnlyTargets(options: seq<string>)
    requires TargetOptions(options)
    ensures Targets(options) == options && LastOutput(options).None? && OutputsGood(options)
    decreases |options|
  {
    hide IsRootOption, IsOutput, HasValue, GoodOutput, ValueAt, Options;
    if options != [] {
      var width := Width(options[0]);
      OnlyTargets(options[width..]);
      assert options == options[..width] + options[width..];
    }
  }

  lemma TakenInFront(options: seq<string>, argv: seq<string>)
    requires TargetOptions(options) && StartsPlain(argv)
    ensures Take(Root(None, []), options + argv) == Ok((Root(None, options), argv))
  {
    hide Take, Options, TargetOptions, Targets, LastOutput, OutputsGood, StartsPlain;
    OnlyTargets(options);
    TakeAll(Root(None, []), options, argv);
    assert [] + options == options;
  }

  lemma NothingTaken(argv: seq<string>, other: seq<string>)
    requires argv != [] && StartsPlain(argv) && other != [] && other[0] == argv[0]
    ensures Take(Root(None, []), other) == Ok((Root(None, []), other))
  {
  }

  lemma {:induction false} SelectBeforeHelp(command: Command, tokens: seq<string>, i: nat)
    requires i < |tokens| && NoDashes(command) && tokens[|tokens| - 1] == "--help"
    requires |tokens| >= 2 ==> tokens[|tokens| - 2] != "--output"
    ensures Select(command, tokens, i).1 < |tokens|
    decreases |tokens| - i
  {
    assert "-" <= "--help";
    if command.Group? {
      if tokens[i] in command.choices {
        SelectBeforeHelp(command.choices[tokens[i]], tokens, i + 1);
      } else if tokens[i] == "--output" && i + 1 < |tokens| {
        SelectBeforeHelp(command, tokens, i + 2);
      } else if "--output=" <= tokens[i] {
        assert "--help"[2] != "--output="[2];
        SelectBeforeHelp(command, tokens, i + 1);
      }
    }
  }

  /** Unless a bare `--output` at its end takes the help flag for its value, the line holds the command's end. */
  lemma HelpEnd(tree: Command, path: seq<string>)
    requires GoodTree(tree) && (path != [] ==> path[|path| - 1] != "--output")
    ensures CommandEnd(tree, path + ["--help"]) <= |path|
  {
    var tokens := path + ["--help"];
    var named := Aliased(tokens);
    AliasKeepsEnd(tree, tokens);
    if Normalized(named) == named {
      hide Normalized, GoodExtensions, Aliased;
      SelectBeforeHelp(tree, named, 0);
    } else {
      hide NextPositional, GoodTree;
      assert named[0] == "extensions";
    }
  }

  /** An area's full name is no option, and the appended help flag is no area. */
  lemma AliasKeepsEnd(tree: Command, tokens: seq<string>)
    requires GoodTree(tree) && tokens != [] && tokens[|tokens| - 1] == "--help"
    ensures var named := Aliased(tokens);
            && |named| == |tokens| && named[|named| - 1] == "--help"
            && (|named| >= 2 && tokens[|named| - 2] != "--output" ==> named[|named| - 2] != "--output")
  {
    NoHelpAlias();
    assert "-" <= "--output";
    hide GoodExtensions;
  }

  lemma NoHelpAlias()
    ensures "--help" !in AREA_ALIASES
  {
  }

  lemma NoOption(word: string)
    requires '=' !in word && word !in ROOT_OPTIONS
    ensures !IsRootOption(word)
  {
    PlainName(word);
  }

  lemma RewrittenAs(tree: Command, argv: seq<string>, root: Root, rest: seq<string>)
    requires Take(Root(None, []), argv) == Ok((root, rest))
    ensures var arranged := Arranged(tree, HelpLast(rest), root.target);
            Rewritten(tree, argv) == if arranged.Err? then Err(arranged.error) else Ok((root.output, arranged.value))
  {
    hide Take, Arranged, HelpLast;
  }

  lemma HelpIsPlain(path: seq<string>)
    ensures StartsPlain(["help"] + path)
  {
    NoOption("help");
    hide IsRootOption;
  }

  lemma HelpMoved(path: seq<string>, k: nat, options: seq<string>)
    requires k <= |path|
    ensures HelpLast(["help"] + path) == path + ["--help"]
    ensures HelpLast(["help"] + InsertAt(path, k, options)) == InsertAt(path + ["--help"], k, options)
  {
    assert (["help"] + path)[1..] == path;
    assert (["help"] + InsertAt(path, k, options))[1..] == InsertAt(path, k, options);
  }

  /**
    The same for a command line that asks for `help`: behind the command, before what remains of the
    line, the options come out the same exactly when both places are free.
   */
  lemma HelpPosition(tree: Command, path: seq<string>, options: seq<string>)
    requires GoodTree(tree) && options != [] && TargetOptions(options)
    requires CommandEnd(tree, path + ["--help"]) <= |path|
    ensures Rewritten(tree, options + (["help"] + path))
         == Rewritten(tree, ["help"] + InsertAt(path, CommandEnd(tree, path + ["--help"]), options))
       <==> EitherPlace(tree, path + ["--help"])
  {
    hide *;
    var k := CommandEnd(tree, path + ["--help"]);
    var argv, other := ["help"] + path, ["help"] + InsertAt(path, k, options);
    HelpIsPlain(path);
    TakenInFront(options, argv);
    NothingTaken(argv, other);
    SamePlace(tree, path + ["--help"], options);
    HelpMoved(path, k, options);
    RewrittenAs(tree, options + argv, Root(None, options), argv);
    RewrittenAs(tree, other, Root(None, []), other);
  }

  /** A command line on which the place of an option matters: the help flag stays behind the command. */
  lemma HelpFlagMatters(tree: Command)
    requires GoodTree(tree)
    ensures var options := ["--port", "8420"];
            Rewritten(tree, options + ["extensions", "list", "--help"])
            != Rewritten(tree, ["extensions", "list"] + options + ["--help"])
  {
    var argv, options := ["extensions", "list", "--help"], ["--port", "8420"];
    assert InsertAt(argv, 2, options) == ["extensions", "list"] + options + ["--help"];
    assert argv[0] != "help";
    hide *;
    PortIsTarget(options);
    ListCall(tree, argv);
    OptionPosition(tree, argv, options);
  }

  lemma PortIsTarget(options: seq<string>)
    requires options == ["--port", "8420"]
    ensures TargetOptions(options)
  {
    PlainName("--port");
    assert options[2..] == [];
  }

  lemma ExtensionsIsArea()
    ensures "extensions" !in AREA_ALIASES && IsAction("list")
    ensures "extensions" !in ROOT_OPTIONS && "list" !in ROOT_OPTIONS
  {
  }

  lemma ListAlone(argv: seq<string>)
    requires argv == ["extensions", "list", "--help"]
    ensures Aliased(argv) == argv && StartsPlain(argv) && !IsRootOption("list") && IsAction("list")
  {
    ExtensionsIsArea();
    NoOption("extensions");
    NoOption("list");
    hide IsRootOption, IsAction;
  }

  lemma ListCall(tree: Command, argv: seq<string>)
    requires GoodTree(tree) && argv == ["extensions", "list", "--help"]
    ensures StartsPlain(argv) && CommandEnd(tree, argv) == 2 && !EitherPlace(tree, argv)
  {
    ListAlone(argv);
    hide Select, Normalized, Aliased, GoodTree, IsRootOption, IsAction, NextPositional, StartsPlain;
    NextIsWord(argv, 1);
    UnchangedCall(argv);
    ActionSelected(tree, argv);
    assert argv[2] in HELP_FLAGS;
    assert HelpNext(tree, argv);
  }
}
