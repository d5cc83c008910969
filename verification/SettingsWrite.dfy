/**
  Enabling and disabling Extensions: each command reads the shared settings section, computes its
  change and writes it based on what it read, retrying a few times when another writer was faster.
 */
module SettingsWrite {
  import opened Wrappers

  const WRITE_ATTEMPTS := 3

  /** The `extensions` section: the disabled names, and the config document as its leaves by path. */
  datatype Section = Section(disabled: seq<string>, config: map<string, string>)

  function Without(names: seq<string>, name: string): seq<string> {
    if names == [] then []
    else (if names[0] == name then [] else [names[0]]) + Without(names[1..], name)
  }

  /** The section a command writes, based on the one it read. */
  function Change(base: Section, name: string, disable: bool): Section {
    base.(disabled := if disable then base.disabled + [name] else Without(base.disabled, name))
  }

  function Leaf(config: map<string, string>, path: string): Option<string> {
    if path in config then Some(config[path]) else None
  }

  /**
    The server's check of a write based on `base`: a leaf the update would change must still have the
    value the writer believed it has.
   */
  ghost predicate Accepts(current: Section, base: Section, update: Section) {
    && (update.disabled == current.disabled || base.disabled == current.disabled)
    && (forall path: string ::
          || Leaf(update.config, path) == Leaf(current.config, path)
          || Leaf(base.config, path) == Leaf(current.config, path))
  }

  lemma {:induction false} WithoutHas(names: seq<string>, name: string, other: string)
    ensures name !in Without(names, name)
    ensures other != name ==> (other in Without(names, name) <==> other in names)
  {
    if names != [] {
      WithoutHas(names[1..], name, other);
      assert names == [names[0]] + names[1..];
    }
  }

  lemma {:induction false} WithoutTwice(names: seq<string>, name: string)
    ensures Without(Without(names, name), name) == Without(names, name)
  {
    if names != [] {
      WithoutTwice(names[1..], name);
      var rest := Without(names[1..], name);
      if names[0] == name {
        assert [] + rest == rest;
      } else {
        assert ([names[0]] + rest)[1..] == rest;
      }
    }
  }

  lemma {:induction false} WithoutAppend(a: seq<string>, b: seq<string>, name: string)
    ensures Without(a + b, name) == Without(a, name) + Without(b, name)
  {
    if a == [] {
      assert a + b == b;
    } else {
      assert (a + b)[1..] == a[1..] + b;
      WithoutAppend(a[1..], b, name);
    }
  }

  /** `after` differs from `before` in nothing but the switch of `name`. */
  predicate OnlySwitches(before: Section, after: Section, name: string, disable: bool) {
    && after.config == before.config
    && Without(after.disabled, name) == Without(before.disabled, name)
    && (name in after.disabled <==> disable)
  }

  lemma ChangeSwitches(base: Section, name: string, disable: bool)
    ensures OnlySwitches(base, Change(base, name, disable), name, disable)
  {
    WithoutHas(base.disabled, name, name);
    WithoutTwice(base.disabled, name);
    WithoutAppend(base.disabled, [name], name);
    assert Without([name], name) == [] by { assert [name][1..] == []; }
    assert Change(base, name, true).disabled[|base.disabled|] == name;
  }

  /**
    The server accepts a command's write exactly when the config is the one it read and the disabled
    names are either those it read or already those it wants.
   */
  lemma AcceptsIff(current: Section, base: Section, name: string, disable: bool)
    ensures Accepts(current, base, Change(base, name, disable)) <==>
              current.config == base.config
              && (current.disabled == base.disabled || current.disabled == Change(base, name, disable).disabled)
  {
    if Accepts(current, base, Change(base, name, disable)) {
      forall path: string
        ensures path in base.config <==> path in current.config
        ensures path in base.config ==> base.config[path] == current.config[path]
      {
        assert Leaf(base.config, path) == Leaf(current.config, path);
      }
    }
  }

  /** An accepted write keeps the config and all other names as they are now, whatever was read before. */
  lemma AcceptedWriteSwitchesOnlyName(current: Section, base: Section, name: string, disable: bool)
    requires Accepts(current, base, Change(base, name, disable))
    ensures OnlySwitches(current, Change(base, name, disable), name, disable)
  {
    AcceptsIff(current, base, name, disable);
    ChangeSwitches(base, name, disable);
  }

  lemma OtherNamesKept(before: Section, after: Section, name: string, disable: bool, other: string)
    requires OnlySwitches(before, after, name, disable) && other != name
    ensures other in after.disabled <==> other in before.disabled
  {
    WithoutHas(before.disabled, name, other);
    WithoutHas(after.disabled, name, other);
  }

  // ---------------------------------------------------------------- many writers in every interleaving

  /**
    A command between its requests. `LostReply` ended with a transport failure although the server
    had already applied its write.
   */
  datatype Phase = ToRead | ToWrite(base: Section) | Saved | NoChange | Conflicted | Failed | LostReply

  datatype Command = Command(name: string, disable: bool, phase: Phase, conflicts: nat, readAt: nat)

  /** `commits` counts the writes the server applied; `foreign` those of writers that are no such command. */
  datatype System = System(section: Section, commands: seq<Command>, commits: nat, foreign: nat)

  datatype Action = Read(i: nat) | Write(i: nat) | WriteReplyLost(i: nat) | Fail(i: nat) | Foreign(section: Section)

  function AfterRead(s: System, c: Command): Command {
    if (c.name in s.section.disabled) == c.disable then c.(phase := NoChange)
    else c.(phase := ToWrite(s.section), readAt := s.commits)
  }

  function AfterConflict(c: Command): Command {
    c.(conflicts := c.conflicts + 1, phase := if c.conflicts + 1 < WRITE_ATTEMPTS then ToRead else Conflicted)
  }

  ghost predicate Next(s: System, a: Action, t: System) {
    match a
    case Read(i) =>
      i < |s.commands| && s.commands[i].phase == ToRead
      && t == s.(commands := s.commands[i := AfterRead(s, s.commands[i])])
    case Write(i) =>
      i < |s.commands| && s.commands[i].phase.ToWrite?
      && var c := s.commands[i];
         var update := Change(c.phase.base, c.name, c.disable);
         if Accepts(s.section, c.phase.base, update) then
           t == s.(section := update, commits := s.commits + 1, commands := s.commands[i := c.(phase := Saved)])
         else
           t == s.(commands := s.commands[i := AfterConflict(c)])
    case WriteReplyLost(i) =>
      i < |s.commands| && s.commands[i].phase.ToWrite?
      && var c := s.commands[i];
         var update := Change(c.phase.base, c.name, c.disable);
         Accepts(s.section, c.phase.base, update)
         && t == s.(section := update, commits := s.commits + 1, commands := s.commands[i := c.(phase := LostReply)])
    case Fail(i) =>
      i < |s.commands| && (s.commands[i].phase.ToRead? || s.commands[i].phase.ToWrite?)
      && t == s.(commands := s.commands[i := s.commands[i].(phase := Failed)])
    case Foreign(section) =>
      t == s.(section := section, commits := s.commits + 1, foreign := s.foreign + 1)
  }

  ghost predicate Start(s: System) {
    s.commits == 0 && s.foreign == 0
    && forall i :: 0 <= i < |s.commands| ==>
         s.commands[i].phase == ToRead && s.commands[i].conflicts == 0
  }

  ghost predicate IsPath(states: seq<System>, actions: seq<Action>) {
    |states| == |actions| + 1
    && forall i :: 0 <= i < |actions| ==> Next(states[i], actions[i], states[i + 1])
  }

  /** Each conflict of a command used up a write of another writer since the command's last read. */
  predicate CommandInv(s: System, c: Command) {
    && (c.phase.ToRead? ==> c.conflicts <= s.commits && c.conflicts < WRITE_ATTEMPTS)
    && (c.phase.ToWrite? ==>
          c.conflicts <= c.readAt <= s.commits && c.conflicts < WRITE_ATTEMPTS
          && (c.readAt == s.commits ==> s.section == c.phase.base))
    && (c.phase.Conflicted? ==> WRITE_ATTEMPTS <= s.commits)
  }

  function AppliedBy(c: Command): nat {
    if c.phase.Saved? || c.phase.LostReply? then 1 else 0
  }

  function Applied(commands: seq<Command>): nat {
    if commands == [] then 0 else AppliedBy(commands[0]) + Applied(commands[1..])
  }

  ghost predicate Inv(s: System) {
    && (forall i :: 0 <= i < |s.commands| ==> CommandInv(s, s.commands[i]))
    && s.commits == s.foreign + Applied(s.commands)
  }

  lemma {:induction false} AppliedUpdate(commands: seq<Command>, i: nat, c: Command)
    requires i < |commands|
    ensures Applied(commands[i := c]) == Applied(commands) - AppliedBy(commands[i]) + AppliedBy(c)
  {
    if i == 0 {
      assert commands[0 := c][1..] == commands[1..];
    } else {
      assert commands[i := c][1..] == commands[1..][i - 1 := c];
      AppliedUpdate(commands[1..], i - 1, c);
    }
  }

  lemma OtherInv(s: System, a: Action, t: System, c: Command)
    requires CommandInv(s, c) && Next(s, a, t)
    ensures CommandInv(t, c)
  {
  }

  lemma ActorInv(s: System, a: Action, t: System)
    requires Inv(s) && Next(s, a, t) && !a.Foreign?
    ensures a.i < |t.commands| && CommandInv(t, t.commands[a.i])
  {
  }

  lemma NextInv(s: System, a: Action, t: System)
    requires Inv(s) && Next(s, a, t)
    ensures Inv(t)
  {
    if !a.Foreign? {
      ActorInv(s, a, t);
      AppliedUpdate(s.commands, a.i, t.commands[a.i]);
    }
    forall k | 0 <= k < |t.commands| ensures CommandInv(t, t.commands[k]) {
      if a.Foreign? || k != a.i {
        OtherInv(s, a, t, s.commands[k]);
      }
    }
  }

  lemma {:induction false} PathInv(states: seq<System>, actions: seq<Action>)
    requires IsPath(states, actions) && Start(states[0])
    ensures Inv(states[|actions|])
    decreases |actions|
  {
    if actions == [] {
      NoneApplied(states[0].commands);
    } else {
      var n := |actions| - 1;
      PathInv(states[..n + 1], actions[..n]);
      assert states[..n + 1][n] == states[n];
      NextInv(states[n], actions[n], states[n + 1]);
    }
  }

  lemma {:induction false} NoneApplied(commands: seq<Command>)
    requires forall c <- commands :: AppliedBy(c) == 0
    ensures Applied(commands) == 0
  {
    if commands != [] {
      NoneApplied(commands[1..]);
    }
  }

  lemma {:induction false} AppliedByOthers(commands: seq<Command>, i: nat)
    requires i < |commands|
    ensures Applied(commands) <= |commands| - 1 + AppliedBy(commands[i])
  {
    if |commands| > 1 {
      AppliedByOthers(commands[1..], if i == 0 then 0 else i - 1);
    }
    if i == 0 {
      AppliedBound(commands[1..]);
    }
  }

  lemma {:induction false} AppliedBound(commands: seq<Command>)
    ensures Applied(commands) <= |commands|
  {
    if commands != [] {
      AppliedBound(commands[1..]);
    }
  }

  /**
    In every interleaving a command gives up on conflicts only when at least three writes of others
    were applied meanwhile; so with at most two other commands and no foreign writer, none gives up.
   */
  lemma ConflictNeedsThreeOthers(states: seq<System>, actions: seq<Action>, i: nat)
    requires IsPath(states, actions) && Start(states[0])
    requires var end := states[|actions|]; i < |end.commands| && end.commands[i].phase.Conflicted?
    ensures var end := states[|actions|];
            end.foreign + Applied(end.commands) >= WRITE_ATTEMPTS && end.foreign + |end.commands| - 1 >= WRITE_ATTEMPTS
  {
    PathInv(states, actions);
    AppliedByOthers(states[|actions|].commands, i);
  }

  // ---------------------------------------------------------------- commands alone all take effect

  predicate DistinctNames(commands: seq<Command>) {
    forall i, j :: 0 <= i < j < |commands| ==> commands[i].name != commands[j].name
  }

  /** The command ended by finding or making its switch as asked. */
  predicate Effective(c: Command) {
    c.phase.Saved? || c.phase.NoChange? || c.phase.LostReply?
  }

  predicate Holds(section: Section, c: Command) {
    Effective(c) ==> (c.name in section.disabled <==> c.disable)
  }

  ghost predicate EffectsHold(s: System) {
    && DistinctNames(s.commands)
    && forall i :: 0 <= i < |s.commands| ==> Holds(s.section, s.commands[i])
  }

  lemma ActorHolds(s: System, a: Action, t: System)
    requires Next(s, a, t) && !a.Foreign? && Holds(s.section, s.commands[a.i])
    ensures Holds(t.section, t.commands[a.i])
    ensures t.section == s.section || OnlySwitches(s.section, t.section, s.commands[a.i].name, s.commands[a.i].disable)
    ensures t.commands == s.commands[a.i := t.commands[a.i]]
    ensures t.commands[a.i].name == s.commands[a.i].name
  {
    hide Change, Accepts;
    var c := s.commands[a.i];
    if c.phase.ToWrite? && Accepts(s.section, c.phase.base, Change(c.phase.base, c.name, c.disable)) {
      AcceptedWriteSwitchesOnlyName(s.section, c.phase.base, c.name, c.disable);
    }
  }

  lemma NextKeepsEffects(s: System, a: Action, t: System)
    requires EffectsHold(s) && Next(s, a, t) && !a.Foreign?
    ensures EffectsHold(t) && |t.commands| == |s.commands| && t.foreign == s.foreign
  {
    hide Change, Accepts, OnlySwitches;
    ActorHolds(s, a, t);
    var c := s.commands[a.i];
    forall k | 0 <= k < |t.commands| ensures Holds(t.section, t.commands[k]) {
      if k != a.i && t.section != s.section {
        assert s.commands[k].name != c.name;
        OtherNamesKept(s.section, t.section, c.name, c.disable, s.commands[k].name);
      }
    }
  }

  lemma {:induction false} PathKeepsEffects(states: seq<System>, actions: seq<Action>)
    requires IsPath(states, actions) && Start(states[0]) && DistinctNames(states[0].commands)
    requires forall a <- actions :: !a.Foreign?
    ensures EffectsHold(states[|actions|]) && |states[|actions|].commands| == |states[0].commands|
    ensures states[|actions|].foreign == 0
    decreases |actions|
  {
    if actions != [] {
      var n := |actions| - 1;
      PathKeepsEffects(states[..n + 1], actions[..n]);
      assert states[..n + 1][n] == states[n] && states[..n + 1][0] == states[0];
      NextKeepsEffects(states[n], actions[n], states[n + 1]);
    }
  }

  /**
    Up to three commands on distinct names, run at the same time in any interleaving without other
    writers and without failing requests, all take effect once each has ended.
   */
  lemma AllTakeEffect(states: seq<System>, actions: seq<Action>)
    requires IsPath(states, actions) && Start(states[0]) && DistinctNames(states[0].commands)
    requires |states[0].commands| <= WRITE_ATTEMPTS
    requires forall a <- actions :: !a.Foreign?
    requires var end := states[|actions|];
             forall c <- end.commands :: !c.phase.ToRead? && !c.phase.ToWrite? && !c.phase.Failed?
    ensures var end := states[|actions|];
            forall c <- end.commands :: c.name in end.section.disabled <==> c.disable
  {
    PathKeepsEffects(states, actions);
    var end := states[|actions|];
    forall c <- end.commands ensures Effective(c) {
      var i :| 0 <= i < |end.commands| && end.commands[i] == c;
      if c.phase.Conflicted? {
        ConflictNeedsThreeOthers(states, actions, i);
        assert false;
      }
    }
  }

  // ---------------------------------------------------------------- the command's own loop

  /** One write the server applied: by this command, or by another writer. */
  datatype Commit = Commit(section: Section, mine: bool)

  datatype Reply = Accepted | Conflict | Failure

  /** What the command got for one of its requests. */
  datatype Answer = ReadAs(section: Section) | Written(update: Section) | Refused(update: Section) | NoAnswer

  datatype Outcome = UnknownName | AlreadySo | Switched | GaveUp | RequestFailed

  /** `after` continues `before` with writes of others only. */
  predicate OnlyOthers(before: seq<Commit>, after: seq<Commit>) {
    before <= after && forall i :: |before| <= i < |after| ==> !after[i].mine
  }

  /** The server's settings as one command meets them: other writers act before each of its requests. */
  class SettingsServer {
    var section: Section
    var history: seq<Commit>
    var answers: seq<Answer>

    /** The last write made the section; the first entry stands for the section at the start. */
    predicate Valid()
      reads this
    {
      history != [] && history[|history| - 1].section == section
    }

    constructor (section: Section)
      ensures Valid() && this.section == section
    {
      this.section := section;
      history, answers := [Commit(section, false)], [];
    }

    method OthersWrite()
      requires Valid()
      modifies this`section, this`history
      ensures Valid() && OnlyOthers(old(history), history)
    {
      var writes: seq<Section> := *;
      for i := 0 to |writes|
        invariant Valid() && OnlyOthers(old(history), history)
      {
        section := writes[i];
        history := history + [Commit(section, false)];
      }
    }

    method Values() returns (read: Option<Section>)
      requires Valid()
      modifies this
      ensures Valid() && OnlyOthers(old(history), history)
      ensures read.Some? ==> read.value == section
      ensures answers == old(answers) + [if read.Some? then ReadAs(read.value) else NoAnswer]
    {
      OthersWrite();
      var reachable: bool := *;
      read := if reachable then Some(section) else None;
      answers := answers + [if reachable then ReadAs(section) else NoAnswer];
    }

    /** The leaf-by-leaf comparison, over the leaves any of the three documents has. */
    method AcceptsNow(base: Section, update: Section) returns (accepted: bool)
      ensures accepted <==> Accepts(section, base, update)
    {
      var paths := section.config.Keys + base.config.Keys + update.config.Keys;
      accepted :=
        && (update.disabled == section.disabled || base.disabled == section.disabled)
        && (forall path <- paths ::
              Leaf(update.config, path) == Leaf(section.config, path)
              || Leaf(base.config, path) == Leaf(section.config, path));
    }

    /** Others write up to `before`; then the server applies or refuses the update, or is not reached. */
    method Update(base: Section, update: Section) returns (ghost before: seq<Commit>, reply: Reply)
      requires Valid()
      modifies this
      ensures Valid() && before != [] && OnlyOthers(old(history), before)
      ensures var at := before[|before| - 1].section;
              && (reply == Accepted ==> Accepts(at, base, update) && history == before + [Commit(update, true)])
              && (reply == Conflict ==> !Accepts(at, base, update) && history == before)
              && (reply == Failure ==>
                    history == before || (Accepts(at, base, update) && history == before + [Commit(update, true)]))
      ensures answers == old(answers) + [AnswerFor(update, reply)]
    {
      OthersWrite();
      before := history;
      var delivered: bool, answered: bool := *, *;
      if !delivered {
        answers := answers + [NoAnswer];
        return before, Failure;
      }
      var accepted := AcceptsNow(base, update);
      if accepted {
        section := update;
        history := history + [Commit(update, true)];
      }
      reply := if !answered then Failure else if accepted then Accepted else Conflict;
      answers := answers + [AnswerFor(update, reply)];
    }
  }

  function AnswerFor(update: Section, reply: Reply): Answer {
    match reply
    case Accepted => Written(update)
    case Conflict => Refused(update)
    case Failure => NoAnswer
  }

  /** The section read leaves something to change. */
  predicate ToChange(answer: Answer, name: string, disable: bool) {
    answer.ReadAs? && (name in answer.section.disabled) != disable
  }

  /** `n` rounds, in each of which the section was read and the change of what was read refused. */
  predicate Rounds(answers: seq<Answer>, n: nat, name: string, disable: bool) {
    2 * n <= |answers|
    && forall k :: 0 <= k < n ==>
         ToChange(answers[2 * k], name, disable)
         && answers[2 * k + 1] == Refused(Change(answers[2 * k].section, name, disable))
  }

  /** The outcome of a command is what the answers to its requests say, after `n` refused rounds. */
  predicate SaidBy(answers: seq<Answer>, n: nat, name: string, disable: bool, outcome: Outcome) {
    n <= WRITE_ATTEMPTS && Rounds(answers, n, name, disable)
    && var last := answers[2 * n..];
       match outcome
       case UnknownName => answers == []
       case GaveUp => n == WRITE_ATTEMPTS && last == []
       case AlreadySo => |last| == 1 && last[0].ReadAs? && !ToChange(last[0], name, disable)
       case Switched =>
         |last| == 2 && ToChange(last[0], name, disable) && last[1] == Written(Change(last[0].section, name, disable))
       case RequestFailed =>
         last == [NoAnswer] || (|last| == 2 && ToChange(last[0], name, disable) && last[1] == NoAnswer)
  }

  /** The writes of this command since `start`: each switches `name` alone on the section it met. */
  predicate SwitchesOnly(start: nat, history: seq<Commit>, name: string, disable: bool) {
    forall i :: 1 <= start <= i < |history| && history[i].mine ==>
      OnlySwitches(history[i - 1].section, history[i].section, name, disable)
  }

  method SetDisabled(server: SettingsServer, known: set<string>, name: string, disable: bool)
    returns (outcome: Outcome, ghost rounds: nat)
    requires server.Valid()
    modifies server
    ensures server.Valid() && old(server.history) <= server.history && old(server.answers) <= server.answers
    // The command reports what its requests were answered.
    ensures SaidBy(server.answers[|old(server.answers)|..], rounds, name, disable, outcome)
    // Whatever the outcome, the command changed nothing but the switch of `name`.
    ensures SwitchesOnly(|old(server.history)|, server.history, name, disable)
    ensures outcome == UnknownName <==> name !in known
    ensures outcome == Switched ==> server.history[|server.history| - 1].mine
    ensures outcome == UnknownName || outcome == AlreadySo || outcome == GaveUp ==>
              OnlyOthers(old(server.history), server.history)
    ensures outcome == AlreadySo ==> (name in server.section.disabled <==> disable)
    // It gives up only when another write came between its read and its write three times.
    ensures outcome == GaveUp ==> |server.history| >= |old(server.history)| + WRITE_ATTEMPTS
  {
    hide Accepts, OnlySwitches, Change, Rounds, SaidBy;
    rounds := 0;
    NothingSaid(name, disable);
    assert server.answers[|server.answers|..] == [];
    if name !in known {
      return UnknownName, 0;
    }
    for attempt := 0 to WRITE_ATTEMPTS
      invariant server.Valid() && OnlyOthers(old(server.history), server.history)
      invariant |server.history| >= |old(server.history)| + attempt
      invariant rounds == attempt && old(server.answers) <= server.answers
      invariant |server.answers| == |old(server.answers)| + 2 * rounds
      invariant Rounds(server.answers[|old(server.answers)|..], rounds, name, disable)
      invariant rounds == WRITE_ATTEMPTS ==>
                  SaidBy(server.answers[|old(server.answers)|..], rounds, name, disable, GaveUp)
    {
      ghost var answers := server.answers[|old(server.answers)|..];
      assert |answers| == 2 * rounds;
      var read := server.Values();
      SaysAfter(answers, rounds, read, name, disable);
      assert server.answers[|old(server.answers)|..] == answers + [if read.Some? then ReadAs(read.value) else NoAnswer];
      if read.None? {
        return RequestFailed, rounds;
      }
      var base := read.value;
      if (name in base.disabled) == disable {
        return AlreadySo, rounds;
      }
      var before, reply := server.Update(base, Change(base, name, disable));
      assert server.answers[|old(server.answers)|..]
          == answers + [ReadAs(base), AnswerFor(Change(base, name, disable), reply)];
      SaysLast(answers, rounds, base, reply, name, disable);
      WriteOutcome(old(server.history), before, server.history, base, name, disable);
      if reply != Conflict {
        return if reply == Accepted then Switched else RequestFailed, rounds;
      }
      AcceptsIff(before[|before| - 1].section, base, name, disable);
      rounds := rounds + 1;
    }
    outcome := GaveUp;
  }

  lemma NothingSaid(name: string, disable: bool)
    ensures SaidBy([], 0, name, disable, UnknownName) && Rounds([], 0, name, disable)
  {
  }

  /** After `n` refused rounds: what an unanswered read, and a section with nothing to change, come to. */
  lemma SaysAfter(answers: seq<Answer>, n: nat, read: Option<Section>, name: string, disable: bool)
    requires n < WRITE_ATTEMPTS && |answers| == 2 * n && Rounds(answers, n, name, disable)
    ensures var more := answers + [if read.Some? then ReadAs(read.value) else NoAnswer];
            && (read.None? ==> SaidBy(more, n, name, disable, RequestFailed))
            && (read.Some? && (name in read.value.disabled) == disable ==> SaidBy(more, n, name, disable, AlreadySo))
  {
    hide Change;
    var more := answers + [if read.Some? then ReadAs(read.value) else NoAnswer];
    assert more[..2 * n] == answers && more[2 * n..] == [more[2 * n]];
  }

  lemma SaysLast(answers: seq<Answer>, n: nat, base: Section, reply: Reply, name: string, disable: bool)
    requires n < WRITE_ATTEMPTS && |answers| == 2 * n && Rounds(answers, n, name, disable)
    requires (name in base.disabled) != disable
    ensures var more := answers + [ReadAs(base), AnswerFor(Change(base, name, disable), reply)];
            && (reply.Accepted? ==> SaidBy(more, n, name, disable, Switched))
            && (reply.Failure? ==> SaidBy(more, n, name, disable, RequestFailed))
            && (reply.Conflict? ==>
                  Rounds(more, n + 1, name, disable)
                  && (n + 1 == WRITE_ATTEMPTS ==> SaidBy(more, n + 1, name, disable, GaveUp)))
  {
    hide Change;
    var more := answers + [ReadAs(base), AnswerFor(Change(base, name, disable), reply)];
    assert more[..2 * n] == answers && more[2 * n..] == [more[2 * n], more[2 * n + 1]];
  }

  lemma WriteOutcome(
      start: seq<Commit>, before: seq<Commit>, after: seq<Commit>, base: Section, name: string, disable: bool)
    requires start != [] && OnlyOthers(start, before)
    requires var update := Change(base, name, disable);
             after == before
             || (Accepts(before[|before| - 1].section, base, update) && after == before + [Commit(update, true)])
    ensures start <= after && SwitchesOnly(|start|, after, name, disable)
  {
    if after != before {
      AcceptedWriteSwitchesOnlyName(before[|before| - 1].section, base, name, disable);
    }
  }
}
