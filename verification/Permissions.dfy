/** What the permission flags of `agent create` and `agent update` make of an agent's own rules. */
module Permissions {
  import opened Wrappers
  import opened Json

  /** A stored rule set by part. */
  type Rules = map<string, Value>

  datatype Preset = FullAccess | WorkDir | WorkDirReadOnly

  datatype PermissionEdit = PermissionEdit(
    rules: Option<Rules>, preset: Option<Preset>, allow: seq<Value>, deny: seq<Value>, clear: bool)

  const PARTS := {"read", "write", "commands", "web", "allow", "deny"}

  /** The parts a preset sets. */
  function Definition(preset: Preset): Rules {
    match preset
    case FullAccess =>
      map["read" := Str("anywhere"), "write" := Str("anywhere"), "commands" := Str("any"), "web" := Str("any"),
          "allow" := Arr([]), "deny" := Arr([])]
    case WorkDir => map["read" := Str("work_area"), "write" := Str("work_area")]
    case WorkDirReadOnly => map["read" := Str("work_area"), "write" := Str("scratch")]
  }

  /** The rules without `commands` and `web` and parts that are null, then the preset's parts set. */
  function ApplyPreset(preset: Preset, rules: Rules): Rules {
    (map part | part in rules && rules[part] != Null && part != "commands" && part != "web" :: rules[part])
    + Definition(preset)
  }

  function Listed(rules: Rules, part: string): seq<Value> {
    if part in rules && rules[part].Arr? then rules[part].items else []
  }

  function WithAdded(rules: Rules, part: string, added: seq<Value>): Rules {
    if added == [] then rules else rules[part := Arr(Listed(rules, part) + added)]
  }

  function Applied(edit: PermissionEdit, current: Option<Rules>): Option<Rules> {
    if edit.clear then None
    else
      var own := if edit.rules.Some? then edit.rules.value else if current.Some? then current.value else map[];
      var based := if edit.preset.Some? then ApplyPreset(edit.preset.value, own) else own;
      Some(WithAdded(WithAdded(based, "allow", edit.allow), "deny", edit.deny))
  }

  predicate KeepsCurrent(edit: PermissionEdit) {
    !edit.clear && edit.rules.None? && edit.preset != Some(FullAccess)
  }

  method Apply(edit: PermissionEdit, current: Option<Rules>) returns (result: Option<Rules>)
    ensures result == Applied(edit, current)
  {
    if edit.clear { return None; }
    var rules: Rules := map[];
    if edit.rules.Some? {
      rules := edit.rules.value;
    } else if current.Some? {
      rules := current.value;
    }
    if edit.preset.Some? {
      rules := ApplyPreset(edit.preset.value, rules);
    }
    if edit.allow != [] {
      rules := rules["allow" := Arr(Listed(rules, "allow") + edit.allow)];
    }
    if edit.deny != [] {
      rules := rules["deny" := Arr(Listed(rules, "deny") + edit.deny)];
    }
    result := Some(rules);
  }

  /** Every part of the rules is one a rule set may name. */
  predicate OnlyKnownParts(rules: Rules) {
    forall part <- rules :: part in PARTS || rules[part] == Null
  }

  lemma FullAccessReplaces(rules: Rules)
    ensures ApplyPreset(FullAccess, rules) == Definition(FullAccess) <==> OnlyKnownParts(rules)
  {
    var applied := ApplyPreset(FullAccess, rules);
    if applied == Definition(FullAccess) {
      forall part | part in rules && rules[part] != Null ensures part in PARTS {
        assert part in applied || part == "commands" || part == "web";
      }
    }
  }

  /**
    Not reading the current rules of an agent when the edit replaces them makes no difference, unless
    full access without other rules meets a stored part that no rule set may name.
   */
  lemma ReadingIsNeeded(edit: PermissionEdit, current: Rules)
    requires !KeepsCurrent(edit)
    ensures Applied(edit, None) == Applied(edit, Some(current))
       <==> edit.clear || edit.rules.Some? || OnlyKnownParts(current)
  {
    if !edit.clear && edit.rules.None? {
      hide Definition;
      FullAccessReplaces(current);
      FullAccessReplaces(map[]);
      AddedApart(ApplyPreset(FullAccess, current), edit, current);
    }
  }

  lemma AddedApart(based: Rules, edit: PermissionEdit, current: Rules)
    requires based == ApplyPreset(FullAccess, current)
    ensures WithAdded(WithAdded(based, "allow", edit.allow), "deny", edit.deny)
         == WithAdded(WithAdded(Definition(FullAccess), "allow", edit.allow), "deny", edit.deny)
       <==> OnlyKnownParts(current)
  {
    FullAccessReplaces(current);
    if !OnlyKnownParts(current) {
      var part :| part in current && part !in PARTS && current[part] != Null;
      assert part in WithAdded(WithAdded(based, "allow", edit.allow), "deny", edit.deny);
      assert part !in WithAdded(WithAdded(Definition(FullAccess), "allow", edit.allow), "deny", edit.deny);
    }
  }

  /**
    An edit that keeps the current rules only appends to their allow and deny lists; a preset beside it
    decides reading, writing, commands and web, and nothing else changes.
   */
  lemma RulesKept(edit: PermissionEdit, current: Rules, part: string)
    requires KeepsCurrent(edit) && part in current && current[part] != Null
    ensures var after := Applied(edit, Some(current)).value;
            && (part !in PARTS ==> part in after && after[part] == current[part])
            && (part in {"allow", "deny"} && current[part].Arr? ==>
                  part in after && after[part].Arr? && current[part].items <= after[part].items)
            && (part in {"read", "write", "commands", "web"} && edit.preset.None? ==>
                  part in after && after[part] == current[part])
            && (part in {"commands", "web"} && edit.preset.Some? ==> part !in after)
  {
  }

  /** A stored part that no rule set may name survives full access only if the current rules are read. */
  lemma UnknownPartMatters()
    ensures var edit := PermissionEdit(None, Some(FullAccess), [], [], false);
            var current: Rules := map["legacy" := Str("x")];
            !KeepsCurrent(edit) && Applied(edit, None) != Applied(edit, Some(current))
  {
    var edit := PermissionEdit(None, Some(FullAccess), [], [], false);
    var current: Rules := map["legacy" := Str("x")];
    assert !OnlyKnownParts(current) by { assert "legacy" in current; }
    hide Applied, OnlyKnownParts;
    ReadingIsNeeded(edit, current);
  }
}
