/**
  Python's whitespace and `str.strip`, with the facts about prefixes that
  holding back a possibly silent answer relies on.
 */
module PyText {

  /** The characters Python's `str.isspace` accepts. */
  predicate IsSpace(c: char) {
    || '\t' <= c <= '\r'
    || '\U{1c}' <= c <= ' '
    || c == '\U{85}' || c == '\U{a0}' || c == '\U{1680}'
    || '\U{2000}' <= c <= '\U{200a}'
    || c == '\U{2028}' || c == '\U{2029}' || c == '\U{202f}' || c == '\U{205f}' || c == '\U{3000}'
  }

  ghost predicate AllSpace(s: string) {
    forall i :: 0 <= i < |s| ==> IsSpace(s[i])
  }

  function LStrip(s: string): string {
    if s != "" && IsSpace(s[0]) then LStrip(s[1..]) else s
  }

  function RStrip(s: string): string {
    if s != "" && IsSpace(s[|s| - 1]) then RStrip(s[..|s| - 1]) else s
  }

  function Strip(s: string): string {
    RStrip(LStrip(s))
  }

  /** Text without outer whitespace. */
  predicate Tight(s: string) {
    s != "" ==> !IsSpace(s[0]) && !IsSpace(s[|s| - 1])
  }

  lemma {:induction false} LStripParts(s: string) returns (before: string)
    ensures s == before + LStrip(s) && AllSpace(before)
    ensures LStrip(s) != "" ==> !IsSpace(LStrip(s)[0])
  {
    before := "";
    if s != "" && IsSpace(s[0]) {
      before := LStripParts(s[1..]);
      before := [s[0]] + before;
    }
  }

  lemma {:induction false} RStripParts(s: string) returns (after: string)
    ensures s == RStrip(s) + after && AllSpace(after)
    ensures RStrip(s) != "" ==> !IsSpace(RStrip(s)[|RStrip(s)| - 1])
  {
    after := "";
    if s != "" && IsSpace(s[|s| - 1]) {
      after := RStripParts(s[..|s| - 1]);
      after := after + [s[|s| - 1]];
    }
  }

  /** Stripping splits a text into outer whitespace and a core without any. */
  lemma StripParts(s: string) returns (before: string, core: string, after: string)
    ensures core == Strip(s) && Tight(core)
    ensures s == before + (core + after)
    ensures AllSpace(before) && AllSpace(after)
  {
    hide LStrip, RStrip;
    before := LStripParts(s);
    after := RStripParts(LStrip(s));
    core := Strip(s);
    assert core != "" ==> core[0] == LStrip(s)[0];
  }

  lemma {:induction false} LStripSpaces(a: string, s: string)
    requires AllSpace(a)
    ensures LStrip(a + s) == LStrip(s)
  {
    if a == "" {
      assert a + s == s;
    } else {
      assert (a + s)[1..] == a[1..] + s;
      LStripSpaces(a[1..], s);
    }
  }

  lemma {:induction false} RStripSpaces(s: string, b: string)
    requires AllSpace(b)
    ensures RStrip(s + b) == RStrip(s)
  {
    if b == "" {
      assert s + b == s;
    } else {
      assert (s + b)[..|s + b| - 1] == s + b[..|b| - 1];
      RStripSpaces(s, b[..|b| - 1]);
    }
  }

  /** Stripping a text whose core carries no outer whitespace gives the core. */
  lemma StripPadded(before: string, core: string, after: string)
    requires AllSpace(before) && AllSpace(after)
    requires Tight(core)
    ensures Strip(before + core + after) == core
  {
    assert before + core + after == before + (core + after);
    LStripSpaces(before, core + after);
    if core == "" {
      assert core + after == after + "";
      LStripSpaces(after, "");
    } else {
      assert (core + after)[0] == core[0];
      RStripSpaces(core, after);
    }
  }

  lemma StripOfCutCore(before: string, core: string, k: nat)
    requires AllSpace(before) && k <= |core|
    requires core != "" ==> !IsSpace(core[0])
    ensures Strip(before + core[..k]) <= core
  {
    LStripSpaces(before, core[..k]);
    var cut := RStripParts(core[..k]);
    assert core[..k] <= core;
  }

  lemma PrefixOfSum(p: string, a: string, b: string)
    requires p <= a + b
    ensures |p| <= |a| ==> p == a[..|p|]
    ensures |p| > |a| ==> p == a + b[..|p| - |a|]
  {
  }

  lemma StripOfCutText(p: string, before: string, core: string, after: string)
    requires AllSpace(before) && AllSpace(after)
    requires Tight(core)
    requires p <= before + (core + after)
    ensures Strip(p) <= core
  {
    PrefixOfSum(p, before, core + after);
    if |p| <= |before| {
      assert p == p + "" + "";
      StripPadded(p, "", "");
    } else {
      var rest := p[|before|..];
      PrefixOfSum(rest, core, after);
      if |rest| <= |core| {
        StripOfCutCore(before, core, |rest|);
      } else {
        assert p == before + core + after[..|rest| - |core|];
        StripPadded(before, core, after[..|rest| - |core|]);
      }
    }
  }

  /** Every prefix of a text strips to a prefix of what the whole text strips to. */
  lemma StripOfPrefix(p: string, s: string)
    requires p <= s
    ensures Strip(p) <= Strip(s)
  {
    hide Strip;
    var before, core, after := StripParts(s);
    StripOfCutText(p, before, core, after);
  }
}
