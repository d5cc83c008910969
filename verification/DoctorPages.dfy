/** The pages of a configuration check: sorted findings, as many at a time as the text budget allows. */
module DoctorPages {
  import opened Wrappers
  import opened Json
  import opened Quoting

  datatype Severity = Error | Warning

  datatype Finding = Finding(file: string, severity: Severity, path: string, message: string, recommendation: string)

  const TEXT_BUDGET := 10000
  const PREVIEW_LIMIT := 1000
  const PREVIEW_MARK := "... [preview; use --json for full text]"

  // ---------------------------------------------------------------- the text of a finding

  function Preview(u: Unicode, value: string): string {
    var text := InlineText(u, value);
    if |text| <= PREVIEW_LIMIT then text else text[..PREVIEW_LIMIT] + PREVIEW_MARK
  }

  function SeverityText(severity: Severity): string {
    if severity.Error? then "error" else "warning"
  }

  function FormatFinding(u: Unicode, f: Finding): string {
    Preview(u, f.file) + ":\n- " + SeverityText(f.severity) + " " + Preview(u, f.path) + ": " + Preview(u, f.message)
    + "\n  Recommendation: " + Preview(u, f.recommendation)
  }

  /** The room one finding takes, with its line break. */
  function Size(u: Unicode, f: Finding): nat {
    |FormatFinding(u, f)| + 1
  }

  lemma PreviewBound(u: Unicode, value: string)
    ensures |Preview(u, value)| <= 1039
  {
  }

  /** Long texts are cut so that no finding needs more than its share of the budget. */
  lemma SizeBound(u: Unicode, f: Finding)
    ensures Size(u, f) <= 4190
  {
  }

  // ---------------------------------------------------------------- the order of the findings

  /** Errors first, then by file and path. */
  predicate Precedes(a: Finding, b: Finding) {
    || (a.severity.Error? && b.severity.Warning?)
    || (a.severity == b.severity && (Less(a.file, b.file) || (a.file == b.file && Less(a.path, b.path))))
  }

  predicate SameKey(a: Finding, b: Finding) {
    a.severity == b.severity && a.file == b.file && a.path == b.path
  }

  /** Before the findings that do not precede it. */
  function Insert(f: Finding, sorted: seq<Finding>): seq<Finding> {
    if sorted == [] || !Precedes(sorted[0], f) then [f] + sorted else [sorted[0]] + Insert(f, sorted[1..])
  }

  function Sort(findings: seq<Finding>): seq<Finding> {
    if findings == [] then [] else Insert(findings[0], Sort(findings[1..]))
  }

  predicate Sorted(s: seq<Finding>) {
    forall i, j :: 0 <= i < j < |s| ==> !Precedes(s[j], s[i])
  }

  lemma {:induction false} LessOrder(a: string, b: string, c: string)
    ensures !(Less(a, b) && Less(b, a))
    ensures Less(a, b) && !Less(c, b) ==> Less(a, c)
    ensures !Less(a, b) && !Less(b, a) ==> a == b
  {
    if a != "" && b != "" && a[0] == b[0] {
      assert a == [a[0]] + a[1..] && b == [b[0]] + b[1..];
      LessOrder(a[1..], b[1..], if c == "" then c else c[1..]);
    }
  }

  lemma PrecedesOrder(a: Finding, b: Finding, c: Finding)
    ensures !(Precedes(a, b) && Precedes(b, a))
    ensures Precedes(a, b) && !Precedes(c, b) ==> Precedes(a, c)
  {
    LessOrder(a.file, b.file, c.file);
    LessOrder(b.file, c.file, a.file);
    LessOrder(a.path, b.path, c.path);
  }

  lemma {:induction false} InsertPermutes(f: Finding, s: seq<Finding>)
    ensures multiset(Insert(f, s)) == multiset([f] + s)
  {
    hide Precedes;
    if s != [] && Precedes(s[0], f) {
      InsertPermutes(f, s[1..]);
      assert s == [s[0]] + s[1..];
    }
  }

  lemma {:induction false} InsertAbove(low: Finding, f: Finding, s: seq<Finding>)
    requires !Precedes(f, low) && forall j :: 0 <= j < |s| ==> !Precedes(s[j], low)
    ensures forall j :: 0 <= j < |Insert(f, s)| ==> !Precedes(Insert(f, s)[j], low)
  {
    hide Precedes;
    if s != [] && Precedes(s[0], f) {
      InsertAbove(low, f, s[1..]);
    }
  }

  lemma SortedCons(f: Finding, s: seq<Finding>)
    requires Sorted(s) && forall j :: 0 <= j < |s| ==> !Precedes(s[j], f)
    ensures Sorted([f] + s)
  {
  }

  lemma {:induction false} InsertSorted(f: Finding, s: seq<Finding>)
    requires Sorted(s)
    ensures Sorted(Insert(f, s))
  {
    hide Precedes;
    if s != [] && Precedes(s[0], f) {
      InsertSorted(f, s[1..]);
      PrecedesOrder(s[0], f, f);
      InsertAbove(s[0], f, s[1..]);
      SortedCons(s[0], Insert(f, s[1..]));
    } else {
      forall j | 0 <= j < |s| ensures !Precedes(s[j], f) {
        PrecedesOrder(s[j], f, s[0]);
      }
      SortedCons(f, s);
    }
  }

  /** Sorting gives all findings in order. */
  lemma {:induction false} SortSorts(findings: seq<Finding>)
    ensures Sorted(Sort(findings)) && multiset(Sort(findings)) == multiset(findings)
  {
    hide Sorted, Insert;
    if findings == [] {
      assert Sorted(Sort([])) by { NothingSorted(); }
    } else {
      SortSorts(findings[1..]);
      InsertSorted(findings[0], Sort(findings[1..]));
      InsertPermutes(findings[0], Sort(findings[1..]));
      assert findings == [findings[0]] + findings[1..];
    }
  }

  lemma NothingSorted()
    ensures Sorted([])
  {
  }

  /** The findings that share a key with `f`, in their order. */
  function Alike(findings: seq<Finding>, f: Finding): seq<Finding> {
    if findings == [] then []
    else (if SameKey(findings[0], f) then [findings[0]] else []) + Alike(findings[1..], f)
  }

  lemma {:induction false} InsertStable(f: Finding, s: seq<Finding>, g: Finding)
    ensures Alike(Insert(f, s), g) == (if SameKey(f, g) then [f] else []) + Alike(s, g)
  {
    if s != [] && Precedes(s[0], f) {
      InsertStable(f, s[1..], g);
      if SameKey(s[0], g) && SameKey(f, g) {
        PrecedesOrder(s[0], f, f);
        PrecedesOrder(f, s[0], f);
        assert false;
      }
    }
  }

  /** Findings of the same severity, file and path stay in the order the check reported them. */
  lemma {:induction false} SortStable(findings: seq<Finding>, g: Finding)
    ensures Alike(Sort(findings), g) == Alike(findings, g)
  {
    if findings != [] {
      SortStable(findings[1..], g);
      InsertStable(findings[0], Sort(findings[1..]), g);
    }
  }

  // ---------------------------------------------------------------- one page

  const PAGE_BUDGET := TEXT_BUDGET - 2000

  /** How many findings fit; the first one is taken in any case. */
  function Fitting(u: Unicode, s: seq<Finding>, remaining: int, some: bool): (n: nat)
    ensures n <= |s|
  {
    if s == [] || (some && Size(u, s[0]) > remaining) then 0
    else 1 + Fitting(u, s[1..], remaining - Size(u, s[0]), true)
  }

  function Window(findings: seq<Finding>, offset: nat, limit: nat): seq<Finding> {
    if offset >= |findings| then []
    else if offset + limit >= |findings| then findings[offset..]
    else findings[offset..offset + limit]
  }

  /** JSON keeps the whole window; text as much of it as the budget allows. */
  function Page(u: Unicode, findings: seq<Finding>, offset: nat, limit: nat, json: bool): seq<Finding> {
    var window := Window(findings, offset, limit);
    if json then window else window[..Fitting(u, window, PAGE_BUDGET, false)]
  }

  function NextOffset(total: nat, offset: nat, shown: nat): Option<nat> {
    if offset + shown < total then Some(offset + shown) else None
  }

  function TotalSize(u: Unicode, s: seq<Finding>): nat {
    if s == [] then 0 else Size(u, s[0]) + TotalSize(u, s[1..])
  }

  method SelectFindings(u: Unicode, findings: seq<Finding>, offset: nat, limit: nat, json: bool)
    returns (selected: seq<Finding>, next: Option<nat>)
    ensures selected == Page(u, findings, offset, limit, json)
    ensures next == NextOffset(|findings|, offset, |selected|)
  {
    hide FormatFinding;
    var window := Window(findings, offset, limit);
    selected := window;
    if !json {
      var remaining: int := PAGE_BUDGET;
      selected := [];
      var i := 0;
      while i < |window|
        invariant 0 <= i <= |window| && selected == window[..i]
        invariant i + Fitting(u, window[i..], remaining, selected != []) == Fitting(u, window, PAGE_BUDGET, false)
        invariant remaining >= 0 && remaining <= PAGE_BUDGET && (selected == [] ==> remaining == PAGE_BUDGET)
      {
        var size := Size(u, window[i]);
        if selected != [] && size > remaining { break; }
        SizeBound(u, window[i]);
        assert window[i..][1..] == window[i + 1..];
        selected := selected + [window[i]];
        remaining := remaining - size;
        i := i + 1;
      }
    }
    next := NextOffset(|findings|, offset, |selected|);
  }

  lemma {:induction false} FittingIs(u: Unicode, s: seq<Finding>, remaining: int, some: bool)
    requires !some && s != [] ==> Size(u, s[0]) <= remaining
    requires remaining >= 0
    ensures var n := Fitting(u, s, remaining, some);
            && TotalSize(u, s[..n]) <= remaining
            && (n < |s| ==> TotalSize(u, s[..n + 1]) > remaining)
  {
    hide Size;
    if s != [] && !(some && Size(u, s[0]) > remaining) {
      FittingIs(u, s[1..], remaining - Size(u, s[0]), true);
      var n := Fitting(u, s, remaining, some);
      assert s[..n][1..] == s[1..][..n - 1];
      if n < |s| {
        assert s[..n + 1][1..] == s[1..][..n];
      }
    } else if s != [] {
      assert s[..1][1..] == [];
    }
  }

  /**
    A page of text is the longest part of its window that fits the budget: the first finding, taken
    without a check, always does, and no page is empty before the end.
   */
  lemma PageFillsBudget(u: Unicode, findings: seq<Finding>, offset: nat, limit: nat)
    requires limit >= 1
    ensures var page, window := Page(u, findings, offset, limit, false), Window(findings, offset, limit);
            && page <= window
            && TotalSize(u, page) <= 8000
            && (|page| < |window| ==> TotalSize(u, window[..|page| + 1]) > 8000)
            && (page == [] <==> offset >= |findings|)
  {
    hide Size;
    var window := Window(findings, offset, limit);
    if window != [] {
      SizeBound(u, window[0]);
    }
    FittingIs(u, window, PAGE_BUDGET, false);
  }

  // ---------------------------------------------------------------- all pages

  /** The pages of following each page's next offset with the same limit. */
  function Walk(u: Unicode, findings: seq<Finding>, offset: nat, limit: nat, json: bool): seq<seq<Finding>>
    requires limit >= 1
    decreases if offset < |findings| then |findings| - offset else 0
  {
    var page := Page(u, findings, offset, limit, json);
    var next := NextOffset(|findings|, offset, |page|);
    if next.None? || page == [] then [page] else [page] + Walk(u, findings, next.value, limit, json)
  }

  function Concat(pages: seq<seq<Finding>>): seq<Finding> {
    if pages == [] then [] else pages[0] + Concat(pages[1..])
  }

  lemma PageStarts(u: Unicode, findings: seq<Finding>, offset: nat, limit: nat, json: bool)
    requires limit >= 1 && offset < |findings|
    ensures var page := Page(u, findings, offset, limit, json);
            page != [] && offset + |page| <= |findings| && page == findings[offset..offset + |page|]
  {
  }

  /**
    Following the next offsets shows every finding from the start exactly once, in order, without an
    empty page, and ends after at most one page for each finding.
   */
  lemma {:induction false} WalkShowsAll(u: Unicode, findings: seq<Finding>, offset: nat, limit: nat, json: bool)
    requires limit >= 1 && offset < |findings|
    ensures var pages := Walk(u, findings, offset, limit, json);
            && Concat(pages) == findings[offset..]
            && 1 <= |pages| <= |findings| - offset
            && forall i :: 0 <= i < |pages| ==> pages[i] != []
    decreases |findings| - offset
  {
    hide Page;
    PageStarts(u, findings, offset, limit, json);
    var page := Page(u, findings, offset, limit, json);
    var next := offset + |page|;
    if next < |findings| {
      WalkShowsAll(u, findings, next, limit, json);
      assert findings[offset..] == page + findings[next..];
    } else {
      assert Concat([page]) == page + [] == page;
    }
  }

  /** A whole check, page by page: every finding that was reported once, errors first. */
  lemma CheckShowsAll(u: Unicode, found: seq<Finding>, limit: nat, json: bool)
    requires limit >= 1
    ensures var shown := Concat(Walk(u, Sort(found), 0, limit, json));
            multiset(shown) == multiset(found) && Sorted(shown)
  {
    hide Sort, Sorted, Page;
    SortSorts(found);
    var findings := Sort(found);
    if findings != [] {
      WalkShowsAll(u, findings, 0, limit, json);
      assert findings[0..] == findings;
    } else {
      NoPage(u, limit, json);
    }
  }

  lemma NoPage(u: Unicode, limit: nat, json: bool)
    requires limit >= 1
    ensures Walk(u, [], 0, limit, json) == [[]] && Concat([[]]) == []
  {
  }
}
