/** Reading a log file backwards, page by page, until enough entries match. */
module LogPaging {
  import opened Wrappers
  import Seqs

  datatype Entry = Entry(level: Option<string>, text: string)

  /** A log file by byte offset: the visible entry that starts at an offset, if one does. */
  type LogFile = seq<Option<Entry>>

  datatype Failure = Refused | Malformed

  /** One answer of the server: a page of entries, and the offset to read on from. */
  datatype Reply = Failed(failure: Failure) | Page(entries: seq<Entry>, next: Option<nat>)

  function Visible(file: LogFile): seq<Entry> {
    if file == [] then [] else (if file[0].Some? then [file[0].value] else []) + Visible(file[1..])
  }

  /** The end of the range a request asks for: the offset it names, or the end of the file. */
  function End(file: LogFile, before: Option<nat>): nat {
    if before.Some? && before.value < |file| then before.value else |file|
  }

  /** A page holds the visible entries between its next offset, or the file's start, and its end. */
  ghost predicate PageOf(file: LogFile, before: Option<nat>, reply: Reply) {
    reply.Page? ==>
      var start := if reply.next.Some? then reply.next.value else 0;
      && (reply.next.Some? ==> 0 < start < End(file, before))
      && reply.entries == Visible(file[start..End(file, before)])
  }

  /** Every answer the server gives is a page of the file, or a failure. */
  ghost predicate Serves(reply: Option<nat> -> Reply, file: LogFile) {
    forall before :: PageOf(file, before, reply(before))
  }

  predicate Matches(level: Option<string>, e: Entry) {
    level.Some? ==> e.level == level
  }

  function Matching(level: Option<string>, entries: seq<Entry>): seq<Entry> {
    if entries == [] then []
    else (if Matches(level, entries[0]) then [entries[0]] else []) + Matching(level, entries[1..])
  }

  function Last(entries: seq<Entry>, limit: int): seq<Entry> {
    if limit <= 0 || limit >= |entries| then entries else entries[|entries| - limit..]
  }

  /** What is shown: the entries, how many matched so far, and whether older ones were left unread. */
  datatype Shown = Shown(entries: seq<Entry>, count: nat, more: bool)

  lemma {:induction false} VisibleAppend(a: LogFile, b: LogFile)
    ensures Visible(a + b) == Visible(a) + Visible(b)
  {
    if a == [] {
      assert a + b == b;
    } else {
      Seqs.TailOfSum(a, b);
      VisibleAppend(a[1..], b);
      Seqs.SumAssociates(if a[0].Some? then [a[0].value] else [], Visible(a[1..]), Visible(b));
    }
  }

  lemma {:induction false} MatchingAppend(level: Option<string>, a: seq<Entry>, b: seq<Entry>)
    ensures Matching(level, a + b) == Matching(level, a) + Matching(level, b)
  {
    hide Matches;
    if a == [] {
      assert a + b == b;
    } else {
      Seqs.TailOfSum(a, b);
      MatchingAppend(level, a[1..], b);
      Seqs.SumAssociates(if Matches(level, a[0]) then [a[0]] else [], Matching(level, a[1..]), Matching(level, b));
    }
  }

  /** The matching entries from an offset on. */
  function MatchingFrom(file: LogFile, level: Option<string>, start: nat): seq<Entry>
    requires start <= |file|
  {
    Matching(level, Visible(file[start..]))
  }

  /** A page put before what was read so far extends it to the page's start. */
  lemma PageExtends(file: LogFile, level: Option<string>, start: nat, end: nat)
    requires start <= end <= |file|
    ensures Matching(level, Visible(file[start..end])) + MatchingFrom(file, level, end)
         == MatchingFrom(file, level, start)
  {
    assert file[start..] == file[start..end] + file[end..];
    VisibleAppend(file[start..end], file[end..]);
    MatchingAppend(level, Visible(file[start..end]), Visible(file[end..]));
  }

  lemma LastOfSum(a: seq<Entry>, b: seq<Entry>, limit: int)
    requires a == [] || 0 < limit <= |b|
    ensures Last(a + b, limit) == Last(b, limit)
  {
    assert a == [] ==> a + b == b;
  }

  /** Entries read from the end of the file already show its last ones once there are enough of them. */
  lemma LastOfAll(file: LogFile, level: Option<string>, start: nat, limit: int)
    requires start <= |file| && (start == 0 || 0 < limit <= |MatchingFrom(file, level, start)|)
    ensures Last(MatchingFrom(file, level, start), limit) == Last(Matching(level, Visible(file)), limit)
    ensures |MatchingFrom(file, level, start)| <= |Matching(level, Visible(file))|
  {
    var older := Matching(level, Visible(file[0..start]));
    assert start == 0 ==> file[0..start] == [] && older == [];
    hide Visible, Matching, Last;
    PageExtends(file, level, 0, start);
    assert file[0..] == file;
    LastOfSum(older, MatchingFrom(file, level, start), limit);
  }

  /**
    Reads pages back from the end. The entries shown are the last `limit` matching ones of the whole
    file, or all of them for a limit that is not positive; a total without a remark is the full count.
   */
  method LogRead(reply: Option<nat> -> Reply, limit: int, level: Option<string>, ghost file: LogFile)
    returns (r: Result<Shown, Failure>)
    requires Serves(reply, file)
    ensures r.Ok? ==>
      && r.value.entries == Last(Matching(level, Visible(file)), limit)
      && (!r.value.more ==> r.value.count == |Matching(level, Visible(file))|)
      && (r.value.more ==> 0 < limit <= r.value.count <= |Matching(level, Visible(file))|)
    ensures r.Err? ==> exists before :: reply(before) == Failed(r.error)
  {
    var before: Option<nat> := None;
    var matching: seq<Entry> := [];
    var more := true;
    ghost var end := |file|;
    assert file[|file|..] == [];
    while true
      invariant end <= |file| && End(file, before) == end
      invariant matching == MatchingFrom(file, level, end)
      decreases end
    {
      hide Visible, Matching;
      var payload := reply(before);
      assert PageOf(file, before, payload);
      if payload.Failed? { return Err(payload.failure); }
      ghost var start := if payload.next.Some? then payload.next.value else 0;
      PageExtends(file, level, start, end);
      matching := Matching(level, payload.entries) + matching;
      more := payload.next.Some?;
      end := start;
      if !more || 0 < limit <= |matching| { break; }
      before := payload.next;
    }
    LastOfAll(file, level, end, limit);
    r := Ok(Shown(Last(matching, limit), |matching|, more));
  }
}
