/** Listing every page of the archive, with a guard against cursors that repeat. */
module ArchiveListing {
  import opened Wrappers
  import opened Json
  import JsonProofs

  datatype Failure = Refused | NoEntries | BadCursor | NotAdvanced

  /** One answer of the server; a missing next cursor is JSON null. */
  datatype Reply = Failed(failure: Failure) | Page(entries: seq<Value>, next: Value, retention: Value)

  datatype Listing = Listing(entries: seq<Value>, next: Option<Value>, retention: Value)

  /** The server's answer to the n-th request, which may carry a cursor. */
  type Server = (nat, Option<Value>) -> Reply

  function AsCursor(next: Value): Option<Value> {
    if next.Obj? then Some(next) else None
  }

  /** The cursor of the k-th request, when each request carries on where the one before ended. */
  function CursorAt(server: Server, first: Option<Value>, k: nat): Option<Value>
    decreases k, 0
  {
    if k == 0 then first
    else
      var reply := ReplyAt(server, first, k - 1);
      if reply.Page? then AsCursor(reply.next) else None
  }

  function ReplyAt(server: Server, first: Option<Value>, k: nat): Reply
    decreases k, 1
  {
    server(k, CursorAt(server, first, k))
  }

  /** The entries of the first n pages. */
  function Entries(server: Server, first: Option<Value>, n: nat): seq<Value> {
    if n == 0 then []
    else
      var reply := ReplyAt(server, first, n - 1);
      Entries(server, first, n - 1) + if reply.Page? then reply.entries else []
  }

  /** All cursors the server ever hands out are among `cursors`. */
  ghost predicate HandsOut(server: Server, cursors: set<Value>) {
    && (forall c <- cursors :: Canonical(c))
    && (forall n: nat, c :: server(n, c).Page? && server(n, c).next.Obj? ==> server(n, c).next in cursors)
  }

  lemma {:induction false} SubsetSize(a: set<Value>, b: set<Value>)
    requires a <= b
    ensures |a| <= |b|
    decreases a
  {
    if a != {} {
      var x :| x in a;
      SubsetSize(a - {x}, b - {x});
    }
  }

  /** Cursors have the same key text exactly when they are the same. */
  lemma KeysDiffer(a: Value, b: Value)
    requires Canonical(a) && Canonical(b)
    ensures Dumps(a) == Dumps(b) <==> a == b
  {
    JsonProofs.LoadsDumps(a);
    JsonProofs.LoadsDumps(b);
  }

  /** The first n requests were answered by pages, each after the first with a cursor never handed out before. */
  ghost predicate Advanced(server: Server, first: Option<Value>, n: nat) {
    && (forall k :: 0 <= k < n ==> ReplyAt(server, first, k).Page?)
    && (forall k :: 1 <= k < n ==> CursorAt(server, first, k).Some?)
    && (forall j, k :: 1 <= j < k < n ==> CursorAt(server, first, j) != CursorAt(server, first, k))
  }

  /** One of the first n answers handed out this cursor. */
  ghost predicate HandedBefore(server: Server, first: Option<Value>, n: nat, c: Value) {
    exists k :: 1 <= k <= n && CursorAt(server, first, k) == Some(c)
  }

  /** The cursors the first n answers handed out, each recorded by its key text. */
  ghost predicate Recorded(server: Server, first: Option<Value>, n: nat, handed: set<Value>, seen: set<string>) {
    && |handed| == n && (forall c <- handed :: Canonical(c))
    && (forall k :: 1 <= k <= n ==> CursorAt(server, first, k).Some? && CursorAt(server, first, k).value in handed)
    && (forall c <- handed :: HandedBefore(server, first, n, c))
    && (forall key <- seen :: exists c :: c in handed && Dumps(c) == key)
    && (forall c <- handed :: Dumps(c) in seen)
  }

  lemma KeyUnseen(server: Server, first: Option<Value>, n: nat, handed: set<Value>, seen: set<string>, cursor: Value)
    requires Recorded(server, first, n, handed, seen) && Canonical(cursor)
    ensures Dumps(cursor) in seen <==> cursor in handed
  {
    hide Dumps, Canonical, CursorAt;
    if Dumps(cursor) in seen {
      var c :| c in handed && Dumps(c) == Dumps(cursor);
      KeysDiffer(c, cursor);
    }
  }

  lemma RecordNext(server: Server, first: Option<Value>, n: nat, handed: set<Value>, seen: set<string>, cursor: Value)
    requires Recorded(server, first, n, handed, seen) && Canonical(cursor) && cursor !in handed
    requires CursorAt(server, first, n + 1) == Some(cursor)
    ensures Recorded(server, first, n + 1, handed + {cursor}, seen + {Dumps(cursor)})
  {
    hide Dumps, Canonical, CursorAt;
    var more := handed + {cursor};
    forall c | c in more ensures HandedBefore(server, first, n + 1, c) {
      if c != cursor {
        var k :| 1 <= k <= n && CursorAt(server, first, k) == Some(c);
      }
    }
    forall key | key in seen + {Dumps(cursor)} ensures exists c :: c in more && Dumps(c) == key {
      if key in seen {
        var c :| c in handed && Dumps(c) == key;
        assert c in more;
      } else {
        assert cursor in more;
      }
    }
  }

  lemma Counted(server: Server, first: Option<Value>, n: nat, handed: set<Value>, seen: set<string>,
                cursors: set<Value>)
    requires Recorded(server, first, n, handed, seen) && handed <= cursors
    ensures n == |handed| <= |cursors|
  {
    hide CursorAt, Dumps, Canonical;
    SubsetSize(handed, cursors);
  }

  lemma HandedOut(server: Server, cursors: set<Value>, n: nat, c: Option<Value>)
    requires HandsOut(server, cursors) && server(n, c).Page? && server(n, c).next.Obj?
    ensures server(n, c).next in cursors && Canonical(server(n, c).next)
  {
  }

  lemma FromRecord(server: Server, first: Option<Value>, n: nat, handed: set<Value>, seen: set<string>, cursor: Value)
    requires Recorded(server, first, n, handed, seen)
    ensures cursor in handed <==> HandedBefore(server, first, n, cursor)
  {
  }

  /** The request after a page carries on with its next cursor. */
  lemma NextRequest(server: Server, first: Option<Value>, n: nat)
    ensures ReplyAt(server, first, n) == server(n, CursorAt(server, first, n))
    ensures var reply := ReplyAt(server, first, n);
            reply.Page? ==>
              && CursorAt(server, first, n + 1) == AsCursor(reply.next)
              && Entries(server, first, n + 1) == Entries(server, first, n) + reply.entries
  {
  }

  /** The n-th request carries a cursor that no request before it got as an answer. */
  ghost predicate Fresh(server: Server, first: Option<Value>, n: nat) {
    n > 0 ==> CursorAt(server, first, n).Some? && !HandedBefore(server, first, n - 1, CursorAt(server, first, n).value)
  }

  lemma NothingYet(server: Server, first: Option<Value>)
    ensures CursorAt(server, first, 0) == first && Entries(server, first, 0) == []
    ensures Advanced(server, first, 0) && Fresh(server, first, 0) && Recorded(server, first, 0, {}, {})
  {
  }

  lemma FreshNext(server: Server, first: Option<Value>, n: nat, c: Value)
    requires CursorAt(server, first, n + 1) == Some(c) && !HandedBefore(server, first, n, c)
    ensures Fresh(server, first, n + 1)
  {
  }

  lemma AdvanceNext(server: Server, first: Option<Value>, n: nat)
    requires Advanced(server, first, n) && ReplyAt(server, first, n).Page?
    requires Fresh(server, first, n)
    ensures Advanced(server, first, n + 1)
  {
  }

  /** Why the n-th answer stops the listing: it is a refusal, or its next cursor is none, or none that is new. */
  ghost predicate StopsFor(server: Server, first: Option<Value>, n: nat, allPages: bool, failure: Failure) {
    match ReplyAt(server, first, n)
    case Failed(reason) => failure == reason
    case Page(_, next, _) =>
      if next.Obj? then allPages && failure == NotAdvanced && HandedBefore(server, first, n, next)
      else next != Null && failure == BadCursor
  }

  lemma StopsAt(server: Server, first: Option<Value>, n: nat, allPages: bool)
    ensures var reply := ReplyAt(server, first, n);
            && (reply.Failed? ==> StopsFor(server, first, n, allPages, reply.failure))
            && (reply.Page? && reply.next != Null && !reply.next.Obj? ==>
                  StopsFor(server, first, n, allPages, BadCursor))
            && (reply.Page? && reply.next.Obj? && allPages && HandedBefore(server, first, n, reply.next) ==>
                  StopsFor(server, first, n, allPages, NotAdvanced))
  {
    hide ReplyAt, HandedBefore;
  }

  /**
    Lists one page, or all of them. `fetches` counts the requests: with all pages asked for, at most one
    more than there are cursors.
   */
  method ArchiveList(server: Server, first: Option<Value>, allPages: bool, ghost cursors: set<Value>)
    returns (r: Result<Listing, Failure>, fetches: nat)
    requires HandsOut(server, cursors)
    ensures 1 <= fetches <= |cursors| + 1 && (!allPages ==> fetches == 1)
    ensures r.Ok? ==>
      && Advanced(server, first, fetches)
      && r.value.entries == Entries(server, first, fetches)
      && r.value.next == CursorAt(server, first, fetches)
      && r.value.retention == ReplyAt(server, first, fetches - 1).retention
      && (allPages ==> r.value.next.None? && ReplyAt(server, first, fetches - 1).next == Null)
    ensures r.Err? ==> Advanced(server, first, fetches - 1) && StopsFor(server, first, fetches - 1, allPages, r.error)
  {
    hide *;
    NothingYet(server, first);
    var entries: seq<Value>, seen: set<string>, cursor := [], {}, first;
    ghost var handed: set<Value> := {};
    fetches := 0;
    while true
      invariant cursor == CursorAt(server, first, fetches) && entries == Entries(server, first, fetches)
      invariant Advanced(server, first, fetches) && (!allPages ==> fetches == 0)
      invariant Fresh(server, first, fetches)
      invariant handed <= cursors && Recorded(server, first, fetches, handed, seen)
      decreases |cursors| - |handed|
    {
      ghost var n := fetches;
      Counted(server, first, n, handed, seen, cursors);
      NextRequest(server, first, n);
      var payload := server(fetches, cursor);
      fetches := fetches + 1;
      if payload.Failed? {
        StopsAt(server, first, n, allPages);
        return Err(payload.failure), fetches;
      }
      entries := entries + payload.entries;
      if payload.next != Null && !payload.next.Obj? {
        StopsAt(server, first, n, allPages);
        return Err(BadCursor), fetches;
      }
      cursor := if payload.next.Obj? then Some(payload.next) else None;
      SameCursor(payload.next);
      AdvanceNext(server, first, n);
      if cursor.None? || !allPages {
        return Ok(Listing(entries, cursor, payload.retention)), fetches;
      }
      var key := Dumps(cursor.value);
      HandedOut(server, cursors, n, CursorAt(server, first, n));
      KeyUnseen(server, first, n, handed, seen, cursor.value);
      FromRecord(server, first, n, handed, seen, cursor.value);
      if key in seen {
        StopsAt(server, first, n, allPages);
        return Err(NotAdvanced), fetches;
      }
      RecordNext(server, first, n, handed, seen, cursor.value);
      FreshNext(server, first, n, cursor.value);
      seen := seen + {key};
      handed := handed + {cursor.value};
      Counted(server, first, fetches, handed, seen, cursors);
    }
  }

  lemma SameCursor(next: Value)
    ensures AsCursor(next) == if next.Obj? then Some(next) else None
  {
  }
}
