/** Reordering the Agent roster from a partial order. */
module Roster {
  import opened Wrappers
  import Seqs

  datatype Error = DuplicateIds | ListingFailed | UnknownIds(ids: seq<string>)

  predicate Distinct(ids: seq<string>) {
    forall i, j :: 0 <= i < j < |ids| ==> ids[i] != ids[j]
  }

  /** The ids that are not among `others`, in order. */
  function Without(ids: seq<string>, others: seq<string>): seq<string> {
    if ids == [] then [] else (if ids[0] in others then [] else [ids[0]]) + Without(ids[1..], others)
  }

  /** The listed ids first, then the rest of the roster. */
  function NewOrder(listed: seq<string>, roster: seq<string>): seq<string> {
    listed + Without(roster, listed)
  }

  /** The ids a listing names; rows without one are passed over. */
  function Ids(rows: seq<Option<string>>): seq<string> {
    if rows == [] then [] else (if rows[0].Some? then [rows[0].value] else []) + Ids(rows[1..])
  }

  lemma {:induction false} IdsAppend(rows: seq<Option<string>>, row: Option<string>)
    ensures Ids(rows + [row]) == Ids(rows) + if row.Some? then [row.value] else []
  {
    if rows == [] {
      assert [row][1..] == [];
    } else {
      Seqs.TailOfSum(rows, [row]);
      IdsAppend(rows[1..], row);
      var first := if rows[0].Some? then [rows[0].value] else [];
      Seqs.SumAssociates(first, Ids(rows[1..]), if row.Some? then [row.value] else []);
    }
  }

  lemma {:induction false} WithoutNone(ids: seq<string>, others: seq<string>)
    ensures Without(ids, others) == [] <==> forall i :: 0 <= i < |ids| ==> ids[i] in others
  {
    if ids != [] {
      WithoutNone(ids[1..], others);
      assert ids == [ids[0]] + ids[1..];
    }
  }

  /**
    The order to send for the listed ids, given the listing of the server (None when it failed). It is
    refused exactly for repeated ids, a failed listing or ids the roster does not have.
   */
  method ReorderedIds(listed: seq<string>, listing: Option<seq<Option<string>>>) returns (r: Result<seq<string>, Error>)
    ensures r == if !Distinct(listed) then Err(DuplicateIds)
                 else if listing.None? then Err(ListingFailed)
                 else if Without(listed, Ids(listing.value)) != [] then
                   Err(UnknownIds(Without(listed, Ids(listing.value))))
                 else Ok(NewOrder(listed, Ids(listing.value)))
  {
    if !Distinct(listed) { return Err(DuplicateIds); }
    if listing.None? { return Err(ListingFailed); }
    var rows := listing.value;
    var current: seq<string> := [];
    for i := 0 to |rows|
      invariant current == Ids(rows[..i])
    {
      assert rows[..i + 1] == rows[..i] + [rows[i]];
      IdsAppend(rows[..i], rows[i]);
      if rows[i].Some? {
        current := current + [rows[i].value];
      }
    }
    assert rows[..|rows|] == rows;
    var unknown := Without(listed, current);
    if unknown != [] { return Err(UnknownIds(unknown)); }
    r := Ok(NewOrder(listed, current));
  }

  lemma {:induction false} WithoutCounts(ids: seq<string>, others: seq<string>, id: string)
    ensures multiset(Without(ids, others))[id] == if id in others then 0 else multiset(ids)[id]
  {
    if ids != [] {
      WithoutCounts(ids[1..], others, id);
      assert ids == [ids[0]] + ids[1..];
    }
  }

  lemma {:induction false} DistinctCounts(ids: seq<string>, id: string)
    requires Distinct(ids)
    ensures multiset(ids)[id] == if id in ids then 1 else 0
  {
    if ids != [] {
      DistinctCounts(ids[1..], id);
      assert ids == [ids[0]] + ids[1..];
      assert ids[0] !in ids[1..];
    }
  }

  /** The new order is a permutation of the roster exactly when the roster names each listed id once. */
  lemma PermutesIff(listed: seq<string>, roster: seq<string>)
    requires Distinct(listed)
    ensures multiset(NewOrder(listed, roster)) == multiset(roster)
       <==> forall i :: 0 <= i < |listed| ==> multiset(roster)[listed[i]] == 1
  {
    hide Without, Distinct;
    forall id ensures multiset(NewOrder(listed, roster))[id] == if id in listed then 1 else multiset(roster)[id] {
      DistinctCounts(listed, id);
      WithoutCounts(roster, listed, id);
    }
    if multiset(NewOrder(listed, roster)) == multiset(roster) {
      forall i | 0 <= i < |listed| ensures multiset(roster)[listed[i]] == 1 {
        assert multiset(NewOrder(listed, roster))[listed[i]] == 1;
      }
    } else {
      var id :| multiset(NewOrder(listed, roster))[id] != multiset(roster)[id];
      var i :| 0 <= i < |listed| && listed[i] == id;
      assert multiset(roster)[listed[i]] != 1;
    }
  }

  lemma {:induction false} WithoutAppend(a: seq<string>, b: seq<string>, others: seq<string>)
    ensures Without(a + b, others) == Without(a, others) + Without(b, others)
  {
    if a == [] {
      assert a + b == b;
    } else {
      Seqs.TailOfSum(a, b);
      WithoutAppend(a[1..], b, others);
    }
  }

  lemma {:induction false} WithoutTwice(ids: seq<string>, others: seq<string>)
    ensures Without(Without(ids, others), others) == Without(ids, others)
  {
    if ids != [] {
      WithoutTwice(ids[1..], others);
      var rest := Without(ids[1..], others);
      if ids[0] in others {
        assert [] + rest == rest;
      } else {
        Seqs.TailOfSum([ids[0]], rest);
      }
    }
  }

  /** The listed ids come first in their order, the others keep theirs, and asking again changes nothing. */
  lemma OrderSettles(listed: seq<string>, roster: seq<string>)
    ensures listed <= NewOrder(listed, roster)
    ensures Without(NewOrder(listed, roster), listed) == Without(roster, listed)
    ensures NewOrder(listed, NewOrder(listed, roster)) == NewOrder(listed, roster)
  {
    WithoutAppend(listed, Without(roster, listed), listed);
    WithoutNone(listed, listed);
    WithoutTwice(roster, listed);
    hide Without;
    assert [] + Without(roster, listed) == Without(roster, listed);
  }

  /** A roster that names a listed id twice loses one of the two. */
  lemma RepeatedIdLost()
    ensures NewOrder(["a"], ["a", "b", "a"]) == ["a", "b"]
    ensures multiset(NewOrder(["a"], ["a", "b", "a"])) != multiset(["a", "b", "a"])
  {
    var roster := ["a", "b", "a"];
    assert roster[1..] == ["b", "a"] && ["b", "a"][1..] == ["a"] && ["a"][1..] == [];
    assert Without(["b", "a"], ["a"]) == ["b"] + Without(["a"], ["a"]);
  }
}
