/** The entities the calculator keeps: the six default expense groups and the custom
    expenses the user adds, with the list operations the expense model is built from. */
module Expenses {

  /** The six default groups, one per `*-group` element of the page. */
  datatype Group = Travel | Accommodation | Food | Activities | Transport | Miscellaneous

  /** The fixed order in which the totals and the breakdown visit the groups. */
  const GroupOrder: seq<Group> := [Travel, Accommodation, Food, Activities, Transport, Miscellaneous]

  /** The element id that names the group in the deleted set. */
  function GroupElementId(g: Group): string {
    match g
    case Travel => "travel-group"
    case Accommodation => "accommodation-group"
    case Food => "food-group"
    case Activities => "activities-group"
    case Transport => "transport-group"
    case Miscellaneous => "miscellaneous-group"
  }

  /** Distinct groups have distinct element ids, so a set of groups stands for the set of
      their element ids. */
  lemma GroupElementIdInjective(g: Group, h: Group)
    ensures g != h ==> GroupElementId(g) != GroupElementId(h)
  {
  }

  /** A custom expense: a positive id handed out once between resets, a free-text name
      and an amount. */
  datatype Expense = Expense(id: nat, name: string, amount: real)

  /** Ids strictly increase along the list: the order of `addCustomExpense` calls. */
  ghost predicate IdsIncreasing(s: seq<Expense>) {
    forall i, j :: 0 <= i < j < |s| ==> s[i].id < s[j].id
  }

  /** Every id lies in `1..counter`. */
  ghost predicate IdsBelow(s: seq<Expense>, counter: nat) {
    forall i :: 0 <= i < |s| ==> 1 <= s[i].id <= counter
  }

  predicate HasId(s: seq<Expense>, id: nat) {
    exists i :: 0 <= i < |s| && s[i].id == id
  }

  /** The entries with a distinct id each, as increasing ids guarantee. */
  lemma IncreasingIdsAreDistinct(s: seq<Expense>)
    requires IdsIncreasing(s)
    ensures forall i, j :: 0 <= i < |s| && 0 <= j < |s| && s[i].id == s[j].id ==> i == j
  {
  }

  /** `customExpenses.filter(exp => exp.id !== id)`. */
  function RemoveId(s: seq<Expense>, id: nat): (r: seq<Expense>)
    ensures |r| <= |s|
    ensures forall e :: e in r ==> e.id != id
  {
    if s == [] then []
    else (if s[0].id == id then [] else [s[0]]) + RemoveId(s[1..], id)
  }

  /** The entries kept are exactly those whose id differs. */
  lemma {:induction false} RemoveIdMembers(s: seq<Expense>, id: nat)
    ensures forall e :: e in RemoveId(s, id) <==> e in s && e.id != id
  {
    if s != [] {
      RemoveIdMembers(s[1..], id);
      assert s == [s[0]] + s[1..];
    }
  }

  /** The filter works entry by entry: it distributes over concatenation, so the order of
      the kept entries is their order in the list. */
  lemma {:induction false} RemoveIdAppend(a: seq<Expense>, b: seq<Expense>, id: nat)
    ensures RemoveId(a + b, id) == RemoveId(a, id) + RemoveId(b, id)
  {
    if a == [] {
      assert a + b == b;
    } else {
      assert (a + b)[0] == a[0];
      assert (a + b)[1..] == a[1..] + b;
      RemoveIdAppend(a[1..], b, id);
    }
  }

  /** Deleting an id the list does not hold leaves it as it was. */
  lemma {:induction false} RemoveIdAbsent(s: seq<Expense>, id: nat)
    requires !HasId(s, id)
    ensures RemoveId(s, id) == s
  {
    if s != [] {
      assert s[0].id != id;
      forall i | 0 <= i < |s[1..]|
        ensures s[1..][i].id != id
      {
        assert s[1..][i] == s[i + 1];
      }
      RemoveIdAbsent(s[1..], id);
      assert [s[0]] + s[1..] == s;
    }
  }

  /** With distinct ids, deleting an id the list holds at `k` cuts out exactly that entry. */
  lemma RemoveIdAt(s: seq<Expense>, id: nat, k: nat)
    requires k < |s| && s[k].id == id
    requires forall i :: 0 <= i < |s| && i != k ==> s[i].id != id
    ensures RemoveId(s, id) == s[..k] + s[k + 1..]
  {
    var pre, x, post := s[..k], s[k], s[k + 1..];
    assert s == pre + [x] + post;
    forall i | 0 <= i < |pre|
      ensures pre[i].id != id
    {
      assert pre[i] == s[i];
    }
    forall i | 0 <= i < |post|
      ensures post[i].id != id
    {
      assert post[i] == s[k + 1 + i];
    }
    RemoveIdAbsent(pre, id);
    RemoveIdAbsent(post, id);
    RemoveIdAppend(pre + [x], post, id);
    RemoveIdAppend(pre, [x], id);
    RemoveIdOne(x);
    calc {
      RemoveId(s, id);
      RemoveId(pre + [x], id) + RemoveId(post, id);
      RemoveId(pre, id) + RemoveId([x], id) + RemoveId(post, id);
      { assert pre + [] == pre; }
      pre + post;
    }
  }

  lemma RemoveIdOne(x: Expense)
    ensures RemoveId([x], x.id) == []
  {
    assert [x][1..] == [];
  }

  lemma CutKeepsIds(s: seq<Expense>, k: nat, counter: nat)
    requires k < |s| && IdsIncreasing(s) && IdsBelow(s, counter)
    ensures IdsIncreasing(s[..k] + s[k + 1..]) && IdsBelow(s[..k] + s[k + 1..], counter)
  {
    var r := s[..k] + s[k + 1..];
    assert forall i :: 0 <= i < |r| ==> r[i] == if i < k then s[i] else s[i + 1];
  }

  /** The kept entries still have increasing ids within `1..counter`. */
  lemma RemoveIdKeepsIds(s: seq<Expense>, id: nat, counter: nat)
    requires IdsIncreasing(s) && IdsBelow(s, counter)
    ensures IdsIncreasing(RemoveId(s, id)) && IdsBelow(RemoveId(s, id), counter)
  {
    if HasId(s, id) {
      var k :| 0 <= k < |s| && s[k].id == id;
      RemoveIdAt(s, id, k);
      CutKeepsIds(s, k, counter);
    } else {
      RemoveIdAbsent(s, id);
    }
  }

  /** Appending an expense with the next id keeps the ids increasing and in range, and
      that id was not in use. */
  lemma AppendKeepsIds(s: seq<Expense>, e: Expense, counter: nat)
    requires IdsIncreasing(s) && IdsBelow(s, counter) && e.id == counter + 1
    ensures !HasId(s, e.id)
    ensures IdsIncreasing(s + [e]) && IdsBelow(s + [e], counter + 1)
  {
    var r := s + [e];
    assert forall i :: 0 <= i < |s| ==> r[i] == s[i];
  }

  /** Adding a new expense and deleting it again gives back the original list. */
  lemma AddThenRemove(s: seq<Expense>, e: Expense)
    requires !HasId(s, e.id)
    ensures RemoveId(s + [e], e.id) == s
  {
    RemoveIdAppend(s, [e], e.id);
    RemoveIdAbsent(s, e.id);
    assert RemoveId([e], e.id) == [];
  }

  /** Sum of the amounts, added in list order as `forEach` does. */
  function SumAmounts(s: seq<Expense>): real
    decreases |s|
  {
    if s == [] then 0.0 else SumAmounts(s[..|s| - 1]) + s[|s| - 1].amount
  }

  lemma {:induction false} SumAmountsAppend(a: seq<Expense>, b: seq<Expense>)
    ensures SumAmounts(a + b) == SumAmounts(a) + SumAmounts(b)
    decreases |b|
  {
    if b == [] {
      assert a + b == a;
    } else {
      assert (a + b)[..|a + b| - 1] == a + b[..|b| - 1];
      SumAmountsAppend(a, b[..|b| - 1]);
    }
  }

  /** `find(exp => exp.id === id)` followed by `expense.name = name`: with distinct ids,
      the one entry with that id is renamed. */
  function Renamed(s: seq<Expense>, id: nat, name: string): (r: seq<Expense>)
    ensures |r| == |s|
    ensures forall i :: 0 <= i < |s| ==> r[i].id == s[i].id && r[i].amount == s[i].amount
    ensures forall i :: 0 <= i < |s| ==> r[i].name == (if s[i].id == id then name else s[i].name)
  {
    seq(|s|, i requires 0 <= i < |s| => if s[i].id == id then s[i].(name := name) else s[i])
  }

  /** When only the entry at `k` has the id, renaming rewrites exactly that entry. */
  lemma RenamedAt(s: seq<Expense>, id: nat, name: string, k: nat)
    requires k < |s| && s[k].id == id
    requires forall i :: 0 <= i < |s| && i != k ==> s[i].id != id
    ensures Renamed(s, id, name) == s[k := s[k].(name := name)]
  {
    var a, b := Renamed(s, id, name), s[k := s[k].(name := name)];
    assert forall i :: 0 <= i < |s| ==> a[i] == b[i];
  }

  /** As `Renamed`, for `expense.amount = amount`. */
  function Reamounted(s: seq<Expense>, id: nat, amount: real): (r: seq<Expense>)
    ensures |r| == |s|
    ensures forall i :: 0 <= i < |s| ==> r[i].id == s[i].id && r[i].name == s[i].name
    ensures forall i :: 0 <= i < |s| ==> r[i].amount == (if s[i].id == id then amount else s[i].amount)
  {
    seq(|s|, i requires 0 <= i < |s| => if s[i].id == id then s[i].(amount := amount) else s[i])
  }

  /** Renaming keeps every id and every amount, so neither the id invariant nor any
      total can change; an absent id changes nothing at all. */
  lemma RenamedKeeps(s: seq<Expense>, id: nat, name: string)
    ensures forall i :: 0 <= i < |s| ==> Renamed(s, id, name)[i].id == s[i].id
    ensures SumAmounts(Renamed(s, id, name)) == SumAmounts(s)
    ensures !HasId(s, id) ==> Renamed(s, id, name) == s
  {
    SumAmountsSameAmounts(s, Renamed(s, id, name));
  }

  lemma {:induction false} SumAmountsSameAmounts(a: seq<Expense>, b: seq<Expense>)
    requires |a| == |b| && forall i :: 0 <= i < |a| ==> a[i].amount == b[i].amount
    ensures SumAmounts(a) == SumAmounts(b)
    decreases |a|
  {
    if a != [] {
      SumAmountsSameAmounts(a[..|a| - 1], b[..|b| - 1]);
    }
  }

  /** Setting the amount of the entry with `id` moves the sum by exactly the change of
      that entry's amount. */
  lemma {:induction false} ReamountedSum(s: seq<Expense>, id: nat, amount: real, k: nat)
    requires k < |s| && s[k].id == id
    requires forall i :: 0 <= i < |s| && i != k ==> s[i].id != id
    ensures SumAmounts(Reamounted(s, id, amount)) == SumAmounts(s) - s[k].amount + amount
    decreases |s|
  {
    var r := Reamounted(s, id, amount);
    var n := |s|;
    if k == n - 1 {
      SumAmountsSameAmounts(s[..n - 1], r[..n - 1]);
    } else {
      assert r[..n - 1] == Reamounted(s[..n - 1], id, amount);
      ReamountedSum(s[..n - 1], id, amount, k);
    }
  }

  /** When only the entry at `k` has the id, setting the amount rewrites exactly that
      entry. */
  lemma ReamountedAt(s: seq<Expense>, id: nat, amount: real, k: nat)
    requires k < |s| && s[k].id == id
    requires forall i :: 0 <= i < |s| && i != k ==> s[i].id != id
    ensures Reamounted(s, id, amount) == s[k := s[k].(amount := amount)]
  {
    var a, b := Reamounted(s, id, amount), s[k := s[k].(amount := amount)];
    assert forall i :: 0 <= i < |s| ==> a[i] == b[i];
  }

  lemma ReamountedAbsent(s: seq<Expense>, id: nat, amount: real)
    requires !HasId(s, id)
    ensures Reamounted(s, id, amount) == s
  {
  }

  /** `Array.prototype.find` on the id: the index of the first entry with `id`, or -1 when
      there is none. */
  method FindIndex(s: seq<Expense>, id: nat) returns (k: int)
    ensures -1 <= k < |s|
    ensures k >= 0 ==> s[k].id == id && forall j :: 0 <= j < k ==> s[j].id != id
    ensures k == -1 <==> !HasId(s, id)
  {
    k := 0;
    while k < |s|
      invariant 0 <= k <= |s|
      invariant forall j :: 0 <= j < k ==> s[j].id != id
    {
      if s[k].id == id {
        return;
      }
      k := k + 1;
    }
    k := -1;
  }
}
