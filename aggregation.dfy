/** `calculateTotalExpenses` and the aggregation part of `calculateBudget`: the grand
    total, the ordered breakdown and the per-person figure, computed from the trip's
    field values and the expense model's deleted groups and custom expenses. */
module Aggregation {
  import opened Inputs
  import opened Expenses
  import Currency
  import BudgetStatus

  /** The numeric fields of the form as parsed; `None` is a field that does not parse. */
  datatype TripInputs = TripInputs(
    days: Option<real>,
    people: Option<real>,
    flights: Option<real>,
    accommodation: Option<real>,
    food: Option<real>,
    activities: Option<real>,
    transport: Option<real>,
    miscellaneous: Option<real>)

  function Days(inp: TripInputs): real {
    OrDefault(inp.days, 0.0)
  }

  /** `parseFloat(people) || 1`: NaN and zero both give 1, so the divisor is never zero. */
  function People(inp: TripInputs): (r: real)
    ensures r != 0.0
    ensures inp.people.None? ==> r == 1.0
  {
    OrDefault(inp.people, 1.0)
  }

  /** The coerced unit cost entered for a group. */
  function UnitCost(inp: TripInputs, g: Group): real {
    match g
    case Travel => OrDefault(inp.flights, 0.0)
    case Accommodation => OrDefault(inp.accommodation, 0.0)
    case Food => OrDefault(inp.food, 0.0)
    case Activities => OrDefault(inp.activities, 0.0)
    case Transport => OrDefault(inp.transport, 0.0)
    case Miscellaneous => OrDefault(inp.miscellaneous, 0.0)
  }

  /** What the unit cost of a group is multiplied by: people for flights, days for
      accommodation and local transport, both for food and activities, nothing for
      miscellaneous. */
  function Factor(inp: TripInputs, g: Group): real {
    match g
    case Travel => People(inp)
    case Accommodation => Days(inp)
    case Food => People(inp) * Days(inp)
    case Activities => People(inp) * Days(inp)
    case Transport => Days(inp)
    case Miscellaneous => 1.0
  }

  /** What an active group adds: its unit cost scaled by people, days, both or neither. */
  function Contribution(inp: TripInputs, g: Group): (r: real)
    ensures r == UnitCost(inp, g) * Factor(inp, g)
    ensures UnitCost(inp, g) == 0.0 ==> r == 0.0
  {
    var cost, people, days := UnitCost(inp, g), People(inp), Days(inp);
    match g
    case Travel => cost * people
    case Accommodation => cost * days
    case Food => cost * people * days
    case Activities => cost * people * days
    case Transport => cost * days
    case Miscellaneous => cost
  }

  /** What a group adds to the total: its contribution, or nothing once deleted. */
  function Part(inp: TripInputs, deleted: set<Group>, g: Group): real {
    if g in deleted then 0.0 else Contribution(inp, g)
  }

  /** The part of the total from the six default groups. */
  function DefaultTotal(inp: TripInputs, deleted: set<Group>): real {
    Part(inp, deleted, Travel) + Part(inp, deleted, Accommodation) + Part(inp, deleted, Food)
    + Part(inp, deleted, Activities) + Part(inp, deleted, Transport) + Part(inp, deleted, Miscellaneous)
  }

  /** The grand total: the active groups plus every custom amount, unscaled. */
  function GrandTotal(inp: TripInputs, deleted: set<Group>, customs: seq<Expense>): (r: real)
    ensures r == SumParts(inp, deleted, GroupOrder) + SumAmounts(customs)
    ensures (forall g: Group :: g in deleted) ==> r == SumAmounts(customs)
  {
    SumPartsInOrder(inp, deleted);
    DefaultTotal(inp, deleted) + SumAmounts(customs)
  }

  // ---------------------------------------------------------------- breakdown

  /** The `id` of a breakdown item: the group's key or `custom-<id>`. */
  datatype EntryKey = DefaultKey(group: Group) | CustomKey(id: nat)

  datatype Entry = Entry(key: EntryKey, caption: string, total: real)

  function Label(g: Group): string {
    match g
    case Travel => "Travel"
    case Accommodation => "Accommodation"
    case Food => "Food"
    case Activities => "Activities"
    case Transport => "Local Transport"
    case Miscellaneous => "Miscellaneous"
  }

  /** The item id the breakdown renders for a key. */
  function KeyText(k: EntryKey): string {
    match k
    case DefaultKey(g) =>
      (match g
       case Travel => "flight"
       case Accommodation => "accommodation"
       case Food => "food"
       case Activities => "activities"
       case Transport => "transport"
       case Miscellaneous => "misc")
    case CustomKey(id) => "custom-" + Currency.Digits(id)
  }

  /** Distinct keys render as distinct item ids. */
  lemma KeyTextInjective(a: EntryKey, b: EntryKey)
    ensures a != b ==> KeyText(a) != KeyText(b)
  {
    if a.CustomKey? && b.CustomKey? && KeyText(a) == KeyText(b) {
      var prefix := "custom-";
      assert (prefix + Currency.Digits(a.id))[|prefix|..] == Currency.Digits(a.id);
      assert (prefix + Currency.Digits(b.id))[|prefix|..] == Currency.Digits(b.id);
    } else if a.CustomKey? != b.CustomKey? {
      assert KeyText(a)[0] != KeyText(b)[0];
    }
  }

  /** `expense.name || "Custom Expense"`: an empty name is falsy. */
  function CustomLabel(name: string): (r: string)
    ensures r != ""
    ensures name != "" ==> r == name
    ensures name == "" ==> r == "Custom Expense"
  {
    if name == "" then "Custom Expense" else name
  }

  function GroupEntry(inp: TripInputs, g: Group): Entry {
    Entry(DefaultKey(g), Label(g), Contribution(inp, g))
  }

  function CustomEntry(e: Expense): Entry {
    Entry(CustomKey(e.id), CustomLabel(e.name), e.amount)
  }

  /** The default items for `groups`, in their order, skipping the deleted ones. */
  function DefaultEntries(inp: TripInputs, deleted: set<Group>, groups: seq<Group>): (r: seq<Entry>)
    ensures |r| <= |groups|
    decreases |groups|
  {
    if groups == [] then []
    else DefaultEntries(inp, deleted, groups[..|groups| - 1]) + ItemIfActive(inp, deleted, groups[|groups| - 1])
  }

  /** A group's item, or none when it is deleted. */
  function ItemIfActive(inp: TripInputs, deleted: set<Group>, g: Group): seq<Entry> {
    if g in deleted then [] else [GroupEntry(inp, g)]
  }

  function CustomEntries(customs: seq<Expense>): (r: seq<Entry>)
    ensures |r| == |customs|
  {
    seq(|customs|, i requires 0 <= i < |customs| => CustomEntry(customs[i]))
  }

  /** The breakdown: the active default groups in their fixed order, then one item per
      custom expense in list order. */
  function Breakdown(inp: TripInputs, deleted: set<Group>, customs: seq<Expense>): (r: seq<Entry>)
    ensures |customs| <= |r| <= |customs| + |GroupOrder|
    ensures r[|r| - |customs|..] == CustomEntries(customs)
  {
    var d := DefaultEntries(inp, deleted, GroupOrder);
    assert (d + CustomEntries(customs))[|d|..] == CustomEntries(customs);
    d + CustomEntries(customs)
  }

  /** Sum of the item totals, in list order. */
  function SumTotals(s: seq<Entry>): real
    decreases |s|
  {
    if s == [] then 0.0 else SumTotals(s[..|s| - 1]) + s[|s| - 1].total
  }

  function PerPerson(grandTotal: real, inp: TripInputs): (r: real)
    ensures r * People(inp) == grandTotal
  {
    grandTotal / People(inp)
  }

  // ---------------------------------------------------------------- properties

  lemma {:induction false} SumTotalsAppend(a: seq<Entry>, b: seq<Entry>)
    ensures SumTotals(a + b) == SumTotals(a) + SumTotals(b)
    decreases |b|
  {
    if b == [] {
      assert a + b == a;
    } else {
      assert (a + b)[..|a + b| - 1] == a + b[..|b| - 1];
      SumTotalsAppend(a, b[..|b| - 1]);
    }
  }

  lemma {:induction false} SumCustomEntries(customs: seq<Expense>)
    ensures SumTotals(CustomEntries(customs)) == SumAmounts(customs)
    decreases |customs|
  {
    if customs != [] {
      var n := |customs|;
      assert CustomEntries(customs)[..n - 1] == CustomEntries(customs[..n - 1]);
      SumCustomEntries(customs[..n - 1]);
    }
  }

  /** Sum of the parts of `groups`, in their order. */
  function SumParts(inp: TripInputs, deleted: set<Group>, groups: seq<Group>): real
    decreases |groups|
  {
    if groups == [] then 0.0
    else SumParts(inp, deleted, groups[..|groups| - 1]) + Part(inp, deleted, groups[|groups| - 1])
  }

  lemma {:induction false} SumDefaultEntriesOf(inp: TripInputs, deleted: set<Group>, groups: seq<Group>)
    ensures SumTotals(DefaultEntries(inp, deleted, groups)) == SumParts(inp, deleted, groups)
    decreases |groups|
  {
    if groups != [] {
      var init, g := groups[..|groups| - 1], groups[|groups| - 1];
      SumDefaultEntriesOf(inp, deleted, init);
      SumTotalsAppend(DefaultEntries(inp, deleted, init), ItemIfActive(inp, deleted, g));
      if g !in deleted {
        assert ItemIfActive(inp, deleted, g)[..0] == [];
      }
    }
  }

  lemma SumPartsStep(inp: TripInputs, deleted: set<Group>, groups: seq<Group>, k: nat)
    requires k < |groups|
    ensures SumParts(inp, deleted, groups[..k + 1])
      == SumParts(inp, deleted, groups[..k]) + Part(inp, deleted, groups[k])
  {
    assert groups[..k + 1][..k] == groups[..k];
  }

  /** The six default parts, summed in the fixed order, are the default total. */
  lemma SumPartsInOrder(inp: TripInputs, deleted: set<Group>)
    ensures SumParts(inp, deleted, GroupOrder) == DefaultTotal(inp, deleted)
  {
    var gs := GroupOrder;
    assert gs[..0] == [];
    SumPartsStep(inp, deleted, gs, 0);
    SumPartsStep(inp, deleted, gs, 1);
    SumPartsStep(inp, deleted, gs, 2);
    SumPartsStep(inp, deleted, gs, 3);
    SumPartsStep(inp, deleted, gs, 4);
    SumPartsStep(inp, deleted, gs, 5);
    assert gs[..6] == gs;
  }

  /** The default items add up to the default part of the grand total. */
  lemma SumDefaultEntries(inp: TripInputs, deleted: set<Group>)
    ensures SumTotals(DefaultEntries(inp, deleted, GroupOrder)) == DefaultTotal(inp, deleted)
  {
    SumDefaultEntriesOf(inp, deleted, GroupOrder);
    SumPartsInOrder(inp, deleted);
  }

  /** The breakdown's item totals sum to the grand total. */
  lemma BreakdownSumsToGrandTotal(inp: TripInputs, deleted: set<Group>, customs: seq<Expense>)
    ensures SumTotals(Breakdown(inp, deleted, customs)) == GrandTotal(inp, deleted, customs)
  {
    SumTotalsAppend(DefaultEntries(inp, deleted, GroupOrder), CustomEntries(customs));
    SumDefaultEntries(inp, deleted);
    SumCustomEntries(customs);
  }

  /** Position of a group in the fixed order. */
  function Rank(g: Group): (r: nat)
    ensures r < |GroupOrder| && GroupOrder[r] == g
  {
    match g
    case Travel => 0
    case Accommodation => 1
    case Food => 2
    case Activities => 3
    case Transport => 4
    case Miscellaneous => 5
  }

  /** The default items of `groups`: each is the item of a group of `groups` that is not
      deleted, and there are at most as many as groups. */
  lemma {:induction false} DefaultEntriesMembers(inp: TripInputs, deleted: set<Group>, groups: seq<Group>)
    ensures var r := DefaultEntries(inp, deleted, groups);
      |r| <= |groups| &&
      forall i :: 0 <= i < |r| ==>
        r[i].key.DefaultKey? && r[i] == GroupEntry(inp, r[i].key.group) &&
        r[i].key.group in groups && r[i].key.group !in deleted
    decreases |groups|
  {
    if groups != [] {
      var n := |groups|;
      var init, last := groups[..n - 1], groups[n - 1];
      DefaultEntriesMembers(inp, deleted, init);
      var d := DefaultEntries(inp, deleted, init);
      var r := d + ItemIfActive(inp, deleted, last);
      assert DefaultEntries(inp, deleted, groups) == r;
      forall i | 0 <= i < |r|
        ensures r[i].key.DefaultKey? && r[i] == GroupEntry(inp, r[i].key.group)
        ensures r[i].key.group in groups && r[i].key.group !in deleted
      {
        if i < |d| {
          assert r[i] == d[i];
          var m :| 0 <= m < |init| && init[m] == d[i].key.group;
          assert groups[m] == init[m];
        } else {
          assert r[i].key.group == groups[n - 1];
        }
      }
    }
  }

  /** Whether the items include one for group `g`. */
  predicate HasGroupItem(r: seq<Entry>, g: Group) {
    exists i :: 0 <= i < |r| && r[i].key == DefaultKey(g)
  }

  /** Every group of `groups` that is not deleted has an item. */
  lemma {:induction false} DefaultEntriesComplete(inp: TripInputs, deleted: set<Group>, groups: seq<Group>, m: nat)
    requires m < |groups| && groups[m] !in deleted
    ensures HasGroupItem(DefaultEntries(inp, deleted, groups), groups[m])
    decreases |groups|
  {
    var n := |groups|;
    var init, last := groups[..n - 1], groups[n - 1];
    var d := DefaultEntries(inp, deleted, init);
    var item := ItemIfActive(inp, deleted, last);
    var r: seq<Entry> := d + item;
    assert DefaultEntries(inp, deleted, groups) == r;
    if m == n - 1 {
      assert item == [GroupEntry(inp, last)];
      assert r[|d|].key == DefaultKey(groups[m]);
    } else {
      assert init[m] == groups[m];
      DefaultEntriesComplete(inp, deleted, init, m);
      var i :| 0 <= i < |d| && d[i].key == DefaultKey(groups[m]);
      assert (d + item)[i] == d[i];
    }
  }

  /** Items that all belong to default groups, listed in the fixed group order. */
  predicate RankOrdered(r: seq<Entry>) {
    (forall i :: 0 <= i < |r| ==> r[i].key.DefaultKey?) &&
    forall i, j :: 0 <= i < j < |r| ==> Rank(r[i].key.group) < Rank(r[j].key.group)
  }

  /** Items that all belong to default groups ranked before `g`. */
  predicate RanksBelow(d: seq<Entry>, g: Group) {
    forall i :: 0 <= i < |d| ==> d[i].key.DefaultKey? && Rank(d[i].key.group) < Rank(g)
  }

  lemma AppendRankOrdered(d: seq<Entry>, e: Entry)
    requires RankOrdered(d) && e.key.DefaultKey? && RanksBelow(d, e.key.group)
    ensures RankOrdered(d + [e])
  {
    var r := d + [e];
    forall i, j | 0 <= i < j < |r|
      ensures Rank(r[i].key.group) < Rank(r[j].key.group)
    {
      assert r[i] == d[i];
      if j < |d| { assert r[j] == d[j]; }
    }
  }

  /** Every item for a prefix of rank-ordered groups ranks below the group that follows it. */
  lemma {:induction false} DefaultEntriesBelow(inp: TripInputs, deleted: set<Group>, groups: seq<Group>, g: Group)
    requires forall i :: 0 <= i < |groups| ==> Rank(groups[i]) < Rank(g)
    ensures RanksBelow(DefaultEntries(inp, deleted, groups), g)
  {
    DefaultEntriesMembers(inp, deleted, groups);
    var d := DefaultEntries(inp, deleted, groups);
    forall i | 0 <= i < |d|
      ensures Rank(d[i].key.group) < Rank(g)
    {
      var m :| 0 <= m < |groups| && groups[m] == d[i].key.group;
    }
  }

  /** Groups listed in the fixed order, each at most once. */
  predicate GroupsRanked(groups: seq<Group>) {
    forall i, j :: 0 <= i < j < |groups| ==> Rank(groups[i]) < Rank(groups[j])
  }

  /** Dropping the last of ranked groups leaves ranked groups, all below the dropped one. */
  lemma GroupsRankedInit(groups: seq<Group>)
    requires GroupsRanked(groups) && groups != []
    ensures var init := groups[..|groups| - 1];
      GroupsRanked(init) && forall i :: 0 <= i < |init| ==> Rank(init[i]) < Rank(groups[|groups| - 1])
  {
    var init := groups[..|groups| - 1];
    assert forall i :: 0 <= i < |init| ==> init[i] == groups[i];
  }

  /** The default items keep the order of `groups`. */
  lemma {:induction false} DefaultEntriesOrdered(inp: TripInputs, deleted: set<Group>, groups: seq<Group>)
    requires GroupsRanked(groups)
    ensures RankOrdered(DefaultEntries(inp, deleted, groups))
    decreases |groups|
  {
    if groups != [] {
      var n := |groups|;
      var init, last := groups[..n - 1], groups[n - 1];
      GroupsRankedInit(groups);
      DefaultEntriesOrdered(inp, deleted, init);
      DefaultEntriesBelow(inp, deleted, init, last);
      var d := DefaultEntries(inp, deleted, init);
      assert DefaultEntries(inp, deleted, groups) == d + ItemIfActive(inp, deleted, last);
      if last !in deleted {
        AppendRankOrdered(d, GroupEntry(inp, last));
      } else {
        assert d + [] == d;
      }
    }
  }

  /** Items that are each the item of the default group their key names. */
  predicate GroupItems(inp: TripInputs, d: seq<Entry>) {
    forall i :: 0 <= i < |d| ==> d[i].key.DefaultKey? && d[i] == GroupEntry(inp, d[i].key.group)
  }

  /** The default items over the fixed group order: each active group once, with its
      label and contribution, in that order; a deleted group has no item. */
  lemma DefaultItems(inp: TripInputs, deleted: set<Group>)
    ensures var d := DefaultEntries(inp, deleted, GroupOrder);
      |d| <= 6 && GroupItems(inp, d) && RankOrdered(d) &&
      forall g :: HasGroupItem(d, g) <==> g !in deleted
  {
    var gs := GroupOrder;
    var d := DefaultEntries(inp, deleted, gs);
    GroupOrderRanked();
    DefaultEntriesMembers(inp, deleted, gs);
    DefaultEntriesOrdered(inp, deleted, gs);
    forall g
      ensures HasGroupItem(d, g) <==> g !in deleted
    {
      if g !in deleted {
        DefaultEntriesComplete(inp, deleted, gs, Rank(g));
      }
    }
  }

  lemma GroupOrderRanked()
    ensures GroupsRanked(GroupOrder)
  {
    var gs := GroupOrder;
    assert Rank(gs[0]) == 0 && Rank(gs[1]) == 1 && Rank(gs[2]) == 2;
    assert Rank(gs[3]) == 3 && Rank(gs[4]) == 4 && Rank(gs[5]) == 5;
    assert forall i :: 0 <= i < |gs| ==> Rank(gs[i]) == i;
  }

  /** The items before the custom ones: each active default group once, with its label
      and contribution, in the fixed order Travel, Accommodation, Food, Activities, Local
      Transport, Miscellaneous; a deleted group has no item. */
  lemma BreakdownDefaults(inp: TripInputs, deleted: set<Group>, customs: seq<Expense>)
    ensures var b := Breakdown(inp, deleted, customs);
      var k := |b| - |customs|;
      0 <= k <= 6 && GroupItems(inp, b[..k]) && RankOrdered(b[..k]) &&
      forall g :: HasGroupItem(b[..k], g) <==> g !in deleted
  {
    var d := DefaultEntries(inp, deleted, GroupOrder);
    var b := Breakdown(inp, deleted, customs);
    DefaultItems(inp, deleted);
    assert (d + CustomEntries(customs))[..|d|] == d;
    var k := |b| - |customs|;
    assert k == |d|;
    assert b[..k] == d;
  }

  /** The custom expenses follow the default items, in list order, each with its amount
      and `name || "Custom Expense"` as label. */
  lemma BreakdownCustoms(inp: TripInputs, deleted: set<Group>, customs: seq<Expense>)
    ensures var b := Breakdown(inp, deleted, customs);
      var k := |b| - |customs|;
      k >= 0 &&
      forall i :: 0 <= i < |customs| ==>
        b[k + i] == Entry(CustomKey(customs[i].id), CustomLabel(customs[i].name), customs[i].amount)
  {
  }

  /** Deleting a group removes exactly its contribution from the total; deleting it again
      changes nothing. */
  lemma DeleteGroupTotal(inp: TripInputs, deleted: set<Group>, customs: seq<Expense>, g: Group)
    ensures GrandTotal(inp, deleted + {g}, customs)
      == GrandTotal(inp, deleted, customs) - (if g in deleted then 0.0 else Contribution(inp, g))
  {
    var after := deleted + {g};
    assert Part(inp, after, g) == 0.0;
    assert forall h :: h != g ==> Part(inp, after, h) == Part(inp, deleted, h);
  }

  /** The item percentages of a breakdown with a positive grand total add up to 100. */
  lemma PercentagesSumTo100(inp: TripInputs, deleted: set<Group>, customs: seq<Expense>)
    requires GrandTotal(inp, deleted, customs) > 0.0
    ensures SumPercentages(Breakdown(inp, deleted, customs), GrandTotal(inp, deleted, customs)) == 100.0
  {
    BreakdownSumsToGrandTotal(inp, deleted, customs);
    PercentagesOfTotal(Breakdown(inp, deleted, customs), GrandTotal(inp, deleted, customs));
  }

  /** Percentages taken of the items' own positive sum add up to 100. */
  lemma PercentagesOfTotal(s: seq<Entry>, grandTotal: real)
    requires grandTotal > 0.0 && SumTotals(s) == grandTotal
    ensures SumPercentages(s, grandTotal) == 100.0
  {
    SumPercentagesScaled(s, grandTotal);
    CancelPositive(SumPercentages(s, grandTotal), 100.0, grandTotal);
  }

  lemma CancelPositive(x: real, y: real, g: real)
    requires g > 0.0 && x * g == y * g
    ensures x == y
  {
    assert (x - y) * g == 0.0;
  }

  function SumPercentages(s: seq<Entry>, grandTotal: real): real
    decreases |s|
  {
    if s == [] then 0.0 else SumPercentages(s[..|s| - 1], grandTotal) + BudgetStatus.Percentage(s[|s| - 1].total, grandTotal)
  }

  lemma {:induction false} SumPercentagesScaled(s: seq<Entry>, grandTotal: real)
    requires grandTotal > 0.0
    ensures SumPercentages(s, grandTotal) * grandTotal == SumTotals(s) * 100.0
    decreases |s|
  {
    if s != [] {
      var init := s[..|s| - 1];
      SumPercentagesScaled(init, grandTotal);
      var p, q := SumPercentages(init, grandTotal), BudgetStatus.Percentage(s[|s| - 1].total, grandTotal);
      assert (p + q) * grandTotal == p * grandTotal + q * grandTotal;
    }
  }

  /** A new custom expense (amount 0) leaves the total as it was, and deleting it again
      gives back the previous list. */
  lemma AddThenDeleteTotal(inp: TripInputs, deleted: set<Group>, customs: seq<Expense>, id: nat)
    requires !HasId(customs, id)
    ensures GrandTotal(inp, deleted, customs + [Expense(id, "", 0.0)]) == GrandTotal(inp, deleted, customs)
    ensures RemoveId(customs + [Expense(id, "", 0.0)], id) == customs
  {
    SumAmountsAppend(customs, [Expense(id, "", 0.0)]);
    assert SumAmounts([Expense(id, "", 0.0)]) == 0.0;
    AddThenRemove(customs, Expense(id, "", 0.0));
  }

  /** Three days for two people: a 500 flight costs 1000 and food at 20 a day costs 120. */
  lemma TwoPeopleThreeDays(inp: TripInputs)
    requires inp.days == Some(3.0) && inp.people == Some(2.0)
    requires inp.flights == Some(500.0) && inp.food == Some(20.0)
    ensures Contribution(inp, Travel) == 1000.0 && Contribution(inp, Food) == 120.0
  {
  }

  /** After a reset with every field empty, the total is zero. */
  lemma EmptyFormTotal()
    ensures GrandTotal(TripInputs(None, None, None, None, None, None, None, None), {}, []) == 0.0
  {
  }

  /** The text beside an item: the percentage with one decimal, or the number 0 (printed
      "0") when the grand total is not positive. */
  function PercentageText(total: real, grandTotal: real): (r: string)
    ensures grandTotal <= 0.0 ==> r == "0"
  {
    if grandTotal > 0.0 then Currency.ToFixed(BudgetStatus.Percentage(total, grandTotal), 1) else "0"
  }

  /** With a positive grand total the text ends in a point and one digit, and has a minus
      sign exactly when the item's total is negative. */
  lemma PercentageTextShape(total: real, grandTotal: real)
    requires grandTotal > 0.0
    ensures var r := PercentageText(total, grandTotal);
      |r| >= 3 && r[|r| - 2] == '.' && Currency.IsDigit(r[|r| - 1]) &&
      (r[0] == '-' <==> total < 0.0)
  {
    var p := BudgetStatus.Percentage(total, grandTotal);
    assert p < 0.0 <==> total < 0.0 by {
      assert p * grandTotal == total * 100.0;
      if p < 0.0 {
        assert p * grandTotal < 0.0;
      } else {
        assert p * grandTotal >= 0.0;
      }
    }
    var n := Currency.MinorUnits(p, 1);
    var ds := Currency.Digits(Currency.IntegerPart(n, 1));
    var f := Currency.Fixed(n, 1);
    assert Currency.ToFixed(p, 1) == Currency.SignText(p) + ds + ("." + f);
    assert ds[0] != '-' by {
      assert Currency.IsDigit(ds[0]);
    }
  }

  // ---------------------------------------------------------------- the loops

  lemma DefaultEntriesStep(inp: TripInputs, deleted: set<Group>, groups: seq<Group>, k: nat)
    requires k < |groups|
    ensures DefaultEntries(inp, deleted, groups[..k + 1])
      == DefaultEntries(inp, deleted, groups[..k]) + ItemIfActive(inp, deleted, groups[k])
  {
    assert groups[..k + 1][..k] == groups[..k];
  }

  lemma CustomEntriesStep(customs: seq<Expense>, i: nat)
    requires i < |customs|
    ensures CustomEntries(customs[..i + 1]) == CustomEntries(customs[..i]) + [CustomEntry(customs[i])]
  {
    var a, b := CustomEntries(customs[..i + 1]), CustomEntries(customs[..i]) + [CustomEntry(customs[i])];
    assert forall j :: 0 <= j < |a| ==> a[j] == b[j];
  }

  /** The default items over the fixed group order, one group at a time. */
  lemma DefaultEntriesUnrolled(inp: TripInputs, deleted: set<Group>)
    ensures DefaultEntries(inp, deleted, GroupOrder)
      == [] + ItemIfActive(inp, deleted, Travel) + ItemIfActive(inp, deleted, Accommodation)
         + ItemIfActive(inp, deleted, Food) + ItemIfActive(inp, deleted, Activities)
         + ItemIfActive(inp, deleted, Transport) + ItemIfActive(inp, deleted, Miscellaneous)
  {
    var gs := GroupOrder;
    assert gs[..0] == [];
    assert DefaultEntries(inp, deleted, gs[..0]) == [];
    DefaultEntriesStep(inp, deleted, gs, 0);
    DefaultEntriesStep(inp, deleted, gs, 1);
    DefaultEntriesStep(inp, deleted, gs, 2);
    DefaultEntriesStep(inp, deleted, gs, 3);
    DefaultEntriesStep(inp, deleted, gs, 4);
    DefaultEntriesStep(inp, deleted, gs, 5);
    assert gs[..6] == gs;
  }

  /** One default block of `calculateTotalExpenses`: unless the group is deleted, its
      contribution is added to the running total. */
  method AddGroup(inp: TripInputs, deleted: set<Group>, g: Group, total: real) returns (newTotal: real)
    ensures newTotal == total + Part(inp, deleted, g)
  {
    newTotal := total;
    if g !in deleted {
      newTotal := newTotal + Contribution(inp, g);
    }
  }

  /** `calculateTotalExpenses`: the six active groups in turn, then every custom amount;
      the result is the grand total. */
  method CalculateTotalExpenses(inp: TripInputs, deleted: set<Group>, customs: seq<Expense>)
    returns (total: real)
    ensures total == GrandTotal(inp, deleted, customs)
  {
    total := 0.0;
    total := AddGroup(inp, deleted, Travel, total);
    total := AddGroup(inp, deleted, Accommodation, total);
    total := AddGroup(inp, deleted, Food, total);
    total := AddGroup(inp, deleted, Activities, total);
    total := AddGroup(inp, deleted, Transport, total);
    total := AddGroup(inp, deleted, Miscellaneous, total);
    ghost var defaultTotal := total;
    assert defaultTotal == DefaultTotal(inp, deleted);
    assert customs[..0] == [];
    var i := 0;
    while i < |customs|
      invariant 0 <= i <= |customs|
      invariant total == defaultTotal + SumAmounts(customs[..i])
    {
      assert customs[..i + 1][..i] == customs[..i];
      total := total + customs[i].amount;
      i := i + 1;
    }
    assert customs[..i] == customs;
  }

  /** One default block of `calculateBudget`: unless the group is deleted, its contribution
      is added to the running total and its item pushed onto the breakdown. */
  method PushGroup(inp: TripInputs, deleted: set<Group>, g: Group, total: real, items: seq<Entry>)
    returns (newTotal: real, newItems: seq<Entry>)
    ensures newTotal == total + Part(inp, deleted, g)
    ensures newItems == items + ItemIfActive(inp, deleted, g)
  {
    newTotal, newItems := total, items;
    if g !in deleted {
      var groupTotal := Contribution(inp, g);
      newTotal := newTotal + groupTotal;
      newItems := newItems + [Entry(DefaultKey(g), Label(g), groupTotal)];
    }
  }

  /** The aggregation done by `calculateBudget`: the six default blocks in the fixed order,
      then one item per custom expense, then the per-person figure. */
  method CalculateBudget(inp: TripInputs, deleted: set<Group>, customs: seq<Expense>)
    returns (grandTotal: real, breakdown: seq<Entry>, perPerson: real)
    ensures grandTotal == GrandTotal(inp, deleted, customs)
    ensures breakdown == Breakdown(inp, deleted, customs)
    ensures perPerson == PerPerson(grandTotal, inp)
  {
    var people := People(inp);
    grandTotal, breakdown := 0.0, [];
    grandTotal, breakdown := PushGroup(inp, deleted, Travel, grandTotal, breakdown);
    grandTotal, breakdown := PushGroup(inp, deleted, Accommodation, grandTotal, breakdown);
    grandTotal, breakdown := PushGroup(inp, deleted, Food, grandTotal, breakdown);
    grandTotal, breakdown := PushGroup(inp, deleted, Activities, grandTotal, breakdown);
    grandTotal, breakdown := PushGroup(inp, deleted, Transport, grandTotal, breakdown);
    grandTotal, breakdown := PushGroup(inp, deleted, Miscellaneous, grandTotal, breakdown);
    DefaultEntriesUnrolled(inp, deleted);
    ghost var defaultTotal, defaultItems := grandTotal, breakdown;
    assert defaultTotal == DefaultTotal(inp, deleted);
    assert customs[..0] == [];
    var i := 0;
    while i < |customs|
      invariant 0 <= i <= |customs|
      invariant grandTotal == defaultTotal + SumAmounts(customs[..i])
      invariant breakdown == defaultItems + CustomEntries(customs[..i])
    {
      var expense := customs[i];
      assert customs[..i + 1][..i] == customs[..i];
      CustomEntriesStep(customs, i);
      assert defaultItems + (CustomEntries(customs[..i]) + [CustomEntry(expense)])
        == defaultItems + CustomEntries(customs[..i]) + [CustomEntry(expense)];
      grandTotal := grandTotal + expense.amount;
      breakdown := breakdown + [Entry(CustomKey(expense.id), CustomLabel(expense.name), expense.amount)];
      i := i + 1;
    }
    assert customs[..i] == customs;
    perPerson := grandTotal / people;
  }
}
