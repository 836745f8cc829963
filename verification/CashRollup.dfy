/** The reconciliation rollup: group by raw action, normalise, accumulate. */
module CashRollup {
  import opened Common
  import opened CashModel

  /** One row of SELECT action, sum(amount), count(*) ... GROUP BY action. */
  datatype Group = Group(action: Action, total: Money, count: nat)

  function ActionWeight(day: Day, action: Action): Movement -> int
  {
    (m: Movement) => if m.Key() == day && m.action == action then m.amount else 0
  }

  function ActionCount(day: Day, action: Action): Movement -> int
  {
    (m: Movement) => if m.Key() == day && m.action == action then 1 else 0
  }

  function CategoryCount(day: Day, category: Action): Movement -> int
  {
    (m: Movement) => if m.Key() == day && Normalize(m.action) == category then 1 else 0
  }

  predicate HasGroup(groups: seq<Group>, action: Action)
  {
    exists g :: g in groups && g.action == action
  }

  /** What SQL promises of the groups; their order is left open. */
  ghost predicate IsGroupBy(groups: seq<Group>, ms: seq<Movement>, day: Day)
  {
    && (forall i, j :: 0 <= i < j < |groups| ==> groups[i].action != groups[j].action)
    && (forall g :: g in groups ==> g.total == Sum(ms, ActionWeight(day, g.action)) && g.count == Sum(ms, ActionCount(day, g.action)))
    && (forall m :: m in ms && m.Key() == day ==> HasGroup(groups, m.action))
  }

  /** The part of a category's weight that the first groups account for. */
  function GroupedWeight(groups: seq<Group>, day: Day, category: Action, counting: bool): Movement -> int
  {
    (m: Movement) =>
      if m.Key() == day && Normalize(m.action) == category && HasGroup(groups, m.action)
      then (if counting then 1 else m.amount) else 0
  }

  /** A movement is in the first n + 1 groups if it is in the first n or in group n, never in both. */
  lemma OneMoreGroup(groups: seq<Group>, n: nat, action: Action)
    requires n < |groups| && forall i, j :: 0 <= i < j < |groups| ==> groups[i].action != groups[j].action
    ensures HasGroup(groups[..n + 1], action) <==> HasGroup(groups[..n], action) || groups[n].action == action
    ensures !(HasGroup(groups[..n], action) && groups[n].action == action)
  {
    assert groups[..n + 1] == groups[..n] + [groups[n]];
  }

  lemma GroupAdds(groups: seq<Group>, n: nat, ms: seq<Movement>, day: Day, category: Action, counting: bool)
    requires IsGroupBy(groups, ms, day) && n < |groups|
    ensures Sum(ms, GroupedWeight(groups[..n + 1], day, category, counting))
            == Sum(ms, GroupedWeight(groups[..n], day, category, counting))
               + if Normalize(groups[n].action) != category then 0 else if counting then groups[n].count else groups[n].total
  {
    var g := groups[n];
    var whole, part := GroupedWeight(groups[..n + 1], day, category, counting), GroupedWeight(groups[..n], day, category, counting);
    assert g in groups;
    if Normalize(g.action) != category {
      forall m | m in ms ensures whole(m) == part(m) {
        OneMoreGroup(groups, n, m.action);
      }
      SumSame(ms, whole, part);
    } else {
      var one := if counting then ActionCount(day, g.action) else ActionWeight(day, g.action);
      forall m | m in ms ensures whole(m) == part(m) + one(m) {
        OneMoreGroup(groups, n, m.action);
      }
      SumSplit(ms, whole, part, one);
    }
  }

  lemma AllGrouped(groups: seq<Group>, ms: seq<Movement>, day: Day, category: Action)
    requires IsGroupBy(groups, ms, day)
    ensures Sum(ms, GroupedWeight(groups, day, category, false)) == CategoryTotal(ms, day, category)
    ensures Sum(ms, GroupedWeight(groups, day, category, true)) == Sum(ms, CategoryCount(day, category))
  {
    SumSame(ms, GroupedWeight(groups, day, category, false), CategoryWeight(day, category));
    SumSame(ms, GroupedWeight(groups, day, category, true), CategoryCount(day, category));
  }

  lemma {:induction false} NothingGrouped(ms: seq<Movement>, day: Day, category: Action, counting: bool)
    ensures Sum(ms, GroupedWeight([], day, category, counting)) == 0
  {
    if ms != [] {
      NothingGrouped(ms[..|ms| - 1], day, category, counting);
    }
  }

  /** RECONCILIATION_ACTIONS. */
  predicate Reconciled(category: Action)
  {
    category.OPENING? || category.CASH_IN? || category.CASH_OUT? || category.SALE_CASH_IN? || category.CASH_OUT_REFUND?
  }

  /** What one group adds to a category. */
  function Share(category: Action, counting: bool): Group -> int
  {
    (g: Group) => if Normalize(g.action) != category then 0 else if counting then g.count else g.total
  }

  /** Adding up the groups of a category, or the movements of the category: the same. */
  lemma {:induction false} GroupsAddUp(groups: seq<Group>, n: nat, ms: seq<Movement>, day: Day, category: Action, counting: bool)
    requires IsGroupBy(groups, ms, day) && n <= |groups|
    ensures Sum(groups[..n], Share(category, counting)) == Sum(ms, GroupedWeight(groups[..n], day, category, counting))
  {
    if n == 0 {
      NothingGrouped(ms, day, category, counting);
    } else {
      GroupsAddUp(groups, n - 1, ms, day, category, counting);
      GroupAdds(groups, n - 1, ms, day, category, counting);
      assert groups[..n] == groups[..n - 1] + [groups[n - 1]];
      SumAppend(groups[..n - 1], groups[n - 1], Share(category, counting));
    }
  }

  lemma GroupsAreRollup(groups: seq<Group>, ms: seq<Movement>, day: Day, category: Action)
    requires IsGroupBy(groups, ms, day)
    ensures Sum(groups, Share(category, false)) == CategoryTotal(ms, day, category)
    ensures Sum(groups, Share(category, true)) == Sum(ms, CategoryCount(day, category))
  {
    GroupsAddUp(groups, |groups|, ms, day, category, false);
    GroupsAddUp(groups, |groups|, ms, day, category, true);
    AllGrouped(groups, ms, day, category);
    assert groups[..|groups|] == groups;
  }

  function CountOf(counts: map<Action, nat>, category: Action): nat
  {
    if category in counts then counts[category] else 0
  }

  /** `_reconciliation_rollup` over the groups, in whatever order they come. */
  method ReconciliationRollup(groups: seq<Group>, ghost ms: seq<Movement>, ghost day: Day)
    returns (totals: Totals, counts: map<Action, nat>)
    requires IsGroupBy(groups, ms, day)
    ensures totals == Rollup(ms, day)
    ensures forall c :: CountOf(counts, c) == Sum(ms, CategoryCount(day, c))
  {
    var sums: map<Action, Money>;
    sums, counts := AccumulateGroups(groups);
    forall c
      ensures Sum(groups, Share(c, false)) == CategoryTotal(ms, day, c)
      ensures Sum(groups, Share(c, true)) == Sum(ms, CategoryCount(day, c))
    {
      GroupsAreRollup(groups, ms, day, c);
    }
    totals := Totals(sums[OPENING], sums[CASH_IN], sums[CASH_OUT], sums[SALE_CASH_IN], sums[CASH_OUT_REFUND]);
  }

  method AccumulateGroups(groups: seq<Group>) returns (sums: map<Action, Money>, counts: map<Action, nat>)
    ensures forall c :: c in sums <==> Reconciled(c)
    ensures forall c :: c in sums ==> sums[c] == Sum(groups, Share(c, false))
    ensures forall c :: CountOf(counts, c) == Sum(groups, Share(c, true))
  {
    sums := map[OPENING := 0, CASH_IN := 0, CASH_OUT := 0, SALE_CASH_IN := 0, CASH_OUT_REFUND := 0];
    counts := map[];
    for n := 0 to |groups|
      invariant forall c :: c in sums <==> Reconciled(c)
      invariant forall c :: c in sums ==> sums[c] == Sum(groups[..n], Share(c, false))
      invariant forall c :: CountOf(counts, c) == Sum(groups[..n], Share(c, true))
    {
      assert groups[..n + 1][..n] == groups[..n];
      var normalized := Normalize(groups[n].action);
      if normalized in sums {
        sums := sums[normalized := sums[normalized] + groups[n].total];
      }
      counts := counts[normalized := CountOf(counts, normalized) + groups[n].count];
    }
    assert groups[..|groups|] == groups;
  }

  /** The same over the whole movements table: the query, then the loop. */
  function GroupByAction(ms: seq<Movement>, day: Day, n: nat): (groups: seq<Group>)
    requires n <= |ms|
    ensures forall i, j :: 0 <= i < j < |groups| ==> groups[i].action != groups[j].action
    ensures forall g :: g in groups ==> g.total == Sum(ms, ActionWeight(day, g.action)) && g.count == Sum(ms, ActionCount(day, g.action))
    ensures forall k :: 0 <= k < n && ms[k].Key() == day ==> HasGroup(groups, ms[k].action)
  {
    if n == 0 then [] else
    var rest := GroupByAction(ms, day, n - 1);
    var a := ms[n - 1].action;
    if ms[n - 1].Key() != day || HasGroup(rest, a) then rest
    else
      CountsNonNegative(ms, day, a);
      var g := Group(a, Sum(ms, ActionWeight(day, a)), Sum(ms, ActionCount(day, a)));
      assert forall k :: 0 <= k < n - 1 && ms[k].Key() == day ==> HasGroup(rest + [g], ms[k].action);
      assert g in rest + [g];
      rest + [g]
  }

  lemma CountsNonNegative(ms: seq<Movement>, day: Day, action: Action)
    ensures Sum(ms, ActionCount(day, action)) >= 0
  {
    SumNonNegative(ms, ActionCount(day, action));
  }
}
