/** The migration that closes stale open sessions, and the integrity check that looks for doubles. */
module CashRepair {
  import opened Common
  import opened CashModel
  import opened CashInvariants
  import opened CashDesk
  import CashTheorems

  // ----- the stale-open repair -----

  predicate Stale(closes: seq<DayClose>, s: Session)
  {
    IsOpen(s) && DayClosed(closes, s.Key())
  }

  function RepairRow(closes: seq<DayClose>, s: Session, now: Time): Session
  {
    if Stale(closes, s) then s.(status := Closed, closedAt := Some(now)) else s
  }

  function RepairRows(closes: seq<DayClose>, sessions: seq<Session>, now: Time): (r: seq<Session>)
    ensures |r| == |sessions| && forall i :: 0 <= i < |r| ==> r[i] == RepairRow(closes, sessions[i], now)
  {
    if sessions == [] then []
    else RepairRows(closes, sessions[..|sessions| - 1], now) + [RepairRow(closes, sessions[|sessions| - 1], now)]
  }

  function Repair(db: Db, now: Time): Db
  {
    db.(sessions := RepairRows(db.closes, db.sessions, now))
  }

  /** `upgrade`: one UPDATE over the sessions table. */
  method Upgrade(desk: Desk, now: Time)
    requires desk.Valid()
    modifies desk.sessions
    ensures desk.Tables() == Repair(old(desk.Tables()), now)
  {
    ghost var before := SessionRows(desk.sessions);
    for i := 0 to |desk.sessions|
      invariant forall j :: 0 <= j < i ==> desk.sessions[j].Row() == RepairRow(desk.closes, before[j], now)
      invariant forall j :: i <= j < |desk.sessions| ==> desk.sessions[j].Row() == before[j]
    {
      if Stale(desk.closes, desk.sessions[i].Row()) {
        desk.sessions[i].status := Closed;
        desk.sessions[i].closedAt := Some(now);
      }
    }
    assert SessionRows(desk.sessions) == RepairRows(desk.closes, before, now);
  }

  /** At most one open session per drawer, not counting stale ones: what the guarded lookup could see before the repair. */
  ghost predicate OneVisiblePerDrawer(db: Db)
  {
    forall i, j :: 0 <= i < j < |db.sessions| && Visible(db, i) && Visible(db, j) ==> db.sessions[i].drawer != db.sessions[j].drawer
  }

  ghost predicate Visible(db: Db, i: int)
    requires 0 <= i < |db.sessions|
  {
    db.sessions[i].status == Open && !DayClosed(db.closes, db.sessions[i].Key())
  }

  /** No session stays open on a closed day; only stale rows change, and only in status and closing time. */
  lemma RepairClosesStale(db: Db, now: Time)
    requires StatusAgrees(db)
    ensures var db' := Repair(db, now);
            StatusAgrees(db') && NoOpenOnClosedDay(db')
            && (forall i :: 0 <= i < |db.sessions| ==>
                  db'.sessions[i] == db.sessions[i]
                  || (Stale(db.closes, db.sessions[i])
                      && db'.sessions[i] == db.sessions[i].(status := Closed, closedAt := Some(now))))
            && db'.movements == db.movements && db'.cuts == db.cuts && db'.closes == db.closes
    ensures OneOpenPerDrawer(Repair(db, now)) <==> OneVisiblePerDrawer(db)
  {
    var db' := Repair(db, now);
    assert forall i :: 0 <= i < |db.sessions| ==> (db'.sessions[i].status == Open <==> Visible(db, i));
  }

  /** A second run of the repair does nothing at all. */
  lemma RepairTwice(db: Db, t1: Time, t2: Time)
    ensures Repair(Repair(db, t1), t2) == Repair(db, t1)
  {
    assert Repair(Repair(db, t1), t2).sessions == Repair(db, t1).sessions;
  }

  lemma RepairKeepsEligible(db: Db, d: Drawer, now: Time, i: nat)
    requires StatusAgrees(db) && i < |db.sessions|
    ensures Eligible(Repair(db, now), d, true, i) == Eligible(db, d, true, i) == Eligible(Repair(db, now), d, false, i)
    ensures Repair(db, now).sessions[i].openedAt == db.sessions[i].openedAt
  {
  }

  lemma {:induction false} RepairKeepsFiltered(db: Db, d: Drawer, now: Time, n: nat)
    requires StatusAgrees(db) && n <= |db.sessions|
    ensures NewestOpen(Repair(db, now), d, true, n) == NewestOpen(db, d, true, n)
  {
    if n > 0 {
      RepairKeepsFiltered(db, d, now, n - 1);
      RepairKeepsEligible(db, d, now, n - 1);
      if NewestOpen(db, d, true, n - 1).Some? {
        RepairKeepsEligible(db, d, now, NewestOpen(db, d, true, n - 1).value);
      }
    }
  }

  lemma {:induction false} RepairFreesLookup(db: Db, d: Drawer, now: Time, n: nat)
    requires StatusAgrees(db) && n <= |db.sessions|
    ensures NewestOpen(Repair(db, now), d, false, n) == NewestOpen(Repair(db, now), d, true, n)
  {
    if n > 0 {
      RepairFreesLookup(db, d, now, n - 1);
      RepairKeepsEligible(db, d, now, n - 1);
    }
  }

  /** The cash router's lookup gives the same row before and after; the voucher router's now gives that row too. */
  lemma RepairKeepsLookup(db: Db, d: Drawer, now: Time, n: nat)
    requires StatusAgrees(db) && n <= |db.sessions|
    ensures NewestOpen(Repair(db, now), d, true, n) == NewestOpen(db, d, true, n) == NewestOpen(Repair(db, now), d, false, n)
  {
    RepairKeepsFiltered(db, d, now, n);
    RepairFreesLookup(db, d, now, n);
  }

  /** After the repair of an otherwise sound state the whole invariant holds, so every later request keeps it. */
  lemma RepairEstablishes(db: Db, clock: Time, now: Time)
    requires StatusAgrees(db) && OneVisiblePerDrawer(db)
    requires Ledger(db) && ClosesKept(db) && Numbered(db.cuts) && Past(db, clock)
    ensures Inv(Repair(db, now), clock)
  {
    var db' := Repair(db, now);
    RepairClosesStale(db, now);
    assert Ledger(db') by {
      forall m | m in db'.movements ensures MovementLinked(db'.sessions, m) {
        assert MovementLinked(db.sessions, m);
      }
      forall c | c in db'.cuts ensures CutLinked(db'.sessions, c) {
        assert CutLinked(db.sessions, c);
      }
      forall i: nat | i < |db'.sessions| ensures SessionBalanced(db', i) {
        assert SessionBalanced(db, i);
      }
    }
    forall s | s in db'.sessions ensures s.openedAt <= clock {
      var k :| 0 <= k < |db'.sessions| && db'.sessions[k] == s;
      assert db.sessions[k] in db.sessions;
    }
  }

  // ----- check_cash_session_open -----

  function OpenWeight(d: Drawer): Session -> int
  {
    (s: Session) => if s.status == Open && s.drawer == d then 1 else 0
  }

  /** The number of sessions of a drawer with status OPEN. */
  function OpenCount(sessions: seq<Session>, d: Drawer): int
  {
    Sum(sessions, OpenWeight(d))
  }

  /** GROUP BY store and cashier over the open sessions of a tenant. */
  function OpenDrawers(sessions: seq<Session>, tenant: Uuid): (r: seq<Drawer>)
    ensures forall d :: d in r <==> d.tenant == tenant && exists s :: s in sessions && s.status == Open && s.drawer == d
    ensures forall i, j :: 0 <= i < j < |r| ==> r[i] != r[j]
  {
    if sessions == [] then [] else
    var rest := OpenDrawers(sessions[..|sessions| - 1], tenant);
    var s := sessions[|sessions| - 1];
    assert sessions == sessions[..|sessions| - 1] + [s];
    if s.status == Open && s.drawer.tenant == tenant && s.drawer !in rest then rest + [s.drawer] else rest
  }

  datatype Finding = Finding(drawer: Drawer, openCount: int)

  /** Exactly the drawers of the tenant with more than one open session, each once, with their count. */
  ghost predicate ReportsDoubles(sessions: seq<Session>, tenant: Uuid, findings: seq<Finding>)
  {
    && (forall f :: f in findings ==> f.drawer.tenant == tenant && f.openCount == OpenCount(sessions, f.drawer) > 1)
    && (forall d: Drawer :: d.tenant == tenant && OpenCount(sessions, d) > 1 ==> Finding(d, OpenCount(sessions, d)) in findings)
    && (forall i, j :: 0 <= i < j < |findings| ==> findings[i].drawer != findings[j].drawer)
  }

  method CheckCashSessionOpen(sessions: seq<Session>, tenant: Uuid) returns (findings: seq<Finding>)
    ensures ReportsDoubles(sessions, tenant, findings)
  {
    var groups := OpenDrawers(sessions, tenant);
    findings := [];
    for n := 0 to |groups|
      invariant forall f :: f in findings ==> f.drawer in groups[..n] && f.openCount == OpenCount(sessions, f.drawer) > 1
      invariant forall d :: d in groups[..n] && OpenCount(sessions, d) > 1 ==> Finding(d, OpenCount(sessions, d)) in findings
      invariant forall i, j :: 0 <= i < j < |findings| ==> findings[i].drawer != findings[j].drawer
    {
      assert groups[..n + 1] == groups[..n] + [groups[n]];
      assert groups[n] !in groups[..n];
      var count := OpenCount(sessions, groups[n]);
      if count > 1 {
        findings := findings + [Finding(groups[n], count)];
      }
    }
    assert groups[..|groups|] == groups;
    forall d: Drawer | d.tenant == tenant && OpenCount(sessions, d) > 1 ensures d in groups {
      CountPositive(sessions, d);
    }
  }

  lemma {:induction false} CountPositive(sessions: seq<Session>, d: Drawer)
    ensures OpenCount(sessions, d) >= 0
    ensures OpenCount(sessions, d) > 0 <==> exists s :: s in sessions && s.status == Open && s.drawer == d
  {
    SumNonNegative(sessions, OpenWeight(d));
  }

  /** More than one means two different rows. */
  lemma {:induction false} CountAboveOne(sessions: seq<Session>, d: Drawer)
    ensures OpenCount(sessions, d) > 1 <==>
            exists i, j :: 0 <= i < j < |sessions| && sessions[i].status == sessions[j].status == Open
                           && sessions[i].drawer == sessions[j].drawer == d
  {
    if sessions != [] {
      var n := |sessions| - 1;
      var init := sessions[..n];
      CountAboveOne(init, d);
      CountPositive(init, d);
      if OpenCount(init, d) > 1 {
        var i, j :| 0 <= i < j < n && init[i].status == init[j].status == Open && init[i].drawer == init[j].drawer == d;
        assert sessions[i] == init[i] && sessions[j] == init[j];
      } else if OpenCount(sessions, d) > 1 {
        var s :| s in init && s.status == Open && s.drawer == d;
        var i :| 0 <= i < n && init[i] == s;
        assert sessions[i] == s;
      }
      if i, j :| 0 <= i < j < |sessions| && sessions[i].status == sessions[j].status == Open
                 && sessions[i].drawer == sessions[j].drawer == d {
        assert init[i] == sessions[i] && init[i] in init;
        assert j < n ==> init[j] == sessions[j];
      }
    }
  }

  /** Two open sessions of one drawer of the tenant. */
  ghost predicate Double(sessions: seq<Session>, tenant: Uuid, i: nat, j: nat)
    requires i < j < |sessions|
  {
    sessions[i].status == sessions[j].status == Open && sessions[i].drawer == sessions[j].drawer && sessions[i].drawer.tenant == tenant
  }

  /** What the check returns is empty if and only if no drawer of the tenant has two open sessions. */
  lemma SilentIffOneOpen(sessions: seq<Session>, tenant: Uuid, findings: seq<Finding>)
    requires ReportsDoubles(sessions, tenant, findings)
    ensures findings == [] <==> forall i, j :: 0 <= i < j < |sessions| ==> !Double(sessions, tenant, i, j)
  {
    if findings != [] {
      assert findings[0] in findings;
      CountAboveOne(sessions, findings[0].drawer);
      var i, j :| 0 <= i < j < |sessions| && sessions[i].status == sessions[j].status == Open
                  && sessions[i].drawer == sessions[j].drawer == findings[0].drawer;
      assert Double(sessions, tenant, i, j);
    }
    if i, j :| 0 <= i < j < |sessions| && Double(sessions, tenant, i, j) {
      CountAboveOne(sessions, sessions[i].drawer);
    }
  }

  /** In every reachable state the check returns nothing, for every tenant. */
  lemma ReachableSilent(start: Time, steps: seq<CashTheorems.Timed>, tenant: Uuid, findings: seq<Finding>)
    requires CashTheorems.InOrder(start, steps)
    requires ReportsDoubles(CashTheorems.Run(EMPTY, steps).sessions, tenant, findings)
    ensures findings == []
  {
    CashTheorems.ReachableSafe(start, steps);
    var db := CashTheorems.Run(EMPTY, steps);
    assert OneOpenPerDrawer(db);
    SilentIffOneOpen(db.sessions, tenant, findings);
  }
}
