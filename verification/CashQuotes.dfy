/** Cut quotes: the third computation of the same money, by time window. */
module CashQuotes {
  import opened Common
  import opened CashModel
  import opened CashInvariants
  import opened CashTheorems

  /** Signed amounts of a session's movements up to hi, without the opening. */
  function SignedUpTo(i: nat, hi: Time): Movement -> int
  {
    (m: Movement) => if m.session == Some(i) && m.at <= hi && Normalize(m.action) != OPENING then Signed(m.action, m.amount) else 0
  }

  /** What the invariant says of the movements of one session. */
  ghost predicate OfSession(ms: seq<Movement>, i: nat, d: Drawer, openedAt: Time)
  {
    forall m :: m in ms && m.session == Some(i) ==>
      m.drawer.tenant == d.tenant && m.drawer.store == d.store && openedAt <= m.at
      && m.action in {OPEN, CASH_IN, CASH_OUT, SALE, CASH_OUT_REFUND, CLOSE}
  }

  /** A window and what came before it, action by action, make up the signed sum. */
  lemma {:induction false} WindowsCover(ms: seq<Movement>, i: nat, d: Drawer, openedAt: Time, lo: Time, hi: Time)
    requires OfSession(ms, i, d, openedAt) && lo <= hi
    ensures WindowTotal(ms, i, d, CASH_IN, openedAt, lo, false) + WindowTotal(ms, i, d, CASH_IN, lo, hi, true)
            - WindowTotal(ms, i, d, CASH_OUT, openedAt, lo, false) - WindowTotal(ms, i, d, CASH_OUT, lo, hi, true)
            + WindowTotal(ms, i, d, SALE, openedAt, lo, false) + WindowTotal(ms, i, d, SALE, lo, hi, true)
            - WindowTotal(ms, i, d, CASH_OUT_REFUND, openedAt, lo, false) - WindowTotal(ms, i, d, CASH_OUT_REFUND, lo, hi, true)
            == Sum(ms, SignedUpTo(i, hi))
  {
    if ms != [] {
      var init, m := ms[..|ms| - 1], ms[|ms| - 1];
      assert m in ms;
      WindowsCover(init, i, d, openedAt, lo, hi);
    }
  }

  /**
    The expected cash of a quote does not depend on where its window starts: it is the opening
    amount plus the signed sum of the session's movements up to hi, off by exactly the gap
    between the CASH payments of paid sales and the session's SALE movements in the window.
   */
  lemma QuoteIsSignedSum(db: Db, clock: Time, i: nat, d: Drawer, lo: Time, hi: Time, sales: seq<Sale>)
    requires Inv(db, clock) && i < |db.sessions| && lo <= hi
    requires d.tenant == db.sessions[i].drawer.tenant && d.store == db.sessions[i].drawer.store
    ensures Quote(db, i, d, lo, hi, sales).Expected()
            == db.sessions[i].opening + Sum(db.movements, SignedUpTo(i, hi))
               + (SalesIn(sales, d, lo, hi).cash - WindowTotal(db.movements, i, d, SALE, lo, hi, true))
  {
    var s := db.sessions[i];
    assert OfSession(db.movements, i, d, s.openedAt) by {
      forall m | m in db.movements && m.session == Some(i) ensures MovementLinked(db.sessions, m) {
      }
    }
    WindowsCover(db.movements, i, d, s.openedAt, lo, hi);
  }

  function SignedOf(i: nat): Movement -> int
  {
    (m: Movement) => if m.session == Some(i) then Signed(m.action, m.amount) else 0
  }

  /** The chain telescopes: a balance is the signed sum of the session's movements. */
  lemma {:induction false} BalanceIsSignedSum(ms: seq<Movement>, i: nat)
    requires Chained(ms)
    ensures Balance(ms, i) == Sum(ms, SignedOf(i))
  {
    if ms != [] {
      BalanceIsSignedSum(ms[..|ms| - 1], i);
    }
  }

  /** A quote reaching past the last movement is the session's expected cash, up to the same sales gap. */
  lemma QuoteIsExpectedCash(db: Db, clock: Time, i: nat, d: Drawer, lo: Time, hi: Time, sales: seq<Sale>)
    requires Inv(db, clock) && i < |db.sessions| && lo <= hi
    requires d.tenant == db.sessions[i].drawer.tenant && d.store == db.sessions[i].drawer.store
    requires forall m :: m in db.movements && m.session == Some(i) ==> m.at <= hi
    ensures Quote(db, i, d, lo, hi, sales).Expected()
            == db.sessions[i].expected
               + (SalesIn(sales, d, lo, hi).cash - WindowTotal(db.movements, i, d, SALE, lo, hi, true))
  {
    QuoteIsSignedSum(db, clock, i, d, lo, hi, sales);
    assert SessionBalanced(db, i);
    BalanceIsSignedSum(db.movements, i);
    SumSplit(db.movements, SignedOf(i), SessionOpening(i), SignedUpTo(i, hi));
  }

  /**
    A cut taken up to now records the drawer as it is before its own deposit, and the counted
    difference is measured against it; a deposit leaves the drawer lower by its amount.
   */
  lemma CutMeasuresDrawer(db: Db, r: Request, clock: Time, now: Time)
    requires r.CreateCut? && r.toAt.None? && Inv(db, clock) && OnTime(r, clock, now) && CreateCutStep(db, r, now).Ok?
    ensures var db' := CreateCutStep(db, r, now).value;
            var c := db'.cuts[|db'.cuts| - 1];
            var gap := c.figures.sales.cash - WindowTotal(db.movements, c.session, r.drawer, SALE, c.fromAt, c.toAt, true);
            |db'.cuts| == |db.cuts| + 1 && c.session < |db.sessions|
            && c.figures.Expected() == db.sessions[c.session].expected + gap
            && (r.counted.Some? ==> c.difference == Some(r.counted.value - (db.sessions[c.session].expected + gap)))
            && db'.sessions[c.session].expected
               == db.sessions[c.session].expected - (if r.autoApply && Positive(r.deposit) then r.deposit.value else 0)
  {
    var db' := CreateCutStep(db, r, now).value;
    var c := db'.cuts[|db'.cuts| - 1];
    QuoteIsExpectedCash(db, clock, c.session, r.drawer, c.fromAt, c.toAt, r.sales);
  }

  /** What an accepted CLOSE leaves: the session counted, its movement posted, the others as they were. */
  lemma Closed(db: Db, d: Drawer, counted: Option<Money>, now: Time)
    requires CloseStep(db, d, counted, now).Ok?
    ensures OpenSessionQuery(db, d).Some?
    ensures var db', i := CloseStep(db, d, counted, now).value, OpenSessionQuery(db, d).value;
            |db'.sessions| == |db.sessions| && db'.closes == db.closes
            && db'.sessions[i].difference == Some(counted.value - db.sessions[i].expected) && db'.sessions[i].status == Status.Closed
            && forall j :: 0 <= j < |db.sessions| && j != i ==> db'.sessions[j] == db.sessions[j]
  {
  }

  lemma NoneOpenLeft(db: Db, sessions: seq<Session>, d: Drawer, i: nat)
    requires OneOpenPerDrawer(db) && |sessions| == |db.sessions| && i < |sessions|
    requires Eligible(db, d, true, i) && sessions[i].status == Status.Closed
    requires forall j :: 0 <= j < |sessions| && j != i ==> sessions[j] == db.sessions[j]
    ensures forall j: nat :: j < |sessions| ==> !(sessions[j].drawer == d && IsOpen(sessions[j]))
  {
  }

  lemma SessionIsSum(db: Db, clock: Time, i: nat)
    requires Inv(db, clock) && i < |db.sessions|
    ensures db.sessions[i].expected == Sum(db.movements, SignedOf(i))
  {
    assert SessionBalanced(db, i);
    BalanceIsSignedSum(db.movements, i);
  }

  lemma CloseLeavesNone(db: Db, d: Drawer, counted: Option<Money>, now: Time)
    requires OneOpenPerDrawer(db) && CloseStep(db, d, counted, now).Ok?
    ensures OpenSessionQuery(CloseStep(db, d, counted, now).value, d).None?
  {
    Closed(db, d, counted, now);
    NoneOpenLeft(db, CloseStep(db, d, counted, now).value.sessions, d, OpenSessionQuery(db, d).value);
  }

  lemma ClosedIsSum(db: Db, d: Drawer, counted: Option<Money>, clock: Time, now: Time, i: nat)
    requires Inv(db, clock) && clock <= now && CloseStep(db, d, counted, now).Ok? && i < |db.sessions|
    ensures var db' := CloseStep(db, d, counted, now).value;
            i < |db'.sessions| && db'.sessions[i].expected == Sum(db'.movements, SignedOf(i))
  {
    CloseKeeps(db, d, counted, clock, now);
    Closed(db, d, counted, now);
    SessionIsSum(CloseStep(db, d, counted, now).value, now, i);
  }

  lemma CloseMeasures(db: Db, d: Drawer, counted: Option<Money>, clock: Time, now: Time)
    requires Inv(db, clock) && clock <= now && CloseStep(db, d, counted, now).Ok?
    ensures OpenSessionQuery(db, d).Some?
    ensures var db', i := CloseStep(db, d, counted, now).value, OpenSessionQuery(db, d).value;
            i < |db'.sessions| && db'.sessions[i].difference == Some(counted.value - Sum(db.movements, SignedOf(i)))
            && db'.sessions[i].expected == Sum(db'.movements, SignedOf(i))
  {
    Closed(db, d, counted, now);
    SessionIsSum(db, clock, OpenSessionQuery(db, d).value);
    ClosedIsSum(db, d, counted, clock, now, OpenSessionQuery(db, d).value);
  }

  /** Closing a session measures the count against everything posted on it, and leaves the drawer without an open session. */
  lemma CloseMeasuresDrawer(db: Db, d: Drawer, counted: Option<Money>, clock: Time, now: Time)
    requires Inv(db, clock) && clock <= now && CloseStep(db, d, counted, now).Ok?
    ensures var db' := CloseStep(db, d, counted, now).value;
            && OpenSessionQuery(db, d).Some? && OpenSessionQuery(db', d).None?
            && var i := OpenSessionQuery(db, d).value;
            i < |db'.sessions| && db'.sessions[i].difference == Some(counted.value - Sum(db.movements, SignedOf(i)))
            && db'.sessions[i].expected == Sum(db'.movements, SignedOf(i))
  {
    CloseMeasures(db, d, counted, clock, now);
    CloseLeavesNone(db, d, counted, now);
  }

  lemma DayRecorded(db: Db, d: Drawer, role: Role, date: int, force: bool, reason: string, counted: Option<Money>, now: Time)
    requires CloseDayStep(db, d, role, date, force, reason, counted, now).Ok?
    ensures CloseDayStep(db, d, role, date, force, reason, counted, now).value.closes
            == db.closes + [DayRecord(Rollup(db.movements, Day(d.tenant, d.store, date)), Day(d.tenant, d.store, date), force, reason, counted, d.cashier, now)]
  {
  }

  /** The record of a count names the sign of its gap. */
  ghost predicate RecordsGap(record: DayClose, day: Day, gap: Money)
  {
    && record.day == day && record.difference.Some? && record.difference.value == gap
    && (record.differenceType == Some(OVER) <==> gap > 0)
    && (record.differenceType == Some(SHORT) <==> gap < 0)
    && (record.differenceType == Some(EVEN) <==> gap == 0)
  }

  lemma RecordMeasures(totals: Totals, day: Day, force: bool, reason: string, counted: Money, closer: Uuid, now: Time, expected: Money)
    requires totals.Expected() == expected
    ensures RecordsGap(DayRecord(totals, day, force, reason, Some(counted), closer, now), day, counted - expected)
  {
  }

  /** Closing a day measures the count against the expected cash of all sessions of the day, and names the sign. */
  lemma DayCloseMeasuresSessions(db: Db, d: Drawer, role: Role, date: int, force: bool, reason: string, counted: Money,
                                 clock: Time, now: Time)
    requires Inv(db, clock) && CloseDayStep(db, d, role, date, force, reason, Some(counted), now).Ok?
    ensures var day := Day(d.tenant, d.store, date);
            var record := DayRecord(Rollup(db.movements, day), day, force, reason, Some(counted), d.cashier, now);
            CloseDayStep(db, d, role, date, force, reason, Some(counted), now).value.closes == db.closes + [record]
            && RecordsGap(record, day, counted - Sum(db.sessions, ExpectedOn(day)))
  {
    var day := Day(d.tenant, d.store, date);
    DayRecorded(db, d, role, date, force, reason, Some(counted), now);
    RollupIsSessions(db, clock, day);
    RecordMeasures(Rollup(db.movements, day), day, force, reason, counted, d.cashier, now, Sum(db.sessions, ExpectedOn(day)));
  }
}
