/**
  What every request of the cash router keeps. The three safety clauses need each other:
  a drawer has one open session only because no session stays open on a closed day, which
  is what the open-session lookup filters on.
 */
module CashInvariants {
  import opened Common
  import opened CashModel

  // ----- safety -----

  ghost predicate StatusAgrees(db: Db)
  {
    forall i :: 0 <= i < |db.sessions| ==> (db.sessions[i].status == Open <==> db.sessions[i].closedAt == None)
  }

  ghost predicate NoOpenOnClosedDay(db: Db)
  {
    forall i :: 0 <= i < |db.sessions| && db.sessions[i].status == Open ==> !DayClosed(db.closes, db.sessions[i].Key())
  }

  ghost predicate OneOpenPerDrawer(db: Db)
  {
    forall i, j :: 0 <= i < j < |db.sessions| && db.sessions[i].status == Open && db.sessions[j].status == Open ==>
      db.sessions[i].drawer != db.sessions[j].drawer
  }

  ghost predicate Safe(db: Db)
  {
    StatusAgrees(db) && NoOpenOnClosedDay(db) && OneOpenPerDrawer(db)
  }

  // ----- the ledger -----

  /** An action that no rollup category includes. */
  predicate Uncounted(action: Action)
  {
    action == DAY_CLOSE || action.Voucher? || action.Other?
  }

  /** A movement belongs to the session it names, and to nobody's balance if it names none. */
  ghost predicate MovementLinked(sessions: seq<Session>, m: Movement)
  {
    match m.session
    case None => Uncounted(m.action)
    case Some(i) =>
      i < |sessions| && m.drawer == sessions[i].drawer && m.date == sessions[i].date && sessions[i].openedAt <= m.at
      && m.action in {OPEN, CASH_IN, CASH_OUT, SALE, CASH_OUT_REFUND, CLOSE} && (m.action != CLOSE ==> m.amount > 0)
  }

  ghost predicate CutLinked(sessions: seq<Session>, c: Cut)
  {
    c.session < |sessions| && c.tenant == sessions[c.session].drawer.tenant && c.store == sessions[c.session].drawer.store
  }

  /** The after-balance of the session's last movement. */
  function Balance(ms: seq<Movement>, i: nat): Money
  {
    if ms == [] then 0 else
    var m := ms[|ms| - 1];
    if m.session == Some(i) && m.after.Some? then m.after.value else Balance(ms[..|ms| - 1], i)
  }

  /** A movement starts from the session's balance, moves it by its signed amount, and stays at or above zero. */
  ghost predicate Continues(ms: seq<Movement>, m: Movement)
  {
    m.session.Some? ==>
      var b := Balance(ms, m.session.value);
      m.before == Some(b) && m.after == Some(b + Signed(m.action, m.amount)) && 0 <= b + Signed(m.action, m.amount)
  }

  ghost predicate Chained(ms: seq<Movement>)
  {
    ms == [] || (Chained(ms[..|ms| - 1]) && Continues(ms[..|ms| - 1], ms[|ms| - 1]))
  }

  function SessionOpening(i: nat): Movement -> int
  {
    (m: Movement) => if m.session == Some(i) && Normalize(m.action) == OPENING then m.amount else 0
  }

  ghost predicate SessionBalanced(db: Db, i: nat)
    requires i < |db.sessions|
  {
    var s := db.sessions[i];
    s.expected == Balance(db.movements, i) && s.expected >= 0
    && s.opening == Sum(db.movements, SessionOpening(i))
  }

  ghost predicate Ledger(db: Db)
  {
    && (forall m :: m in db.movements ==> MovementLinked(db.sessions, m))
    && (forall c :: c in db.cuts ==> CutLinked(db.sessions, c))
    && Chained(db.movements)
    && (forall i: nat :: i < |db.sessions| ==> SessionBalanced(db, i))
  }

  // ----- day closes -----

  ghost predicate ClosesKept(db: Db)
  {
    && (forall i, j :: 0 <= i < j < |db.closes| ==> db.closes[i].day != db.closes[j].day)
    && (forall c :: c in db.closes && c.status == Closed ==> c.totals == Rollup(db.movements, c.day))
  }

  // ----- cut numbers -----

  function CountCuts(cuts: seq<Cut>, session: nat): nat
  {
    if cuts == [] then 0
    else CountCuts(cuts[..|cuts| - 1], session) + (if cuts[|cuts| - 1].session == session then 1 else 0)
  }

  /** Each cut is numbered one more than the cuts of its session before it, over a non-empty window. */
  ghost predicate Numbered(cuts: seq<Cut>)
  {
    cuts == []
    || (Numbered(cuts[..|cuts| - 1])
        && cuts[|cuts| - 1].number == CountCuts(cuts[..|cuts| - 1], cuts[|cuts| - 1].session) + 1
        && cuts[|cuts| - 1].fromAt < cuts[|cuts| - 1].toAt)
  }

  // ----- the whole invariant, at a given clock -----

  ghost predicate Past(db: Db, clock: Time)
  {
    (forall m :: m in db.movements ==> m.at <= clock) && (forall s :: s in db.sessions ==> s.openedAt <= clock)
  }

  ghost predicate Inv(db: Db, clock: Time)
  {
    Safe(db) && Ledger(db) && ClosesKept(db) && Numbered(db.cuts) && Past(db, clock)
  }

  const EMPTY := Db([], [], [], [])

  // ----- how the parts react to an appended movement -----

  lemma BalanceAppend(ms: seq<Movement>, m: Movement, i: nat)
    ensures Balance(ms + [m], i) == if m.session == Some(i) && m.after.Some? then m.after.value else Balance(ms, i)
  {
    assert (ms + [m])[..|ms|] == ms;
  }

  lemma ChainedAppend(ms: seq<Movement>, m: Movement)
    requires Chained(ms) && Continues(ms, m)
    ensures Chained(ms + [m])
  {
    assert (ms + [m])[..|ms|] == ms;
  }

  /** What one movement adds to a category of a day. */
  function CategoryShare(m: Movement, day: Day, category: Action): Money
  {
    if m.Key() == day && Normalize(m.action) == category then m.amount else 0
  }

  lemma CategoryAppend(ms: seq<Movement>, m: Movement, day: Day, category: Action)
    ensures CategoryTotal(ms + [m], day, category)
            == CategoryTotal(ms, day, category) + CategoryShare(m, day, category)
  {
    SumAppend(ms, m, CategoryWeight(day, category));
  }

  lemma TotalsAppend(ms: seq<Movement>, m: Movement, day: Day)
    ensures var t := Rollup(ms, day);
            Rollup(ms + [m], day)
            == Totals(t.opening + CategoryShare(m, day, OPENING), t.cashIn + CategoryShare(m, day, CASH_IN),
                      t.cashOut + CategoryShare(m, day, CASH_OUT), t.netSales + CategoryShare(m, day, SALE_CASH_IN),
                      t.refunds + CategoryShare(m, day, CASH_OUT_REFUND))
  {
    CategoryAppend(ms, m, day, OPENING);
    CategoryAppend(ms, m, day, CASH_IN);
    CategoryAppend(ms, m, day, CASH_OUT);
    CategoryAppend(ms, m, day, SALE_CASH_IN);
    CategoryAppend(ms, m, day, CASH_OUT_REFUND);
  }

  lemma SharesAreSigned(m: Movement, day: Day)
    ensures CategoryShare(m, day, OPENING) + CategoryShare(m, day, CASH_IN) - CategoryShare(m, day, CASH_OUT)
            + CategoryShare(m, day, SALE_CASH_IN) - CategoryShare(m, day, CASH_OUT_REFUND)
            == if m.Key() == day then Signed(m.action, m.amount) else 0
  {
  }

  lemma RollupAppend(ms: seq<Movement>, m: Movement, day: Day)
    ensures Rollup(ms + [m], day).Expected()
            == Rollup(ms, day).Expected() + if m.Key() == day then Signed(m.action, m.amount) else 0
    ensures m.Key() != day || Normalize(m.action) !in {OPENING, CASH_IN, CASH_OUT, SALE_CASH_IN, CASH_OUT_REFUND} ==>
              Rollup(ms + [m], day) == Rollup(ms, day)
  {
    TotalsAppend(ms, m, day);
    SharesAreSigned(m, day);
  }

  /** The ledger clauses after one more movement and an arbitrary sessions table that agrees with it. */
  lemma LedgerAppend(db: Db, m: Movement, sessions: seq<Session>)
    requires Ledger(db) && |sessions| >= |db.sessions|
    requires forall i :: 0 <= i < |db.sessions| ==>
               sessions[i].drawer == db.sessions[i].drawer && sessions[i].date == db.sessions[i].date
               && sessions[i].openedAt == db.sessions[i].openedAt
    requires MovementLinked(sessions, m) && Continues(db.movements, m)
    requires forall i: nat :: i < |sessions| ==>
               SessionBalanced(db.(sessions := sessions, movements := db.movements + [m]), i)
    ensures Ledger(db.(sessions := sessions, movements := db.movements + [m]))
  {
    ChainedAppend(db.movements, m);
    var db' := db.(sessions := sessions, movements := db.movements + [m]);
    forall x | x in db'.movements ensures MovementLinked(sessions, x) {
      if x != m {
        assert x in db.movements;
        assert MovementLinked(db.sessions, x);
      }
    }
    forall c | c in db'.cuts ensures CutLinked(sessions, c) {
      assert CutLinked(db.sessions, c);
    }
  }

  // ----- the primitive writes keep the invariant -----

  /** Posting on an open session. */
  lemma PostKeepsLedger(db: Db, i: nat, ref: Ref, action: Action, amount: Money, now: Time)
    requires i < |db.sessions| && Ledger(db)
    requires action in {CASH_IN, CASH_OUT, SALE, CASH_OUT_REFUND, CLOSE} && (action != CLOSE ==> amount > 0)
    requires db.sessions[i].openedAt <= now
    requires 0 <= db.sessions[i].expected + Signed(action, amount)
    ensures Ledger(Post(db, i, db.sessions[i].drawer, ref, action, amount, now))
  {
    var db' := Post(db, i, db.sessions[i].drawer, ref, action, amount, now);
    var m := db'.movements[|db.movements|];
    assert SessionBalanced(db, i);
    forall j: nat | j < |db'.sessions| ensures SessionBalanced(db', j) {
      assert SessionBalanced(db, j);
      BalanceAppend(db.movements, m, j);
      SumAppend(db.movements, m, SessionOpening(j));
    }
    LedgerAppend(db, m, db'.sessions);
  }

  /** Only a day with an open session on it can have its rollup moved by a posting. */
  lemma PostKeepsCloses(db: Db, i: nat, d: Drawer, ref: Ref, action: Action, amount: Money, now: Time)
    requires i < |db.sessions| && Safe(db) && ClosesKept(db) && db.sessions[i].status == Open && db.sessions[i].drawer == d
    ensures ClosesKept(Post(db, i, d, ref, action, amount, now))
  {
    var db' := Post(db, i, d, ref, action, amount, now);
    forall c | c in db'.closes && c.status == Closed ensures c.totals == Rollup(db'.movements, c.day) {
      assert DayClosed(db.closes, c.day);
      RollupAppend(db.movements, db'.movements[|db.movements|], c.day);
    }
  }

  lemma PostKeepsSafe(db: Db, i: nat, d: Drawer, ref: Ref, action: Action, amount: Money, now: Time)
    requires i < |db.sessions| && Safe(db)
    ensures Safe(Post(db, i, d, ref, action, amount, now))
  {
    var db' := Post(db, i, d, ref, action, amount, now);
    assert forall j :: 0 <= j < |db.sessions| ==> db'.sessions[j].Key() == db.sessions[j].Key();
  }

  lemma PostKeeps(db: Db, i: nat, d: Drawer, ref: Ref, action: Action, amount: Money, clock: Time, now: Time)
    requires i < |db.sessions| && Inv(db, clock) && clock <= now
    requires db.sessions[i].status == Open && db.sessions[i].drawer == d
    requires action in {CASH_IN, CASH_OUT, SALE, CASH_OUT_REFUND, CLOSE} && (action != CLOSE ==> amount > 0)
    requires 0 <= db.sessions[i].expected + Signed(action, amount)
    ensures Inv(Post(db, i, d, ref, action, amount, now), now)
  {
    assert db.sessions[i] in db.sessions;
    PostKeepsLedger(db, i, ref, action, amount, now);
    PostKeepsCloses(db, i, d, ref, action, amount, now);
    PostKeepsSafe(db, i, d, ref, action, amount, now);
  }

  /** A movement outside every session and every rollup category: DAY_CLOSE and card or transfer vouchers. */
  lemma NeutralKeepsLedger(db: Db, m: Movement)
    requires Ledger(db) && m.session == None && Uncounted(m.action)
    ensures Ledger(db.(movements := db.movements + [m]))
  {
    var db' := db.(movements := db.movements + [m]);
    forall j: nat | j < |db.sessions| ensures SessionBalanced(db', j) {
      assert SessionBalanced(db, j);
      BalanceAppend(db.movements, m, j);
      SumAppend(db.movements, m, SessionOpening(j));
    }
    LedgerAppend(db, m, db.sessions);
  }

  lemma NeutralMovementKeeps(db: Db, m: Movement, clock: Time, now: Time)
    requires Inv(db, clock) && clock <= now && m.session == None && m.at <= now
    requires Uncounted(m.action)
    ensures Inv(db.(movements := db.movements + [m]), now)
    ensures forall day :: Rollup(db.movements + [m], day) == Rollup(db.movements, day)
  {
    forall day ensures Rollup(db.movements + [m], day) == Rollup(db.movements, day) {
      RollupAppend(db.movements, m, day);
    }
    NeutralKeepsLedger(db, m);
  }

  lemma NonCashKeeps(db: Db, d: Drawer, date: int, ref: Ref, kind: VoucherKind, refund: bool, amount: Money,
                     clock: Time, now: Time)
    requires Inv(db, clock) && clock <= now
    ensures Inv(PostNonCash(db, d, date, ref, kind, refund, amount, now), now)
  {
    NeutralMovementKeeps(db, Movement(d, None, date, ref, Voucher(kind, refund), amount, Some(0), Some(0), now), clock, now);
  }

  /** A cuts table of the same shape: same sessions, numbers and windows. */
  ghost predicate SameCuts(a: seq<Cut>, b: seq<Cut>)
  {
    |a| == |b|
    && forall k :: 0 <= k < |a| ==>
         && b[k].session == a[k].session && b[k].number == a[k].number
         && b[k].fromAt == a[k].fromAt && b[k].toAt == a[k].toAt && b[k].tenant == a[k].tenant && b[k].store == a[k].store
  }

  lemma {:induction false} SameCutsNumbered(a: seq<Cut>, b: seq<Cut>)
    requires SameCuts(a, b)
    ensures Numbered(a) ==> Numbered(b)
    ensures forall s: nat :: CountCuts(a, s) == CountCuts(b, s)
  {
    if a != [] {
      SameCutsNumbered(a[..|a| - 1], b[..|b| - 1]);
    }
  }

  lemma SameCutsKeep(db: Db, cuts: seq<Cut>, clock: Time)
    requires Inv(db, clock) && SameCuts(db.cuts, cuts)
    ensures Inv(db.(cuts := cuts), clock)
  {
    SameCutsNumbered(db.cuts, cuts);
    var db' := db.(cuts := cuts);
    forall c | c in cuts ensures CutLinked(db.sessions, c) {
      var k :| 0 <= k < |cuts| && cuts[k] == c;
      assert CutLinked(db.sessions, db.cuts[k]);
    }
    forall j: nat | j < |db.sessions| ensures SessionBalanced(db', j) {
      assert SessionBalanced(db, j);
    }
  }

  /** In a numbered table the last cut of a session carries the number of its cuts. */
  lemma {:induction false} LastNumber(cuts: seq<Cut>, session: nat)
    requires Numbered(cuts)
    ensures NextCutNumber(cuts, session) == CountCuts(cuts, session) + 1
  {
    if cuts != [] {
      LastNumber(cuts[..|cuts| - 1], session);
    }
  }

  lemma AddCutKeeps(db: Db, c: Cut, clock: Time)
    requires Inv(db, clock) && CutLinked(db.sessions, c)
    requires c.number == NextCutNumber(db.cuts, c.session) && c.fromAt < c.toAt
    ensures Inv(db.(cuts := db.cuts + [c]), clock)
  {
    var db' := db.(cuts := db.cuts + [c]);
    LastNumber(db.cuts, c.session);
    assert db'.cuts[..|db.cuts|] == db.cuts;
    forall j: nat | j < |db.sessions| ensures SessionBalanced(db', j) {
      assert SessionBalanced(db, j);
    }
    forall x | x in db'.cuts ensures CutLinked(db.sessions, x) {
      assert x == c || x in db.cuts;
    }
  }

  /** A sessions table whose rows differ only in being closed and counted. */
  ghost predicate ClosedSome(a: seq<Session>, b: seq<Session>)
  {
    |a| == |b|
    && forall i :: 0 <= i < |a| ==>
         b[i] == a[i]
         || (b[i].status == Closed && b[i].closedAt.Some?
             && b[i].drawer == a[i].drawer && b[i].date == a[i].date && b[i].openedAt == a[i].openedAt
             && b[i].opening == a[i].opening && b[i].expected == a[i].expected)
  }

  lemma ClosingKeeps(db: Db, sessions: seq<Session>, clock: Time)
    requires Inv(db, clock) && ClosedSome(db.sessions, sessions)
    ensures Inv(db.(sessions := sessions), clock)
  {
    var db' := db.(sessions := sessions);
    forall s | s in sessions ensures s.openedAt <= clock {
      var k :| 0 <= k < |sessions| && sessions[k] == s;
      assert db.sessions[k] in db.sessions;
    }
    forall m | m in db.movements ensures MovementLinked(sessions, m) {
      assert MovementLinked(db.sessions, m);
    }
    forall c | c in db.cuts ensures CutLinked(sessions, c) {
      assert CutLinked(db.sessions, c);
    }
    forall j: nat | j < |sessions| ensures SessionBalanced(db', j) {
      assert SessionBalanced(db, j);
    }
  }

  // ----- the steps keep the invariant -----

  lemma NoMovementsYet(ms: seq<Movement>, sessions: seq<Session>, i: nat)
    requires i >= |sessions| && forall m :: m in ms ==> MovementLinked(sessions, m)
    ensures Balance(ms, i) == 0 && Sum(ms, SessionOpening(i)) == 0
  {
    if ms != [] {
      assert ms[|ms| - 1] in ms;
      assert forall m :: m in ms[..|ms| - 1] ==> m in ms;
      NoMovementsYet(ms[..|ms| - 1], sessions, i);
    }
  }

  lemma OpenKeepsLedger(db: Db, s: Session, m: Movement)
    requires Ledger(db) && s.opening == s.expected > 0
    requires m == Movement(s.drawer, Some(|db.sessions|), s.date, NoRef, OPEN, s.opening, Some(0), Some(s.opening), s.openedAt)
    ensures Ledger(db.(sessions := db.sessions + [s], movements := db.movements + [m]))
  {
    var n := |db.sessions|;
    var db' := db.(sessions := db.sessions + [s], movements := db.movements + [m]);
    NoMovementsYet(db.movements, db.sessions, n);
    forall j: nat | j <= n ensures SessionBalanced(db', j) {
      if j < n {
        assert SessionBalanced(db, j);
      }
      BalanceAppend(db.movements, m, j);
      SumAppend(db.movements, m, SessionOpening(j));
    }
    LedgerAppend(db, m, db'.sessions);
  }

  lemma OpenKeepsSafe(db: Db, s: Session)
    requires Safe(db) && s.status == Open && s.closedAt == None && !HasClose(db.closes, s.Key())
    requires OpenSessionQuery(db, s.drawer).None?
    ensures Safe(db.(sessions := db.sessions + [s]))
  {
    var db' := db.(sessions := db.sessions + [s]);
    forall j: nat | j < |db.sessions| && db.sessions[j].status == Open ensures db.sessions[j].drawer != s.drawer {
      assert !Eligible(db, s.drawer, true, j);
    }
    assert forall j :: 0 <= j < |db.sessions| ==> db'.sessions[j] == db.sessions[j];
  }

  lemma OpenKeeps(db: Db, d: Drawer, opening: Option<Money>, date: Option<int>, timezone: string, clock: Time, now: Time)
    requires Inv(db, clock) && clock <= now && OpenStep(db, d, opening, date, timezone, now).Ok?
    ensures Inv(OpenStep(db, d, opening, date, timezone, now).value, now)
  {
    var db' := OpenStep(db, d, opening, date, timezone, now).value;
    var s, m := db'.sessions[|db.sessions|], db'.movements[|db.movements|];
    OpenKeepsLedger(db, s, m);
    OpenKeepsSafe(db, s);
    assert ClosesKept(db') by {
      forall c | c in db'.closes && c.status == Closed ensures c.totals == Rollup(db'.movements, c.day) {
        RollupAppend(db.movements, m, c.day);
      }
    }
  }

  lemma CashInKeeps(db: Db, d: Drawer, amount: Option<Money>, clock: Time, now: Time)
    requires Inv(db, clock) && clock <= now && CashInStep(db, d, amount, now).Ok?
    ensures Inv(CashInStep(db, d, amount, now).value, now)
  {
    var i := CurrentSession(db, d).value;
    assert SessionBalanced(db, i);
    PostKeeps(db, i, d, NoRef, CASH_IN, amount.value, clock, now);
  }

  lemma CashOutKeeps(db: Db, d: Drawer, amount: Option<Money>, clock: Time, now: Time)
    requires Inv(db, clock) && clock <= now && CashOutStep(db, d, amount, now).Ok?
    ensures Inv(CashOutStep(db, d, amount, now).value, now)
  {
    var i := CurrentSession(db, d).value;
    PostKeeps(db, i, d, NoRef, CASH_OUT, amount.value, clock, now);
  }

  lemma CloseKeeps(db: Db, d: Drawer, counted: Option<Money>, clock: Time, now: Time)
    requires Inv(db, clock) && clock <= now && CloseStep(db, d, counted, now).Ok?
    ensures Inv(CloseStep(db, d, counted, now).value, now)
  {
    var i := CurrentSession(db, d).value;
    assert SessionBalanced(db, i);
    PostKeeps(db, i, d, NoRef, CLOSE, 0, clock, now);
    var posted := Post(db, i, d, NoRef, CLOSE, 0, now);
    ClosingKeeps(posted, CloseStep(db, d, counted, now).value.sessions, now);
  }

  lemma RecordCashKeeps(db: Db, i: nat, action: Action, amount: Money, ref: Ref, clock: Time, now: Time)
    requires Inv(db, clock) && clock <= now && i < |db.sessions| && db.sessions[i].status == Open
    requires action in {SALE, CASH_IN, CASH_OUT, CASH_OUT_REFUND} && RecordCash(db, i, action, amount, ref, now).Ok?
    ensures Inv(RecordCash(db, i, action, amount, ref, now).value, now)
  {
    PostKeeps(db, i, db.sessions[i].drawer, ref, action, amount, clock, now);
  }

  lemma CreateCutKeeps(db: Db, r: Request, clock: Time, now: Time)
    requires r.CreateCut? && Inv(db, clock) && clock <= now && CreateCutStep(db, r, now).Ok?
    ensures Inv(CreateCutStep(db, r, now).value, now)
  {
    var i := ResolveActiveSession(db, r.drawer, r.session).value;
    var db' := CreateCutStep(db, r, now).value;
    if r.autoApply && Positive(r.deposit) {
      PostKeeps(db, i, r.drawer, NoRef, CASH_OUT, r.deposit.value, clock, now);
      AddCutKeeps(Post(db, i, r.drawer, NoRef, CASH_OUT, r.deposit.value, now), db'.cuts[|db.cuts|], now);
    } else {
      AddCutKeeps(db, db'.cuts[|db.cuts|], clock);
    }
  }

  lemma ActOnCutKeeps(db: Db, tenant: Uuid, store: Uuid, k: nat, action: CutAction, clock: Time, now: Time)
    requires Inv(db, clock) && clock <= now && ActOnCutStep(db, tenant, store, k, action, now).Ok?
    ensures Inv(ActOnCutStep(db, tenant, store, k, action, now).value, now)
  {
    var db' := ActOnCutStep(db, tenant, store, k, action, now).value;
    var cut := db.cuts[k];
    assert CutLinked(db.sessions, cut);
    if action.ApplyCashOut? {
      var d := db.sessions[cut.session].drawer;
      PostKeeps(db, cut.session, d, NoRef, CASH_OUT, action.amount.value, clock, now);
      SameCutsKeep(Post(db, cut.session, d, NoRef, CASH_OUT, action.amount.value, now), db'.cuts, now);
    } else {
      SameCutsKeep(db, db'.cuts, clock);
    }
  }

  /** Adding the record of a day none of whose sessions is open. */
  lemma AddCloseKeeps(db: Db, c: DayClose, clock: Time)
    requires Inv(db, clock) && !HasClose(db.closes, c.day) && c.totals == Rollup(db.movements, c.day)
    requires !AnyOpenOn(db.sessions, c.day)
    ensures Inv(db.(closes := db.closes + [c]), clock)
  {
    var db' := db.(closes := db.closes + [c]);
    assert Safe(db') by {
      forall j | 0 <= j < |db.sessions| && db.sessions[j].status == Open
        ensures !DayClosed(db'.closes, db.sessions[j].Key())
      {
        assert !DayClosed(db.closes, db.sessions[j].Key());
        assert db.sessions[j] in db.sessions;
      }
    }
    assert Ledger(db') by {
      forall j: nat | j < |db.sessions| ensures SessionBalanced(db', j) {
        assert SessionBalanced(db, j);
      }
    }
    assert ClosesKept(db');
  }

  lemma CloseAllLeavesNone(sessions: seq<Session>, day: Day, now: Time)
    ensures !AnyOpenOn(CloseAll(sessions, day, now), day)
    ensures ClosedSome(sessions, CloseAll(sessions, day, now))
  {
  }

  /** The sessions closed and the DAY_CLOSE movement written, before the record is added. */
  lemma CloseDayFirstKeeps(db: Db, day: Day, m: Movement, clock: Time, now: Time)
    requires Inv(db, clock) && clock <= now && m.session == None && m.at <= now && m.action == DAY_CLOSE
    ensures Inv(db.(sessions := CloseAll(db.sessions, day, now), movements := db.movements + [m]), now)
    ensures Rollup(db.movements + [m], day) == Rollup(db.movements, day)
  {
    CloseAllLeavesNone(db.sessions, day, now);
    var closed := db.(sessions := CloseAll(db.sessions, day, now));
    ClosingKeeps(db, closed.sessions, clock);
    NeutralMovementKeeps(closed, m, clock, now);
  }

  lemma CloseDayKeeps(db: Db, d: Drawer, role: Role, date: int, force: bool, reason: string, counted: Option<Money>,
                      clock: Time, now: Time)
    requires Inv(db, clock) && clock <= now && CloseDayStep(db, d, role, date, force, reason, counted, now).Ok?
    ensures Inv(CloseDayStep(db, d, role, date, force, reason, counted, now).value, now)
  {
    var day := Day(d.tenant, d.store, date);
    var m := Movement(d, None, date, NoRef, DAY_CLOSE, 0, None, None, now);
    CloseDayFirstKeeps(db, day, m, clock, now);
    CloseAllLeavesNone(db.sessions, day, now);
    AddCloseKeeps(db.(sessions := CloseAll(db.sessions, day, now), movements := db.movements + [m]),
                  CloseDayRecord(db, day, force, reason, counted, d.cashier, now), now);
  }

  /** The clock readings of a request: none runs back. */
  ghost predicate OnTime(r: Request, clock: Time, now: Time)
  {
    clock <= now && (r.CreateCut? ==> clock <= r.quotedAt <= now)
  }

  /** Every accepted request keeps the whole invariant. */
  lemma StepKeeps(db: Db, r: Request, clock: Time, now: Time)
    requires Inv(db, clock) && clock <= now && Step(db, r, now).Ok?
    ensures Inv(Step(db, r, now).value, now)
  {
    match r
    case OpenSession(d, opening, date, timezone) => OpenKeeps(db, d, opening, date, timezone, clock, now);
    case CashIn(d, amount) => CashInKeeps(db, d, amount, clock, now);
    case CashOut(d, amount) => CashOutKeeps(db, d, amount, clock, now);
    case CloseSession(d, counted) => CloseKeeps(db, d, counted, clock, now);
    case CreateCut(_, _, _, _, _, _, _, _, _, _) => CreateCutKeeps(db, r, clock, now);
    case ActOnCut(tenant, store, cut, action) => ActOnCutKeeps(db, tenant, store, cut, action, clock, now);
    case CloseDay(d, role, date, force, reason, counted) =>
      CloseDayKeeps(db, d, role, date, force, reason, counted, clock, now);
    case TakeSaleCash(d, refund, amount, ref) =>
      RecordCashKeeps(db, RequireOpenSession(db, d).value, if refund then CASH_OUT_REFUND else SALE, amount, ref, clock, now);
    case PayVoucherCash(d, refund, amount, ref) =>
      RecordCashKeeps(db, ActiveSession(db, d).value, if refund then CASH_OUT else CASH_IN, amount, ref, clock, now);
    case PostVoucher(d, date, ref, kind, refund, amount) => NonCashKeeps(db, d, date, ref, kind, refund, amount, clock, now);
  }
}
