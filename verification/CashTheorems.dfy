/** What holds of every run of the cash drawer. */
module CashTheorems {
  import opened Common
  import opened CashModel
  import opened CashInvariants

  // ----- runs -----

  datatype Timed = Timed(request: Request, now: Time)

  /** A refused request changes nothing. */
  function After(db: Db, r: Request, now: Time): Db
  {
    Kept(db, Step(db, r, now))
  }

  function Run(db: Db, steps: seq<Timed>): Db
  {
    if steps == [] then db
    else After(Run(db, steps[..|steps| - 1]), steps[|steps| - 1].request, steps[|steps| - 1].now)
  }

  function Clock(start: Time, steps: seq<Timed>): Time
  {
    if steps == [] then start else steps[|steps| - 1].now
  }

  /** Requests are served one after the other and the clock never runs back. */
  ghost predicate InOrder(start: Time, steps: seq<Timed>)
  {
    steps == []
    || (InOrder(start, steps[..|steps| - 1])
        && OnTime(steps[|steps| - 1].request, Clock(start, steps[..|steps| - 1]), steps[|steps| - 1].now))
  }

  lemma {:induction false} RunKeeps(db: Db, start: Time, steps: seq<Timed>)
    requires Inv(db, start) && InOrder(start, steps)
    ensures Inv(Run(db, steps), Clock(start, steps))
  {
    if steps != [] {
      var n := |steps| - 1;
      RunKeeps(db, start, steps[..n]);
      var mid := Run(db, steps[..n]);
      if Step(mid, steps[n].request, steps[n].now).Ok? {
        StepKeeps(mid, steps[n].request, Clock(start, steps[..n]), steps[n].now);
      } else {
        LaterKeeps(mid, Clock(start, steps[..n]), steps[n].now);
      }
    }
  }

  lemma LaterKeeps(db: Db, clock: Time, now: Time)
    requires Inv(db, clock) && clock <= now
    ensures Inv(db, now)
  {
  }

  /** From empty tables on, in every reachable state. */
  lemma ReachableSafe(start: Time, steps: seq<Timed>)
    requires InOrder(start, steps)
    ensures Inv(Run(EMPTY, steps), Clock(start, steps))
  {
    RunKeeps(EMPTY, start, steps);
  }

  // ----- a closed day is frozen -----

  lemma StepKeepsCloseRecords(db: Db, r: Request, now: Time)
    ensures db.closes <= After(db, r, now).closes
  {
  }

  lemma {:induction false} RunKeepsCloseRecords(db: Db, steps: seq<Timed>)
    ensures db.closes <= Run(db, steps).closes
  {
    if steps != [] {
      RunKeepsCloseRecords(db, steps[..|steps| - 1]);
      StepKeepsCloseRecords(Run(db, steps[..|steps| - 1]), steps[|steps| - 1].request, steps[|steps| - 1].now);
    }
  }

  /**
    Once a day is closed no run changes what its rollup reports, so the stored totals stay
    right for ever. APPLY_CASH_OUT is covered although it never looks at the day closes.
   */
  lemma ClosedDayFrozen(db: Db, start: Time, steps: seq<Timed>, record: DayClose)
    requires Inv(db, start) && InOrder(start, steps)
    requires record in db.closes && record.status == Closed
    ensures Rollup(Run(db, steps).movements, record.day) == Rollup(db.movements, record.day) == record.totals
    ensures record in Run(db, steps).closes
  {
    RunKeeps(db, start, steps);
    RunKeepsCloseRecords(db, steps);
    assert record in Run(db, steps).closes;
  }

  /** A request changes only sessions that are open. */
  lemma OthersKeepClosed(db: Db, r: Request, now: Time, i: nat)
    requires i < |db.sessions| && db.sessions[i].status == Closed
    requires r.OpenSession? || r.CashIn? || r.CashOut? || r.CloseSession? || r.TakeSaleCash? || r.PayVoucherCash? || r.PostVoucher?
    ensures i < |After(db, r, now).sessions| && After(db, r, now).sessions[i] == db.sessions[i]
  {
  }

  lemma CutsAndDaysKeepClosed(db: Db, r: Request, now: Time, i: nat)
    requires i < |db.sessions| && db.sessions[i].status == Closed
    requires r.CreateCut? || r.ActOnCut? || r.CloseDay?
    ensures i < |After(db, r, now).sessions| && After(db, r, now).sessions[i] == db.sessions[i]
  {
  }

  /** Nor does any run touch a session of a closed day: status, cash, count and times all stay. */
  lemma {:induction false} ClosedDaySessionsFrozen(db: Db, start: Time, steps: seq<Timed>, i: nat)
    requires Inv(db, start) && InOrder(start, steps) && i < |db.sessions| && DayClosed(db.closes, db.sessions[i].Key())
    ensures i < |Run(db, steps).sessions| && Run(db, steps).sessions[i] == db.sessions[i]
  {
    if steps != [] {
      var n := |steps| - 1;
      ClosedDaySessionsFrozen(db, start, steps[..n], i);
      RunKeeps(db, start, steps[..n]);
      RunKeepsCloseRecords(db, steps[..n]);
      var mid, r := Run(db, steps[..n]), steps[n].request;
      assert mid.sessions[i].status == Closed;
      if r.CreateCut? || r.ActOnCut? || r.CloseDay? {
        CutsAndDaysKeepClosed(mid, r, steps[n].now, i);
      } else {
        OthersKeepClosed(mid, r, steps[n].now, i);
      }
    }
  }

  // ----- the rollup equals the sessions -----

  function ExpectedOn(day: Day): Session -> int
  {
    (s: Session) => if s.Key() == day then s.expected else 0
  }

  /** The balances of the first n sessions, restricted to one day. */
  function DayBalance(sessions: seq<Session>, ms: seq<Movement>, day: Day, n: nat): Money
    requires n <= |sessions|
  {
    if n == 0 then 0
    else DayBalance(sessions, ms, day, n - 1) + if sessions[n - 1].Key() == day then Balance(ms, n - 1) else 0
  }

  lemma {:induction false} DayBalanceAppend(sessions: seq<Session>, ms: seq<Movement>, m: Movement, day: Day, n: nat)
    requires n <= |sessions| && Continues(ms, m)
    ensures DayBalance(sessions, ms + [m], day, n) == DayBalance(sessions, ms, day, n)
            + if m.session.Some? && m.session.value < n && sessions[m.session.value].Key() == day
              then Signed(m.action, m.amount) else 0
  {
    if n > 0 {
      DayBalanceAppend(sessions, ms, m, day, n - 1);
      BalanceAppend(ms, m, n - 1);
    }
  }

  /** Grouping by day and category, or by session: the same money. */
  lemma {:induction false} RollupIsDayBalance(sessions: seq<Session>, ms: seq<Movement>, day: Day)
    requires Chained(ms) && forall m :: m in ms ==> MovementLinked(sessions, m)
    ensures Rollup(ms, day).Expected() == DayBalance(sessions, ms, day, |sessions|)
  {
    if ms == [] {
      NoBalance(sessions, day, |sessions|);
    } else {
      var init, m := ms[..|ms| - 1], ms[|ms| - 1];
      assert ms == init + [m];
      assert MovementLinked(sessions, m);
      RollupIsDayBalance(sessions, init, day);
      RollupAppend(init, m, day);
      DayBalanceAppend(sessions, init, m, day, |sessions|);
    }
  }

  lemma NoBalance(sessions: seq<Session>, day: Day, n: nat)
    requires n <= |sessions|
    ensures DayBalance(sessions, [], day, n) == 0
  {
  }

  lemma {:induction false} DayBalanceIsExpected(db: Db, day: Day, n: nat)
    requires n <= |db.sessions| && Ledger(db)
    ensures DayBalance(db.sessions, db.movements, day, n) == Sum(db.sessions[..n], ExpectedOn(day))
  {
    if n > 0 {
      DayBalanceIsExpected(db, day, n - 1);
      assert SessionBalanced(db, n - 1);
      assert db.sessions[..n][..n - 1] == db.sessions[..n - 1];
    }
  }

  /** The day's rollup and the sessions' own expected cash agree, whatever mix of requests came before. */
  lemma RollupIsSessions(db: Db, clock: Time, day: Day)
    requires Inv(db, clock)
    ensures Rollup(db.movements, day).Expected() == Sum(db.sessions, ExpectedOn(day))
  {
    RollupIsDayBalance(db.sessions, db.movements, day);
    DayBalanceIsExpected(db, day, |db.sessions|);
    assert db.sessions[..|db.sessions|] == db.sessions;
  }

  // ----- the balance chain of a session -----

  lemma {:induction false} ChainLink(ms: seq<Movement>, k: nat)
    requires Chained(ms) && k < |ms|
    ensures Continues(ms[..k], ms[k])
  {
    if k < |ms| - 1 {
      ChainLink(ms[..|ms| - 1], k);
      assert ms[..|ms| - 1][..k] == ms[..k];
    }
  }

  lemma {:induction false} BalanceIsLastAfter(ms: seq<Movement>, i: nat, j: nat)
    requires j < |ms| && ms[j].session == Some(i) && ms[j].after.Some?
    requires forall k :: j < k < |ms| ==> ms[k].session != Some(i)
    ensures Balance(ms, i) == ms[j].after.value
  {
    if j < |ms| - 1 {
      BalanceIsLastAfter(ms[..|ms| - 1], i, j);
    }
  }

  lemma {:induction false} NoMovementNoBalance(ms: seq<Movement>, i: nat)
    requires forall k :: 0 <= k < |ms| ==> ms[k].session != Some(i)
    ensures Balance(ms, i) == 0
  {
    if ms != [] {
      NoMovementNoBalance(ms[..|ms| - 1], i);
    }
  }

  ghost predicate NextOf(ms: seq<Movement>, i: nat, j: int, k: int)
  {
    -1 <= j < k <= |ms|
    && (j >= 0 ==> ms[j].session == Some(i)) && (k < |ms| ==> ms[k].session == Some(i))
    && forall x :: j < x < k ==> ms[x].session != Some(i)
  }

  /**
    Two neighbouring movements of a session (j = -1 before the first, k = |ms| after the last):
    the balances meet, the chain starts at zero, ends at the session's expected cash,
    moves by the signed amount and never goes below zero.
   */
  lemma UnbrokenChain(db: Db, clock: Time, i: nat, j: int, k: int)
    requires Inv(db, clock) && i < |db.sessions| && NextOf(db.movements, i, j, k)
    ensures var ms := db.movements;
            var left := if j >= 0 then ms[j].after else Some(0);
            var right := if k < |ms| then ms[k].before else Some(db.sessions[i].expected);
            left == right && left.Some? && left.value >= 0
            && (k < |ms| ==> ms[k].after == Some(left.value + Signed(ms[k].action, ms[k].amount)))
  {
    var ms := db.movements;
    assert SessionBalanced(db, i);
    if j >= 0 {
      ChainLink(ms, j);
      assert ms[..k][j] == ms[j];
      BalanceIsLastAfter(ms[..k], i, j);
    } else {
      NoMovementNoBalance(ms[..k], i);
    }
    if k < |ms| {
      ChainLink(ms, k);
    } else {
      assert ms[..k] == ms;
    }
  }

  // ----- the open-session lookups -----

  /** With the invariant there is at most one row to find, so filter and order do not matter. */
  lemma LookupsAgree(db: Db, clock: Time, d: Drawer)
    requires Inv(db, clock)
    ensures OpenSessionQuery(db, d) == ActiveSession(db, d) == FirstOpen(db, d, 0)
    ensures OpenSessionQuery(db, d).Some? ==> RequireOpenSession(db, d) == OpenSessionQuery(db, d)
    ensures forall id: nat :: ResolveActiveSession(db, d, Some(id)) == if OpenSessionQuery(db, d) == Some(id) then Some(id) else None
  {
    var n := |db.sessions|;
    assert forall i: nat :: i < n ==> Eligible(db, d, true, i) == Eligible(db, d, false, i);
    assert forall i: nat :: i < n ==> (Eligible(db, d, false, i) <==> db.sessions[i].status == Open && db.sessions[i].drawer == d);
  }

  // ----- why the safety clauses need each other -----

  ghost predicate OneOpenOf(sessions: seq<Session>, d: Drawer)
  {
    forall i, j :: 0 <= i < j < |sessions| && sessions[i].status == Open && sessions[j].status == Open ==>
      sessions[i].drawer != d || sessions[j].drawer != d
  }

  /** An open session of the drawer on a closed day: the lookup passes it over. */
  ghost predicate HasStaleOpen(db: Db, d: Drawer)
  {
    exists s :: s in db.sessions && s.drawer == d && s.status == Open && DayClosed(db.closes, s.Key())
  }

  /** An accepted OPEN leaves the drawer with one open session if and only if it had no stale one. */
  lemma OpenKeepsOneIffNoStale(db: Db, d: Drawer, opening: Option<Money>, date: Option<int>, timezone: string, now: Time)
    requires StatusAgrees(db) && OpenStep(db, d, opening, date, timezone, now).Ok?
    ensures OneOpenOf(OpenStep(db, d, opening, date, timezone, now).value.sessions, d) <==> !HasStaleOpen(db, d)
  {
    var sessions := OpenStep(db, d, opening, date, timezone, now).value.sessions;
    var n := |db.sessions|;
    assert forall i: nat :: i < n ==> !Eligible(db, d, true, i);
    assert forall i :: 0 <= i < n ==> sessions[i] == db.sessions[i];
    if HasStaleOpen(db, d) {
      var s :| s in db.sessions && s.drawer == d && s.status == Open && DayClosed(db.closes, s.Key());
      var i :| 0 <= i < n && db.sessions[i] == s;
      assert sessions[i].status == Open && sessions[n].status == Open;
    } else {
      forall i: nat | i < n && db.sessions[i].drawer == d ensures sessions[i].status == Closed {
        assert db.sessions[i] in db.sessions && !Eligible(db, d, true, i);
      }
    }
  }

  /**
    APPLY_CASH_OUT without the invariant: an accepted one moves the rollup of its session's day, closed or not.
   */
  lemma ApplyMovesRollup(db: Db, tenant: Uuid, store: Uuid, k: nat, amount: Option<Money>, now: Time)
    requires ActOnCutStep(db, tenant, store, k, ApplyCashOut(amount), now).Ok?
    requires CutLinked(db.sessions, db.cuts[k])
    ensures var db' := ActOnCutStep(db, tenant, store, k, ApplyCashOut(amount), now).value;
            var day := db.sessions[db.cuts[k].session].Key();
            Rollup(db'.movements, day).Expected() == Rollup(db.movements, day).Expected() - amount.value
            && amount.value > 0
  {
    var db' := ActOnCutStep(db, tenant, store, k, ApplyCashOut(amount), now).value;
    RollupAppend(db.movements, db'.movements[|db.movements|], db.sessions[db.cuts[k].session].Key());
  }

  // ----- which requests can move a closed day at all -----

  /** The rollup of a day with a CLOSED record is not what it was. */
  ghost predicate MovesClosed(db: Db, db': Db)
  {
    exists c :: c in db.closes && c.status == Closed && Rollup(db'.movements, c.day) != Rollup(db.movements, c.day)
  }

  /** Nothing is posted but, at most, one movement that no category includes or whose day is not closed. */
  ghost predicate PostsElsewhere(db: Db, ms: seq<Movement>)
  {
    ms == db.movements
    || (|ms| == |db.movements| + 1 && ms[..|db.movements|] == db.movements
        && (Uncounted(ms[|db.movements|].action) || !DayClosed(db.closes, ms[|db.movements|].Key())))
  }

  lemma CategoryUnmoved(ms: seq<Movement>, m: Movement, day: Day, category: Action)
    requires CategoryShare(m, day, category) == 0
    ensures CategoryTotal(ms + [m], day, category) == CategoryTotal(ms, day, category)
  {
    CategoryAppend(ms, m, day, category);
  }

  lemma NothingShared(m: Movement, day: Day, category: Action)
    requires m.Key() != day || (Uncounted(m.action) && !Uncounted(category))
    ensures CategoryShare(m, day, category) == 0
  {
  }

  lemma RollupUnmoved(ms: seq<Movement>, m: Movement, day: Day)
    requires m.Key() != day || Uncounted(m.action)
    ensures Rollup(ms + [m], day) == Rollup(ms, day)
  {
    NothingShared(m, day, OPENING);
    NothingShared(m, day, CASH_IN);
    NothingShared(m, day, CASH_OUT);
    NothingShared(m, day, SALE_CASH_IN);
    NothingShared(m, day, CASH_OUT_REFUND);
    CategoryUnmoved(ms, m, day, OPENING);
    CategoryUnmoved(ms, m, day, CASH_IN);
    CategoryUnmoved(ms, m, day, CASH_OUT);
    CategoryUnmoved(ms, m, day, SALE_CASH_IN);
    CategoryUnmoved(ms, m, day, CASH_OUT_REFUND);
  }

  lemma NotOnDay(closes: seq<DayClose>, m: Movement, c: DayClose)
    requires c in closes && c.status == Closed && !DayClosed(closes, m.Key())
    ensures m.Key() != c.day
  {
  }

  lemma ElsewhereMovesNothing(db: Db, db': Db)
    requires PostsElsewhere(db, db'.movements)
    ensures !MovesClosed(db, db')
  {
    if db'.movements != db.movements {
      var m := db'.movements[|db.movements|];
      assert db'.movements == db.movements + [m];
      forall c | c in db.closes && c.status == Closed ensures Rollup(db'.movements, c.day) == Rollup(db.movements, c.day) {
        if !Uncounted(m.action) {
          NotOnDay(db.closes, m, c);
        }
        RollupUnmoved(db.movements, m, c.day);
      }
    }
  }

  lemma SessionPostsElsewhere(db: Db, r: Request, now: Time)
    requires r.OpenSession? || r.CashIn? || r.CashOut? || r.CloseSession?
    requires Step(db, r, now).Ok?
    ensures PostsElsewhere(db, Step(db, r, now).value.movements)
  {
  }

  lemma RecordPostsElsewhere(db: Db, i: nat, action: Action, amount: Money, ref: Ref, now: Time)
    requires i < |db.sessions| && RecordCash(db, i, action, amount, ref, now).Ok?
    ensures PostsElsewhere(db, RecordCash(db, i, action, amount, ref, now).value.movements)
  {
  }

  lemma PaidPostsElsewhere(db: Db, r: Request, now: Time)
    requires (r.TakeSaleCash? || r.PayVoucherCash? || r.PostVoucher?) && Step(db, r, now).Ok?
    ensures PostsElsewhere(db, Step(db, r, now).value.movements)
  {
    if r.TakeSaleCash? {
      RecordPostsElsewhere(db, RequireOpenSession(db, r.drawer).value, if r.refund then CASH_OUT_REFUND else SALE, r.paid, r.ref, now);
    } else if r.PayVoucherCash? {
      RecordPostsElsewhere(db, ActiveSession(db, r.drawer).value, if r.refund then CASH_OUT else CASH_IN, r.paid, r.ref, now);
    }
  }

  lemma CutPostsElsewhere(db: Db, r: Request, now: Time)
    requires r.CreateCut? && Step(db, r, now).Ok?
    ensures PostsElsewhere(db, Step(db, r, now).value.movements)
  {
  }

  lemma OtherPostsElsewhere(db: Db, r: Request, now: Time)
    requires (r.ActOnCut? && !r.action.ApplyCashOut?) || r.CloseDay?
    requires Step(db, r, now).Ok?
    ensures PostsElsewhere(db, Step(db, r, now).value.movements)
  {
  }

  lemma StepPostsElsewhere(db: Db, r: Request, now: Time)
    requires Step(db, r, now).Ok? && !(r.ActOnCut? && r.action.ApplyCashOut?)
    ensures PostsElsewhere(db, Step(db, r, now).value.movements)
  {
    if r.OpenSession? || r.CashIn? || r.CashOut? || r.CloseSession? {
      SessionPostsElsewhere(db, r, now);
    } else if r.CreateCut? {
      CutPostsElsewhere(db, r, now);
    } else if r.ActOnCut? || r.CloseDay? {
      OtherPostsElsewhere(db, r, now);
    } else {
      PaidPostsElsewhere(db, r, now);
    }
  }

  /** An APPLY_CASH_OUT on a cut of a session whose day is closed. */
  predicate AppliesOnClosedDay(db: Db, r: Request)
  {
    && r.ActOnCut? && r.action.ApplyCashOut?
    && r.cut < |db.cuts| && db.cuts[r.cut].session < |db.sessions|
    && DayClosed(db.closes, db.sessions[db.cuts[r.cut].session].Key())
  }

  /** What an accepted APPLY_CASH_OUT posts. */
  lemma ApplyPosts(db: Db, r: Request, now: Time)
    requires r.ActOnCut? && r.action.ApplyCashOut? && Step(db, r, now).Ok?
    requires forall c :: c in db.cuts ==> CutLinked(db.sessions, c)
    ensures r.cut < |db.cuts| && db.cuts[r.cut].session < |db.sessions|
    ensures var ms, n := Step(db, r, now).value.movements, |db.movements|;
            |ms| == n + 1 && ms[..n] == db.movements
            && ms[n].action == CASH_OUT && ms[n].amount > 0 && ms[n].Key() == db.sessions[db.cuts[r.cut].session].Key()
  {
    assert r.cut < |db.cuts| && db.cuts[r.cut] in db.cuts;
  }

  lemma ApplyMovesClosed(db: Db, r: Request, now: Time)
    requires r.ActOnCut? && r.action.ApplyCashOut? && Step(db, r, now).Ok?
    requires forall c :: c in db.cuts ==> CutLinked(db.sessions, c)
    ensures MovesClosed(db, Step(db, r, now).value) <==> AppliesOnClosedDay(db, r)
  {
    ApplyPosts(db, r, now);
    var db' := Step(db, r, now).value;
    var m := db'.movements[|db.movements|];
    if AppliesOnClosedDay(db, r) {
      var c :| c in db.closes && c.day == m.Key() && c.status == Closed;
      assert db'.movements == db.movements + [m];
      RollupAppend(db.movements, m, c.day);
      assert Rollup(db'.movements, c.day).Expected() != Rollup(db.movements, c.day).Expected();
    } else {
      ElsewhereMovesNothing(db, db');
    }
  }

  /**
    Over every request and with no invariant but that cuts belong to their sessions: an accepted request
    moves a closed day if and only if it is an APPLY_CASH_OUT on a session of a closed day, open as it must be.
   */
  lemma ClosedMovedIffAppliedOnIt(db: Db, r: Request, now: Time)
    requires Step(db, r, now).Ok? && forall c :: c in db.cuts ==> CutLinked(db.sessions, c)
    ensures MovesClosed(db, Step(db, r, now).value) <==> AppliesOnClosedDay(db, r)
  {
    if r.ActOnCut? && r.action.ApplyCashOut? {
      ApplyMovesClosed(db, r, now);
    } else {
      StepPostsElsewhere(db, r, now);
      ElsewhereMovesNothing(db, Step(db, r, now).value);
    }
  }
}
