/**
  Cuts taken with the default window: what their stored totals add up to. Both ends of a
  window are inclusive, so a movement stamped exactly with the end of a cut that was taken
  after it is counted by that cut and by the next one.
 */
module CashCuts {
  import opened Common
  import opened CashModel
  import opened CashInvariants
  import opened CashTheorems

  ghost predicate DefaultWindow(r: Request)
  {
    r.CreateCut? ==> r.useLast && r.fromAt.None? && r.toAt.None?
  }

  /** Where a default window starts: the end of the session's previous cut, or its opening. */
  function StartOf(db: Db, k: nat): Time
    requires k < |db.cuts| && db.cuts[k].session < |db.sessions|
  {
    match LastCut(db.cuts[..k], db.cuts[k].session)
    case None => db.sessions[db.cuts[k].session].openedAt
    case Some(j) => db.cuts[j].toAt
  }

  function Stored(c: Cut, action: Action): Money
  {
    match action
    case CASH_IN => c.figures.cashIn
    case CASH_OUT => c.figures.cashOut
    case CASH_OUT_REFUND => c.figures.refunds
    case _ => 0
  }

  ghost predicate Counted(action: Action)
  {
    action in {CASH_IN, CASH_OUT, CASH_OUT_REFUND}
  }

  /** Total of one action of session i over the first n movements, for lo <= at < hi (<= hi if inclusive). */
  function Total(db: Db, n: nat, i: nat, action: Action, lo: Time, hi: Time, inclusive: bool): Money
    requires n <= |db.movements| && i < |db.sessions|
  {
    WindowTotal(db.movements[..n], i, db.sessions[i].drawer, action, lo, hi, inclusive)
  }

  /** Cut k was taken when the ledger had n movements, and everything posted later is not earlier than its end. */
  ghost predicate TakenAt(db: Db, k: nat, n: nat)
    requires k < |db.cuts|
  {
    var c := db.cuts[k];
    && c.session < |db.sessions| && n <= |db.movements| && c.fromAt == StartOf(db, k)
    && db.sessions[c.session].openedAt <= c.fromAt
    && (forall action :: Counted(action) ==> Stored(c, action) == Total(db, n, c.session, action, c.fromAt, c.toAt, true))
    && (forall x :: 0 <= x < n && db.movements[x].session == Some(c.session) ==> db.movements[x].at <= c.toAt)
    && (forall x :: n <= x < |db.movements| ==> c.toAt <= db.movements[x].at)
  }

  /** `seen[k]` is the length of the ledger when cut k was taken; the cuts of session i recorded what it then held. */
  ghost predicate Explained(db: Db, i: nat, seen: seq<nat>, clock: Time)
  {
    && Within(db, seen)
    && (forall k {:trigger TakenAt(db, k, seen[k])} :: 0 <= k < |seen| && db.cuts[k].session == i ==>
          TakenAt(db, k, seen[k]) && db.cuts[k].toAt <= clock)
    && (forall j, k :: 0 <= j < k < |seen| ==> seen[j] <= seen[k])
  }

  ghost predicate Within(db: Db, seen: seq<nat>)
  {
    |seen| == |db.cuts| && forall k :: 0 <= k < |seen| ==> seen[k] <= |db.movements|
  }

  /** What is used of one taken cut at a time. */
  lemma TakenFacts(db: Db, k: nat, n: nat, action: Action)
    requires k < |db.cuts| && TakenAt(db, k, n) && Counted(action)
    ensures n <= |db.movements| && db.cuts[k].session < |db.sessions|
    ensures var c := db.cuts[k];
            c.fromAt == StartOf(db, k) && db.sessions[c.session].openedAt <= c.fromAt
            && Stored(c, action) == Total(db, n, c.session, action, c.fromAt, c.toAt, true)
  {
  }

  // ----- every run of default cuts is explained -----

  /** What a request does to the tables as far as cuts are concerned. */
  ghost predicate Grows(db: Db, db': Db, now: Time)
  {
    && db.movements <= db'.movements
    && (forall x :: |db.movements| <= x < |db'.movements| ==> db'.movements[x].at == now)
    && |db.sessions| <= |db'.sessions|
    && (forall i :: 0 <= i < |db.sessions| ==>
          db'.sessions[i].drawer == db.sessions[i].drawer && db'.sessions[i].openedAt == db.sessions[i].openedAt)
    && |db.cuts| <= |db'.cuts|
    && (forall k :: 0 <= k < |db.cuts| ==>
          && db'.cuts[k].session == db.cuts[k].session && db'.cuts[k].number == db.cuts[k].number
          && db'.cuts[k].fromAt == db.cuts[k].fromAt && db'.cuts[k].toAt == db.cuts[k].toAt
          && db'.cuts[k].figures == db.cuts[k].figures)
  }

  lemma CloseDayGrows(db: Db, r: Request, now: Time)
    requires r.CloseDay?
    ensures Grows(db, After(db, r, now), now) && |After(db, r, now).cuts| == |db.cuts|
  {
  }

  lemma SessionActionGrows(db: Db, r: Request, now: Time)
    requires r.OpenSession? || r.CashIn? || r.CashOut? || r.CloseSession?
    ensures Grows(db, After(db, r, now), now) && |After(db, r, now).cuts| == |db.cuts|
  {
  }

  lemma CutActionGrows(db: Db, r: Request, now: Time)
    requires r.ActOnCut?
    ensures Grows(db, After(db, r, now), now) && |After(db, r, now).cuts| == |db.cuts|
  {
  }

  lemma CreateCutGrows(db: Db, r: Request, now: Time)
    requires r.CreateCut?
    ensures Grows(db, After(db, r, now), now)
  {
  }

  lemma StepGrows(db: Db, r: Request, now: Time)
    ensures Grows(db, After(db, r, now), now)
    ensures !r.CreateCut? ==> |After(db, r, now).cuts| == |db.cuts|
  {
    if r.CloseDay? {
      CloseDayGrows(db, r, now);
    } else if r.OpenSession? || r.CashIn? || r.CashOut? || r.CloseSession? {
      SessionActionGrows(db, r, now);
    } else if r.ActOnCut? {
      CutActionGrows(db, r, now);
    } else if r.CreateCut? {
      CreateCutGrows(db, r, now);
    }
  }

  lemma {:induction false} SameLast(a: seq<Cut>, b: seq<Cut>, session: nat)
    requires |a| == |b| && forall k :: 0 <= k < |a| ==> a[k].session == b[k].session && a[k].number == b[k].number
    ensures LastCut(a, session) == LastCut(b, session)
  {
    if a != [] {
      SameLast(a[..|a| - 1], b[..|b| - 1], session);
    }
  }

  lemma TakenAtGrows(db: Db, db': Db, k: nat, n: nat, clock: Time, now: Time)
    requires k < |db.cuts| && Grows(db, db', now) && clock <= now && db.cuts[k].toAt <= clock && TakenAt(db, k, n)
    ensures TakenAt(db', k, n)
  {
    SameLast(db.cuts[..k], db'.cuts[..k], db.cuts[k].session);
    assert db'.movements[..n] == db.movements[..n];
  }

  /** What a default cut records of the tables it finds. */
  ghost predicate Records(db: Db, c: Cut, quotedAt: Time)
  {
    && c.session < |db.sessions| && c.toAt == quotedAt && c.fromAt < c.toAt
    && c.fromAt == (match LastCut(db.cuts, c.session)
                    case None => db.sessions[c.session].openedAt
                    case Some(j) => db.cuts[j].toAt)
    && forall action :: Counted(action) ==>
         Stored(c, action) == WindowTotal(db.movements, c.session, db.sessions[c.session].drawer, action, c.fromAt, c.toAt, true)
  }

  lemma NewCutRecords(db: Db, r: Request, now: Time)
    requires r.CreateCut? && DefaultWindow(r) && CreateCutStep(db, r, now).Ok?
    ensures var db' := CreateCutStep(db, r, now).value;
            |db'.cuts| == |db.cuts| + 1 && db'.cuts[..|db.cuts|] == db.cuts && Records(db, db'.cuts[|db.cuts|], r.quotedAt)
  {
  }

  lemma RecordedIsTaken(db: Db, db': Db, seen: seq<nat>, c: Cut, quotedAt: Time, clock: Time, now: Time)
    requires Past(db, clock) && Numbered(db.cuts) && Explained(db, c.session, seen, clock) && clock <= quotedAt <= now
    requires Grows(db, db', now) && db'.cuts == db.cuts + [c] && Records(db, c, quotedAt)
    ensures TakenAt(db', |db.cuts|, |db.movements|) && c.toAt <= now
  {
    assert db'.cuts[..|db.cuts|] == db.cuts;
    assert db'.movements[..|db.movements|] == db.movements;
    assert forall x :: 0 <= x < |db.movements| ==> db'.movements[x] in db.movements;
    var last := LastCut(db.cuts, c.session);
    if last.Some? {
      NumberedAt(db.cuts, last.value);
      TakenFacts(db, last.value, seen[last.value], CASH_IN);
    } else {
      assert db.sessions[c.session] in db.sessions;
    }
  }

  lemma {:induction false} NumberedAt(cuts: seq<Cut>, k: nat)
    requires Numbered(cuts) && k < |cuts|
    ensures cuts[k].number == CountCuts(cuts[..k], cuts[k].session) + 1 && cuts[k].fromAt < cuts[k].toAt
  {
    if k < |cuts| - 1 {
      NumberedAt(cuts[..|cuts| - 1], k);
      assert cuts[..|cuts| - 1][..k] == cuts[..k];
    } else {
      assert cuts[..|cuts| - 1] == cuts[..k];
    }
  }

  /** The cuts taken before a request, and the one it may add, are explained after it. */
  lemma ExplainedGrows(db: Db, db': Db, i: nat, seen: seq<nat>, clock: Time, now: Time) returns (seen': seq<nat>)
    requires Explained(db, i, seen, clock) && Grows(db, db', now) && clock <= now
    requires |db'.cuts| == |db.cuts|
             || (|db'.cuts| == |db.cuts| + 1
                 && (db'.cuts[|db.cuts|].session == i ==> TakenAt(db', |db.cuts|, |db.movements|) && db'.cuts[|db.cuts|].toAt <= now))
    ensures Explained(db', i, seen', now)
  {
    seen' := if |db'.cuts| == |db.cuts| then seen else seen + [|db.movements|];
    forall k | 0 <= k < |seen'| && db'.cuts[k].session == i ensures TakenAt(db', k, seen'[k]) && db'.cuts[k].toAt <= now {
      if k < |seen| {
        assert TakenAt(db, k, seen[k]);
        TakenAtGrows(db, db', k, seen[k], clock, now);
      }
    }
  }

  lemma NewCutTaken(db: Db, db': Db, i: nat, seen: seq<nat>, r: Request, clock: Time, now: Time)
    requires Inv(db, clock) && Explained(db, i, seen, clock) && OnTime(r, clock, now) && DefaultWindow(r) && Grows(db, db', now)
    requires r.CreateCut? && CreateCutStep(db, r, now) == Ok(db') && ResolveActiveSession(db, r.drawer, r.session) == Some(i)
    ensures |db'.cuts| == |db.cuts| + 1 && TakenAt(db', |db.cuts|, |db.movements|) && db'.cuts[|db.cuts|].toAt <= now
  {
    NewCutRecords(db, r, now);
    NewCutSession(db, r, now);
    assert db'.cuts == db.cuts + [db'.cuts[|db.cuts|]];
    RecordedIsTaken(db, db', seen, db'.cuts[|db.cuts|], r.quotedAt, clock, now);
  }

  /** A cut belongs to the session its request resolves to. */
  lemma NewCutSession(db: Db, r: Request, now: Time)
    requires r.CreateCut? && CreateCutStep(db, r, now).Ok?
    ensures var cuts := CreateCutStep(db, r, now).value.cuts;
            |cuts| == |db.cuts| + 1 && ResolveActiveSession(db, r.drawer, r.session) == Some(cuts[|db.cuts|].session)
  {
  }

  /** The request cuts session i, if it cuts at all. */
  predicate Cuts(db: Db, r: Request, i: nat)
  {
    r.CreateCut? && ResolveActiveSession(db, r.drawer, r.session) == Some(i)
  }

  lemma StepExplained(db: Db, db': Db, i: nat, seen: seq<nat>, r: Request, clock: Time, now: Time) returns (seen': seq<nat>)
    requires Inv(db, clock) && Explained(db, i, seen, clock) && OnTime(r, clock, now) && (Cuts(db, r, i) ==> DefaultWindow(r))
    requires Grows(db, db', now)
    requires |db'.cuts| == |db.cuts| || (r.CreateCut? && CreateCutStep(db, r, now) == Ok(db'))
    ensures Explained(db', i, seen', now)
  {
    if |db'.cuts| != |db.cuts| {
      NewCutSession(db, r, now);
      if Cuts(db, r, i) {
        NewCutTaken(db, db', i, seen, r, clock, now);
      }
    }
    seen' := ExplainedGrows(db, db', i, seen, clock, now);
  }

  lemma OnlyCreateCutAdds(db: Db, r: Request, now: Time)
    ensures |After(db, r, now).cuts| == |db.cuts| || (r.CreateCut? && CreateCutStep(db, r, now) == Ok(After(db, r, now)))
  {
    StepGrows(db, r, now);
  }

  /** Every cut of session i in the run is taken with the default window; other sessions are cut in any way. */
  ghost predicate DefaultCuts(steps: seq<Timed>, i: nat)
  {
    steps == []
    || (DefaultCuts(steps[..|steps| - 1], i)
        && (Cuts(Run(EMPTY, steps[..|steps| - 1]), steps[|steps| - 1].request, i) ==> DefaultWindow(steps[|steps| - 1].request)))
  }

  lemma {:induction false} RunExplained(steps: seq<Timed>, start: Time, i: nat) returns (seen: seq<nat>)
    requires InOrder(start, steps) && DefaultCuts(steps, i)
    ensures Explained(Run(EMPTY, steps), i, seen, Clock(start, steps))
  {
    if steps == [] {
      seen := [];
    } else {
      var n := |steps| - 1;
      var before := RunExplained(steps[..n], start, i);
      ReachableSafe(start, steps[..n]);
      var db, r, now := Run(EMPTY, steps[..n]), steps[n].request, steps[n].now;
      StepGrows(db, r, now);
      OnlyCreateCutAdds(db, r, now);
      seen := StepExplained(db, After(db, r, now), i, before, r, Clock(start, steps[..n]), now);
    }
  }

  /**
    The chain of a session's default cuts, whatever happens to other sessions: its cut numbers
    count up from 1, each window starts where the previous one ended, and the ends strictly increase.
   */
  lemma DefaultCutsChain(start: Time, steps: seq<Timed>, k: nat)
    requires InOrder(start, steps) && k < |Run(EMPTY, steps).cuts| && DefaultCuts(steps, Run(EMPTY, steps).cuts[k].session)
    ensures var db := Run(EMPTY, steps);
            var c := db.cuts[k];
            c.session < |db.sessions|
            && c.number == CountCuts(db.cuts[..k], c.session) + 1
            && c.fromAt == StartOf(db, k) && c.fromAt < c.toAt <= Clock(start, steps)
  {
    var db := Run(EMPTY, steps);
    var seen := RunExplained(steps, start, db.cuts[k].session);
    ReachableSafe(start, steps);
    NumberedAt(db.cuts, k);
    assert TakenAt(db, k, seen[k]);
  }

  // ----- what the stored totals add up to -----

  function CutSum(db: Db, i: nat, action: Action, n: nat): Money
    requires n <= |db.cuts|
  {
    if n == 0 then 0
    else CutSum(db, i, action, n - 1) + if db.cuts[n - 1].session == i then Stored(db.cuts[n - 1], action) else 0
  }

  /** The amount posted exactly at the end of the cut before cut k, when that cut was taken. */
  function AtBoundary(db: Db, seen: seq<nat>, i: nat, action: Action, k: nat): Money
    requires k < |db.cuts| && i < |db.sessions| && Within(db, seen)
  {
    match LastCut(db.cuts[..k], i)
    case None => 0
    case Some(j) => Total(db, seen[j], i, action, db.cuts[j].toAt, db.cuts[j].toAt, true)
  }

  function Doubled(db: Db, seen: seq<nat>, i: nat, action: Action, n: nat): Money
    requires n <= |db.cuts| && i < |db.sessions| && Within(db, seen)
  {
    if n == 0 then 0
    else Doubled(db, seen, i, action, n - 1)
         + if db.cuts[n - 1].session == i then AtBoundary(db, seen, i, action, n - 1) else 0
  }

  lemma WindowSplit(ms: seq<Movement>, i: nat, d: Drawer, action: Action, lo: Time, mid: Time, hi: Time)
    requires lo <= mid <= hi
    ensures WindowTotal(ms, i, d, action, lo, hi, true)
            == WindowTotal(ms, i, d, action, lo, mid, false) + WindowTotal(ms, i, d, action, mid, hi, true)
  {
    SumSplit(ms, WindowWeight(i, d, action, lo, hi, true), WindowWeight(i, d, action, lo, mid, false),
             WindowWeight(i, d, action, mid, hi, true));
  }

  /** Movements at or after the end of an open window do not count in it. */
  lemma {:induction false} LaterMovementsOutside(ms: seq<Movement>, n: nat, i: nat, d: Drawer, action: Action, lo: Time, hi: Time)
    requires n <= |ms| && forall x :: n <= x < |ms| ==> hi <= ms[x].at
    ensures WindowTotal(ms, i, d, action, lo, hi, false) == WindowTotal(ms[..n], i, d, action, lo, hi, false)
  {
    if n < |ms| {
      LaterMovementsOutside(ms[..|ms| - 1], n, i, d, action, lo, hi);
      assert ms[..|ms| - 1][..n] == ms[..n];
    } else {
      assert ms[..n] == ms;
    }
  }

  /** Coverage up to mid plus the window [mid, hi] is coverage up to hi plus what sits on mid. */
  lemma OneMoreWindow(ms: seq<Movement>, nj: nat, nk: nat, i: nat, d: Drawer, action: Action, lo: Time, mid: Time, hi: Time)
    requires nj <= nk <= |ms| && lo <= mid <= hi && forall x :: nj <= x < nk ==> mid <= ms[x].at
    ensures WindowTotal(ms[..nj], i, d, action, lo, mid, true) + WindowTotal(ms[..nk], i, d, action, mid, hi, true)
            == WindowTotal(ms[..nk], i, d, action, lo, hi, true) + WindowTotal(ms[..nj], i, d, action, mid, mid, true)
  {
    WindowSplit(ms[..nj], i, d, action, lo, mid, mid);
    WindowSplit(ms[..nk], i, d, action, lo, mid, hi);
    assert ms[..nk][..nj] == ms[..nj];
    LaterMovementsOutside(ms[..nk], nj, i, d, action, lo, mid);
  }

  lemma NextIsLast(cuts: seq<Cut>, k: nat)
    requires k < |cuts| && Numbered(cuts)
    ensures LastCut(cuts[..k + 1], cuts[k].session) == Some(k)
  {
    NumberedAt(cuts, k);
    assert cuts[..k + 1][..k] == cuts[..k];
    NumberedPrefix(cuts, k);
    LastNumber(cuts[..k], cuts[k].session);
  }

  lemma {:induction false} NumberedPrefix(cuts: seq<Cut>, k: nat)
    requires k <= |cuts| && Numbered(cuts)
    ensures Numbered(cuts[..k])
  {
    if k < |cuts| {
      NumberedPrefix(cuts[..|cuts| - 1], k);
      assert cuts[..|cuts| - 1][..k] == cuts[..k];
    } else {
      assert cuts[..k] == cuts;
    }
  }

  /** Adding cut k: its session's coverage grows by its stored total, less what is counted a second time. */
  lemma OneMoreCut(db: Db, seen: seq<nat>, clock: Time, j: nat, k: nat, action: Action)
    requires k < |db.cuts| && Explained(db, db.cuts[k].session, seen, clock) && Numbered(db.cuts) && Counted(action)
    requires LastCut(db.cuts[..k], db.cuts[k].session) == Some(j) && db.cuts[k].session < |db.sessions|
    ensures var i := db.cuts[k].session;
            Total(db, seen[j], i, action, db.sessions[i].openedAt, db.cuts[j].toAt, true) + Stored(db.cuts[k], action)
            == Total(db, seen[k], i, action, db.sessions[i].openedAt, db.cuts[k].toAt, true)
               + AtBoundary(db, seen, i, action, k)
  {
    var i := db.cuts[k].session;
    TakenFacts(db, k, seen[k], action);
    TakenFacts(db, j, seen[j], action);
    NumberedAt(db.cuts, j);
    NumberedAt(db.cuts, k);
    assert forall x :: seen[j] <= x < seen[k] ==> db.cuts[j].toAt <= db.movements[x].at by {
      assert TakenAt(db, j, seen[j]);
    }
    OneMoreWindow(db.movements, seen[j], seen[k], i, db.sessions[i].drawer, action,
                  db.sessions[i].openedAt, db.cuts[j].toAt, db.cuts[k].toAt);
  }

  function Coverage(db: Db, seen: seq<nat>, i: nat, action: Action, n: nat): Money
    requires n <= |db.cuts| && i < |db.sessions| && Within(db, seen)
  {
    match LastCut(db.cuts[..n], i)
    case None => 0
    case Some(j) => Total(db, seen[j], i, action, db.sessions[i].openedAt, db.cuts[j].toAt, true)
  }

  lemma FirstCut(db: Db, seen: seq<nat>, clock: Time, k: nat, action: Action)
    requires k < |db.cuts| && Explained(db, db.cuts[k].session, seen, clock) && Counted(action)
    requires LastCut(db.cuts[..k], db.cuts[k].session) == None && db.cuts[k].session < |db.sessions|
    ensures Stored(db.cuts[k], action)
            == Total(db, seen[k], db.cuts[k].session, action, db.sessions[db.cuts[k].session].openedAt, db.cuts[k].toAt, true)
  {
    TakenFacts(db, k, seen[k], action);
  }

  /** The stored totals of the first n cuts cover the session up to its last cut, plus the doubled boundaries. */
  lemma {:induction false} CutsAddUp(db: Db, seen: seq<nat>, clock: Time, i: nat, action: Action, n: nat)
    requires Explained(db, i, seen, clock) && Numbered(db.cuts)
    requires n <= |db.cuts| && i < |db.sessions| && Counted(action)
    ensures CutSum(db, i, action, n) == Coverage(db, seen, i, action, n) + Doubled(db, seen, i, action, n)
  {
    if n > 0 {
      var k := n - 1;
      CutsAddUp(db, seen, clock, i, action, k);
      assert db.cuts[..n][..k] == db.cuts[..k];
      if db.cuts[k].session == i {
        NextIsLast(db.cuts, k);
        if LastCut(db.cuts[..k], i).Some? {
          OneMoreCut(db, seen, clock, LastCut(db.cuts[..k], i).value, k, action);
        } else {
          FirstCut(db, seen, clock, k, action);
        }
      }
    }
  }

  // ----- when they are exact -----

  ghost predicate OnBoundary(ms: seq<Movement>, i: nat, action: Action, at: Time)
  {
    exists m :: m in ms && m.session == Some(i) && m.action == action && m.at == at
  }

  /** A counted movement of session i was stamped with the end of the cut before cut k and posted before that cut. */
  ghost predicate HitsBoundary(db: Db, seen: seq<nat>, i: nat, action: Action, k: nat)
    requires k < |db.cuts| && Within(db, seen)
  {
    db.cuts[k].session == i && LastCut(db.cuts[..k], i).Some?
    && var j := LastCut(db.cuts[..k], i).value;
       OnBoundary(db.movements[..seen[j]], i, action, db.cuts[j].toAt)
  }

  lemma BoundaryZero(ms: seq<Movement>, i: nat, d: Drawer, action: Action, at: Time)
    requires forall m :: m in ms && m.session == Some(i) ==>
               m.drawer.tenant == d.tenant && m.drawer.store == d.store && (m.action == action ==> m.amount > 0)
    ensures WindowTotal(ms, i, d, action, at, at, true) >= 0
    ensures WindowTotal(ms, i, d, action, at, at, true) == 0 <==> !OnBoundary(ms, i, action, at)
  {
    SumNonNegative(ms, WindowWeight(i, d, action, at, at, true));
  }

  lemma OwnMovements(db: Db, i: nat, n: nat)
    requires Ledger(db) && i < |db.sessions| && n <= |db.movements|
    ensures forall m :: m in db.movements[..n] && m.session == Some(i) ==>
              m.drawer == db.sessions[i].drawer && db.sessions[i].openedAt <= m.at && (m.action != CLOSE ==> m.amount > 0)
  {
    forall m | m in db.movements[..n] && m.session == Some(i) ensures MovementLinked(db.sessions, m) {
      assert m in db.movements;
    }
  }

  lemma OneBoundary(db: Db, seen: seq<nat>, i: nat, action: Action, k: nat)
    requires Ledger(db) && Within(db, seen) && k < |db.cuts| && i < |db.sessions| && Counted(action) && db.cuts[k].session == i
    ensures AtBoundary(db, seen, i, action, k) >= 0
    ensures AtBoundary(db, seen, i, action, k) == 0 <==> !HitsBoundary(db, seen, i, action, k)
  {
    if LastCut(db.cuts[..k], i).Some? {
      var j := LastCut(db.cuts[..k], i).value;
      OwnMovements(db, i, seen[j]);
      BoundaryZero(db.movements[..seen[j]], i, db.sessions[i].drawer, action, db.cuts[j].toAt);
    }
  }

  lemma {:induction false} DoubledIffHit(db: Db, seen: seq<nat>, i: nat, action: Action, n: nat)
    requires Ledger(db) && Within(db, seen) && n <= |db.cuts| && i < |db.sessions| && Counted(action)
    ensures Doubled(db, seen, i, action, n) >= 0
    ensures Doubled(db, seen, i, action, n) == 0 <==> forall k :: 0 <= k < n ==> !HitsBoundary(db, seen, i, action, k)
  {
    if n > 0 {
      DoubledIffHit(db, seen, i, action, n - 1);
      if db.cuts[n - 1].session == i {
        OneBoundary(db, seen, i, action, n - 1);
      } else {
        assert !HitsBoundary(db, seen, i, action, n - 1);
      }
    }
  }

  function ActionOf(i: nat, action: Action): Movement -> int
  {
    (m: Movement) => if m.session == Some(i) && m.action == action then m.amount else 0
  }

  /** At its last cut a session's coverage is its whole total so far. */
  lemma CoverageIsTotal(db: Db, seen: seq<nat>, clock: Time, i: nat, action: Action)
    requires Ledger(db) && Explained(db, i, seen, clock) && i < |db.sessions| && Counted(action)
    requires LastCut(db.cuts, i).Some?
    ensures Coverage(db, seen, i, action, |db.cuts|) == Sum(db.movements[..seen[LastCut(db.cuts, i).value]], ActionOf(i, action))
  {
    assert db.cuts[..|db.cuts|] == db.cuts;
    var last := LastCut(db.cuts, i).value;
    var ms := db.movements[..seen[last]];
    OwnMovements(db, i, seen[last]);
    assert forall m :: m in ms && m.session == Some(i) ==> m.at <= db.cuts[last].toAt by {
      assert TakenAt(db, last, seen[last]);
    }
    SumSame(ms, WindowWeight(i, db.sessions[i].drawer, action, db.sessions[i].openedAt, db.cuts[last].toAt, true),
            ActionOf(i, action));
  }

  /**
    If a session is cut with default windows only, the stored totals of its cuts equal the session's
    total at its last cut if and only if no movement of that kind fell exactly on an inner boundary
    before the cut that ends there was taken; otherwise they exceed it. Other sessions are cut in any way.
   */
  lemma StoredTotalsExact(start: Time, steps: seq<Timed>, i: nat, action: Action) returns (seen: seq<nat>)
    requires InOrder(start, steps) && DefaultCuts(steps, i)
    requires i < |Run(EMPTY, steps).sessions| && Counted(action) && LastCut(Run(EMPTY, steps).cuts, i).Some?
    ensures Explained(Run(EMPTY, steps), i, seen, Clock(start, steps))
    ensures var db := Run(EMPTY, steps);
            var n := |db.cuts|;
            var whole := Sum(db.movements[..seen[LastCut(db.cuts, i).value]], ActionOf(i, action));
            && CutSum(db, i, action, n) >= whole
            && (CutSum(db, i, action, n) == whole <==> forall k :: 0 <= k < n ==> !HitsBoundary(db, seen, i, action, k))
  {
    seen := RunExplained(steps, start, i);
    ReachableSafe(start, steps);
    var db := Run(EMPTY, steps);
    var clock := Clock(start, steps);
    CutsAddUp(db, seen, clock, i, action, |db.cuts|);
    DoubledIffHit(db, seen, i, action, |db.cuts|);
    CoverageIsTotal(db, seen, clock, i, action);
  }
}
