/** Inputs at which the drawer's promises fail: each is the failing side of a condition proved elsewhere. */
module CashExamples {
  import opened Common
  import opened CashModel
  import opened CashInvariants
  import opened CashTheorems
  import opened CashQuotes
  import opened CashCuts

  lemma SumOne<T>(a: T, weight: T -> int)
    ensures Sum([a], weight) == weight(a)
  {
    assert [a][..0] == [];
  }

  lemma SumTwo<T>(a: T, b: T, weight: T -> int)
    ensures Sum([a, b], weight) == weight(a) + weight(b)
  {
    SumOne(a, weight);
    SumAppend([a], b, weight);
    assert [a] + [b] == [a, b];
  }

  lemma SumThree<T>(a: T, b: T, c: T, weight: T -> int)
    ensures Sum([a, b, c], weight) == weight(a) + weight(b) + weight(c)
  {
    SumTwo(a, b, weight);
    SumAppend([a, b], c, weight);
    assert [a, b] + [c] == [a, b, c];
  }

  const NO_TOTALS := Totals(0, 0, 0, 0, 0)

  // ----- a stale open session -----

  /** A session still open on a day that is closed. */
  function StaleState(d: Drawer): Db
  {
    Db([Session(d, Open, 1, "UTC", 10, 10, None, None, 0, None)], [], [],
       [DayClose(Day(d.tenant, d.store, 1), Closed, false, "", NO_TOTALS, None, None, None, d.cashier, 0)])
  }

  /** OPEN on the next day passes the stale session over, and the drawer has two open sessions. */
  lemma OpenBesideStale(d: Drawer)
    ensures StatusAgrees(StaleState(d)) && HasStaleOpen(StaleState(d), d)
    ensures OpenStep(StaleState(d), d, Some(10), Some(2), "UTC", 1).Ok?
    ensures !OneOpenOf(OpenStep(StaleState(d), d, Some(10), Some(2), "UTC", 1).value.sessions, d)
  {
    var db := StaleState(d);
    var close := db.closes[0];
    assert close in db.closes && db.sessions[0].Key() == close.day;
    assert OpenSessionQuery(db, d).None?;
    assert !HasClose(db.closes, Day(d.tenant, d.store, 2));
    OpenKeepsOneIffNoStale(db, d, Some(10), Some(2), "UTC", 1);
  }

  // ----- a closed day moved -----

  const OPENING_ONLY := Totals(10, 0, 0, 0, 0)

  /** The stale session with its opening, a cut of it, and the record of its day. */
  function StaleCutState(d: Drawer): Db
  {
    Db([Session(d, Open, 1, "UTC", 10, 10, None, None, 0, None)],
       [Movement(d, Some(0), 1, NoRef, OPEN, 10, Some(0), Some(10), 0)],
       [Cut(d.tenant, d.store, 0, 1, 0, 1, Figures(10, SalesTotals(0, 0, 0, 0, 0, 0), 0, 0, 0), None, None, None, None, CutOpen, 1, None)],
       [DayClose(Day(d.tenant, d.store, 1), Closed, false, "", OPENING_ONLY, None, None, None, d.cashier, 2)])
  }

  function Applying(d: Drawer): Request
  {
    ActOnCut(d.tenant, d.store, 0, ApplyCashOut(Some(4)))
  }

  lemma OpeningOnly(d: Drawer)
    ensures Rollup(StaleCutState(d).movements, Day(d.tenant, d.store, 1)) == OPENING_ONLY
  {
    var ms, day := StaleCutState(d).movements, Day(d.tenant, d.store, 1);
    SumOne(ms[0], CategoryWeight(day, OPENING));
    SumOne(ms[0], CategoryWeight(day, CASH_IN));
    SumOne(ms[0], CategoryWeight(day, CASH_OUT));
    SumOne(ms[0], CategoryWeight(day, SALE_CASH_IN));
    SumOne(ms[0], CategoryWeight(day, CASH_OUT_REFUND));
  }

  /** The stored totals agree with the rollup until an accepted APPLY_CASH_OUT; from then on they do not. */
  lemma AppliedOnClosedDay(d: Drawer)
    ensures var db := StaleCutState(d);
            var c := db.closes[0];
            && (forall cut :: cut in db.cuts ==> CutLinked(db.sessions, cut)) && AppliesOnClosedDay(db, Applying(d))
            && Step(db, Applying(d), 3).Ok?
            && c.totals == Rollup(db.movements, c.day) != Rollup(Step(db, Applying(d), 3).value.movements, c.day)
  {
    var db := StaleCutState(d);
    var c := db.closes[0];
    OpeningOnly(d);
    assert c in db.closes && db.sessions[0].Key() == c.day;
    assert Step(db, Applying(d), 3).Ok?;
    ClosedMovedIffAppliedOnIt(db, Applying(d), 3);
  }

  // ----- the same money in two cuts -----

  function Opened(d: Drawer): Db
  {
    Db([Session(d, Open, 1, "UTC", 10, 10, None, None, 0, None)],
       [Movement(d, Some(0), 1, NoRef, OPEN, 10, Some(0), Some(10), 0)], [], [])
  }

  lemma OpenFirst(d: Drawer)
    ensures After(EMPTY, OpenSession(d, Some(10), Some(1), "UTC"), 0) == Opened(d)
  {
  }

  function PaidIn(d: Drawer): Db
  {
    Db([Session(d, Open, 1, "UTC", 10, 15, None, None, 0, None)],
       Opened(d).movements + [Movement(d, Some(0), 1, NoRef, CASH_IN, 5, Some(10), Some(15), 1)], [], [])
  }

  lemma PayInNext(d: Drawer)
    ensures After(Opened(d), CashIn(d, Some(5)), 1) == PaidIn(d)
  {
    assert OpenSessionQuery(Opened(d), d) == Some(0);
  }

  function Cutting(d: Drawer, at: Time): Request
  {
    CreateCut(d, None, true, None, None, None, None, false, [], at)
  }

  function CutOf(d: Drawer, number: int, lo: Time, hi: Time, opening: Money): Cut
  {
    Cut(d.tenant, d.store, 0, number, lo, hi, Figures(opening, SalesTotals(0, 0, 0, 0, 0, 0), 5, 0, 0), None, None, None, None,
        CutOpen, hi, None)
  }

  /** The CASH_IN at 1 is in every window that reaches 1; nothing else is. */
  lemma WindowTotals(d: Drawer, action: Action, lo: Time, hi: Time, inclusive: bool)
    requires 0 <= lo <= hi && action in {CASH_IN, CASH_OUT, SALE, CASH_OUT_REFUND}
    ensures WindowTotal(PaidIn(d).movements, 0, d, action, lo, hi, inclusive)
            == if action == CASH_IN && lo <= 1 && (1 < hi || (inclusive && hi == 1)) then 5 else 0
  {
    var ms := PaidIn(d).movements;
    assert ms == [ms[0], ms[1]];
    SumTwo(ms[0], ms[1], WindowWeight(0, d, action, lo, hi, inclusive));
  }

  lemma CutFigures(d: Drawer, cuts: seq<Cut>, lo: Time, hi: Time)
    requires 0 <= lo <= 1 <= hi && lo < hi
    ensures Quote(PaidIn(d).(cuts := cuts), 0, d, lo, hi, []) == Figures(10, SalesTotals(0, 0, 0, 0, 0, 0), 5, 0, 0)
  {
    WindowTotals(d, CASH_IN, 0, lo, false);
    WindowTotals(d, CASH_OUT, 0, lo, false);
    WindowTotals(d, SALE, 0, lo, false);
    WindowTotals(d, CASH_OUT_REFUND, 0, lo, false);
    WindowTotals(d, CASH_IN, lo, hi, true);
    WindowTotals(d, CASH_OUT, lo, hi, true);
    WindowTotals(d, CASH_OUT_REFUND, lo, hi, true);
  }

  lemma CutNext(d: Drawer, cuts: seq<Cut>, lo: Time, hi: Time)
    requires 0 <= lo <= 1 <= hi && lo < hi
    requires if cuts == [] then lo == 0 else cuts == [CutOf(d, 1, 0, lo, 10)]
    ensures After(PaidIn(d).(cuts := cuts), Cutting(d, hi), hi) == PaidIn(d).(cuts := cuts + [CutOf(d, |cuts| + 1, lo, hi, 10)])
  {
    var db := PaidIn(d).(cuts := cuts);
    assert OpenSessionQuery(db, d) == Some(0);
    assert LastCut(cuts, 0) == if cuts == [] then None else Some(0);
    CutFigures(d, cuts, lo, hi);
  }

  /** Cash paid in at 1, a cut taken at 1, and another at 2. */
  function DoubledRun(d: Drawer): seq<Timed>
  {
    [Timed(OpenSession(d, Some(10), Some(1), "UTC"), 0), Timed(CashIn(d, Some(5)), 1), Timed(Cutting(d, 1), 1), Timed(Cutting(d, 2), 2)]
  }

  function FirstCutTaken(d: Drawer): Db
  {
    PaidIn(d).(cuts := [CutOf(d, 1, 0, 1, 10)])
  }

  lemma RunLast(steps: seq<Timed>, before: Db, after: Db)
    requires steps != [] && Run(EMPTY, steps[..|steps| - 1]) == before
    requires After(before, steps[|steps| - 1].request, steps[|steps| - 1].now) == after
    ensures Run(EMPTY, steps) == after
  {
  }

  lemma RunFirst(t: Timed, after: Db)
    requires After(EMPTY, t.request, t.now) == after
    ensures Run(EMPTY, [t]) == after
  {
    assert [t][..0] == [];
  }

  lemma DoubledRunBegins(d: Drawer)
    ensures Run(EMPTY, DoubledRun(d)[..2]) == PaidIn(d)
  {
    var steps := DoubledRun(d);
    OpenFirst(d);
    RunFirst(steps[0], Opened(d));
    PayInNext(d);
    assert steps[..2][..1] == [steps[0]];
    RunLast(steps[..2], Opened(d), PaidIn(d));
  }

  lemma FirstCut(d: Drawer)
    ensures After(PaidIn(d), Cutting(d, 1), 1) == FirstCutTaken(d)
  {
    assert PaidIn(d).(cuts := []) == PaidIn(d);
    assert [] + [CutOf(d, 1, 0, 1, 10)] == [CutOf(d, 1, 0, 1, 10)];
    CutNext(d, [], 0, 1);
  }

  lemma DoubledRunCuts(d: Drawer)
    ensures Run(EMPTY, DoubledRun(d)[..3]) == FirstCutTaken(d)
  {
    var steps := DoubledRun(d);
    DoubledRunBegins(d);
    FirstCut(d);
    assert steps[..3][..2] == steps[..2];
    RunLast(steps[..3], PaidIn(d), FirstCutTaken(d));
  }

  function BothCutsTaken(d: Drawer): Db
  {
    PaidIn(d).(cuts := [CutOf(d, 1, 0, 1, 10), CutOf(d, 2, 1, 2, 10)])
  }

  lemma SecondCut(d: Drawer)
    ensures After(FirstCutTaken(d), Cutting(d, 2), 2) == BothCutsTaken(d)
  {
    CutNext(d, [CutOf(d, 1, 0, 1, 10)], 1, 2);
    assert [CutOf(d, 1, 0, 1, 10)] + [CutOf(d, 2, 1, 2, 10)] == [CutOf(d, 1, 0, 1, 10), CutOf(d, 2, 1, 2, 10)];
  }

  lemma DoubledRunEnds(d: Drawer)
    ensures Run(EMPTY, DoubledRun(d)) == BothCutsTaken(d)
  {
    DoubledRunCuts(d);
    SecondCut(d);
    RunLast(DoubledRun(d), FirstCutTaken(d), BothCutsTaken(d));
  }

  lemma {:induction false} AllDefault(steps: seq<Timed>, i: nat)
    requires forall t :: t in steps ==> DefaultWindow(t.request)
    ensures DefaultCuts(steps, i)
  {
    if steps != [] {
      AllDefault(steps[..|steps| - 1], i);
    }
  }

  ghost predicate StepOnTime(steps: seq<Timed>, start: Time, k: nat)
    requires k < |steps|
  {
    OnTime(steps[k].request, if k == 0 then start else steps[k - 1].now, steps[k].now)
  }

  lemma {:induction false} StepsInOrder(steps: seq<Timed>, start: Time)
    requires forall k :: 0 <= k < |steps| ==> StepOnTime(steps, start, k)
    ensures InOrder(start, steps)
  {
    if steps != [] {
      var n := |steps| - 1;
      forall k | 0 <= k < n ensures StepOnTime(steps[..n], start, k) {
        assert StepOnTime(steps, start, k);
      }
      StepsInOrder(steps[..n], start);
      assert StepOnTime(steps, start, n);
    }
  }

  lemma BothCutsStore(db: Db, d: Drawer)
    requires db.cuts == [CutOf(d, 1, 0, 1, 10), CutOf(d, 2, 1, 2, 10)]
    ensures CutSum(db, 0, CASH_IN, 2) == 10
  {
    assert CutSum(db, 0, CASH_IN, 1) == 5;
  }

  /** The two cuts store 5 of CASH_IN each, although 5 came in. */
  lemma BoundaryCountedTwice(d: Drawer)
    ensures InOrder(0, DoubledRun(d)) && DefaultCuts(DoubledRun(d), 0)
    ensures var db := Run(EMPTY, DoubledRun(d));
            |db.cuts| == 2 && CutSum(db, 0, CASH_IN, 2) == 10 && Sum(db.movements, ActionOf(0, CASH_IN)) == 5
  {
    DoubledRunEnds(d);
    StepsInOrder(DoubledRun(d), 0);
    AllDefault(DoubledRun(d), 0);
    var ms := PaidIn(d).movements;
    assert ms == [ms[0], ms[1]];
    SumTwo(ms[0], ms[1], ActionOf(0, CASH_IN));
    BothCutsStore(Run(EMPTY, DoubledRun(d)), d);
  }

  // ----- a sale of another cashier -----

  function Colleague(d: Drawer): Drawer
  {
    d.(cashier := d.cashier + 1)
  }

  function BothOpened(d: Drawer): Db
  {
    Db(Opened(d).sessions + [Session(Colleague(d), Open, 1, "UTC", 10, 10, None, None, 0, None)],
       Opened(d).movements + [Movement(Colleague(d), Some(1), 1, NoRef, OPEN, 10, Some(0), Some(10), 0)], [], [])
  }

  function ColleagueSold(d: Drawer): Db
  {
    BothOpened(d).(sessions := Opened(d).sessions + [Session(Colleague(d), Open, 1, "UTC", 10, 17, None, None, 0, None)],
                   movements := BothOpened(d).movements
                                + [Movement(Colleague(d), Some(1), 1, SaleRef(0), SALE, 7, Some(10), Some(17), 1)])
  }

  function GapRun(d: Drawer): seq<Timed>
  {
    [Timed(OpenSession(d, Some(10), Some(1), "UTC"), 0), Timed(OpenSession(Colleague(d), Some(10), Some(1), "UTC"), 0),
     Timed(TakeSaleCash(Colleague(d), false, 7, SaleRef(0)), 1)]
  }

  lemma ColleagueOpens(d: Drawer)
    ensures After(Opened(d), OpenSession(Colleague(d), Some(10), Some(1), "UTC"), 0) == BothOpened(d)
  {
    assert OpenSessionQuery(Opened(d), Colleague(d)).None?;
  }

  lemma ColleagueSells(d: Drawer)
    ensures After(BothOpened(d), TakeSaleCash(Colleague(d), false, 7, SaleRef(0)), 1) == ColleagueSold(d)
  {
    var db := BothOpened(d);
    assert db.sessions[0].drawer != Colleague(d) && db.sessions[1].drawer == Colleague(d);
    assert FirstOpen(db, Colleague(d), 1) == Some(1);
    assert FirstOpen(db, Colleague(d), 0) == Some(1);
    assert RequireOpenSession(db, Colleague(d)) == Some(1);
  }

  lemma GapRunEnds(d: Drawer)
    ensures Run(EMPTY, GapRun(d)) == ColleagueSold(d)
  {
    var steps := GapRun(d);
    OpenFirst(d);
    RunFirst(steps[0], Opened(d));
    ColleagueOpens(d);
    assert steps[..2][..1] == [steps[0]];
    RunLast(steps[..2], Opened(d), BothOpened(d));
    ColleagueSells(d);
    RunLast(steps, BothOpened(d), ColleagueSold(d));
  }

  lemma SoldByColleague(d: Drawer)
    ensures SalesIn([Sale(d.tenant, d.store, true, Some(1), [Payment(CASH, 7)])], d, 0, 1).cash == 7
    ensures WindowTotal(ColleagueSold(d).movements, 0, d, SALE, 0, 1, true) == 0
  {
    var sale := Sale(d.tenant, d.store, true, Some(1), [Payment(CASH, 7)]);
    SumOne(Payment(CASH, 7), Paid(CASH));
    SumOne(sale, SaleWeight(d, 0, 1, CASH, false));
    var ms := ColleagueSold(d).movements;
    assert ms == [ms[0], ms[1], ms[2]];
    SumThree(ms[0], ms[1], ms[2], WindowWeight(0, d, SALE, 0, 1, true));
  }

  lemma GapQuote(d: Drawer)
    requires Inv(ColleagueSold(d), 1)
    ensures Quote(ColleagueSold(d), 0, d, 0, 1, [Sale(d.tenant, d.store, true, Some(1), [Payment(CASH, 7)])]).Expected() == 17
  {
    SoldByColleague(d);
    QuoteIsExpectedCash(ColleagueSold(d), 1, 0, d, 0, 1, [Sale(d.tenant, d.store, true, Some(1), [Payment(CASH, 7)])]);
  }

  /** The quote of a drawer counts a colleague's cash sale that its own balance does not. */
  lemma QuoteOffByColleaguesSale(d: Drawer)
    ensures InOrder(0, GapRun(d))
    ensures var db := Run(EMPTY, GapRun(d));
            var sales := [Sale(d.tenant, d.store, true, Some(1), [Payment(CASH, 7)])];
            |db.sessions| == 2 && db.sessions[0].drawer == d && db.sessions[0].expected == 10
            && Quote(db, 0, d, 0, 1, sales).Expected() == 17
  {
    GapRunEnds(d);
    StepsInOrder(GapRun(d), 0);
    ReachableSafe(0, GapRun(d));
    GapQuote(d);
  }
}
