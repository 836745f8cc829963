/**
  What each request of the drawer means: when it is accepted, with which error it is refused, and
  every row it leaves, spelled out over the tables.
 */
module CashLaws {
  import opened Common
  import opened CashModel
  import opened CashInvariants
  import opened CashTheorems

  // ----- which session a request speaks of -----

  /** A close record of the day, whatever its status. */
  predicate HasRecord(db: Db, tenant: Uuid, store: Uuid, date: int)
  {
    exists c :: c in db.closes && c.day == Day(tenant, store, date)
  }

  predicate HasClosedRecord(db: Db, tenant: Uuid, store: Uuid, date: int)
  {
    exists c :: c in db.closes && c.day == Day(tenant, store, date) && c.status == Closed
  }

  predicate Running(db: Db, d: Drawer, i: nat)
  {
    i < |db.sessions| && db.sessions[i].drawer == d && db.sessions[i].status == Open && db.sessions[i].closedAt == None
  }

  /** A running session of the drawer whose day is not closed. */
  predicate Waiting(db: Db, d: Drawer, i: nat)
  {
    Running(db, d, i) && !HasClosedRecord(db, d.tenant, d.store, db.sessions[i].date)
  }

  /** Opened after row j, or with it and added later. */
  predicate NotBefore(db: Db, i: nat, j: nat)
    requires i < |db.sessions| && j < |db.sessions|
  {
    db.sessions[j].openedAt < db.sessions[i].openedAt || (db.sessions[j].openedAt == db.sessions[i].openedAt && j <= i)
  }

  /** The session the cash router works on. */
  ghost predicate IsCurrent(db: Db, d: Drawer, i: nat)
  {
    Waiting(db, d, i) && forall j: nat :: Waiting(db, d, j) ==> NotBefore(db, i, j)
  }

  /** The session the voucher router works on. */
  ghost predicate IsActive(db: Db, d: Drawer, i: nat)
  {
    Running(db, d, i) && forall j: nat :: Running(db, d, j) ==> NotBefore(db, i, j)
  }

  /** The eligible rows, with or without the day-close filter. */
  predicate Passing(db: Db, d: Drawer, filtered: bool, i: nat)
  {
    if filtered then Waiting(db, d, i) else Running(db, d, i)
  }

  lemma PassingIsEligible(db: Db, d: Drawer, filtered: bool, i: nat)
    requires i < |db.sessions|
    ensures Eligible(db, d, filtered, i) <==> Passing(db, d, filtered, i)
  {
  }

  lemma {:induction false} NewestIsLast(db: Db, d: Drawer, filtered: bool, n: nat)
    requires n <= |db.sessions|
    ensures var r := NewestOpen(db, d, filtered, n);
            match r
            case None => forall j: nat :: j < n ==> !Passing(db, d, filtered, j)
            case Some(i) => i < n && Passing(db, d, filtered, i) && forall j: nat :: j < n && Passing(db, d, filtered, j) ==> NotBefore(db, i, j)
  {
    if n > 0 {
      NewestIsLast(db, d, filtered, n - 1);
      PassingIsEligible(db, d, filtered, n - 1);
    }
  }

  /** Passing, and opened after every other row that passes. */
  ghost predicate Newest(db: Db, d: Drawer, filtered: bool, i: nat)
  {
    Passing(db, d, filtered, i) && forall j: nat :: Passing(db, d, filtered, j) ==> NotBefore(db, i, j)
  }

  lemma LookupIsNewest(db: Db, d: Drawer, filtered: bool, i: nat)
    ensures NewestOpen(db, d, filtered, |db.sessions|) == Some(i) <==> Newest(db, d, filtered, i)
    ensures NewestOpen(db, d, filtered, |db.sessions|) == None <==> forall j: nat :: !Passing(db, d, filtered, j)
  {
    NewestIsLast(db, d, filtered, |db.sessions|);
    var r := NewestOpen(db, d, filtered, |db.sessions|);
    if r.Some? {
      assert Newest(db, d, filtered, r.value);
      if Newest(db, d, filtered, i) {
        assert NotBefore(db, i, r.value) && NotBefore(db, r.value, i);
      }
    }
  }

  /** The cash router's lookup finds the current session and nothing else. */
  lemma LookupIsCurrent(db: Db, d: Drawer, i: nat)
    ensures OpenSessionQuery(db, d) == Some(i) <==> IsCurrent(db, d, i)
    ensures OpenSessionQuery(db, d) == None <==> forall j: nat :: !Waiting(db, d, j)
  {
    LookupIsNewest(db, d, true, i);
    assert forall j: nat :: Passing(db, d, true, j) <==> Waiting(db, d, j);
  }

  lemma LookupIsActive(db: Db, d: Drawer, i: nat)
    ensures ActiveSession(db, d) == Some(i) <==> IsActive(db, d, i)
    ensures ActiveSession(db, d) == None <==> forall j: nat :: !Running(db, d, j)
  {
    LookupIsNewest(db, d, false, i);
    assert forall j: nat :: Passing(db, d, false, j) <==> Running(db, d, j);
  }

  // ----- what a movement does to the rollup of a day -----

  /** The raw actions of one line of the rollup, added up over the movements of a day. */
  function DayTotal(ms: seq<Movement>, day: Day, actions: set<Action>): Money
  {
    if ms == [] then 0 else
    var m := ms[|ms| - 1];
    DayTotal(ms[..|ms| - 1], day, actions)
    + if m.drawer.tenant == day.tenant && m.drawer.store == day.store && m.date == day.date && m.action in actions then m.amount else 0
  }

  lemma {:induction false} CategoryIsDayTotal(ms: seq<Movement>, day: Day, category: Action, actions: set<Action>)
    requires forall m :: m in ms ==> (Normalize(m.action) == category <==> m.action in actions)
    ensures CategoryTotal(ms, day, category) == DayTotal(ms, day, actions)
  {
    if ms != [] {
      assert ms == ms[..|ms| - 1] + [ms[|ms| - 1]];
      CategoryIsDayTotal(ms[..|ms| - 1], day, category, actions);
    }
  }

  /** The rollup line by line: which raw actions count where. */
  lemma RollupLaw(ms: seq<Movement>, day: Day)
    ensures Rollup(ms, day).opening == DayTotal(ms, day, {OPEN, OPENING})
    ensures Rollup(ms, day).cashIn == DayTotal(ms, day, {CASH_IN})
    ensures Rollup(ms, day).cashOut == DayTotal(ms, day, {CASH_OUT})
    ensures Rollup(ms, day).netSales == DayTotal(ms, day, {SALE, SALE_CASH_IN})
    ensures Rollup(ms, day).refunds == DayTotal(ms, day, {CASH_OUT_REFUND})
  {
    CategoryIsDayTotal(ms, day, OPENING, {OPEN, OPENING});
    CategoryIsDayTotal(ms, day, CASH_IN, {CASH_IN});
    CategoryIsDayTotal(ms, day, CASH_OUT, {CASH_OUT});
    CategoryIsDayTotal(ms, day, SALE_CASH_IN, {SALE, SALE_CASH_IN});
    CategoryIsDayTotal(ms, day, CASH_OUT_REFUND, {CASH_OUT_REFUND});
  }

  /** What one more movement adds to the rollup of its day. */
  function Moved(t: Totals, action: Action, amount: Money): Totals
  {
    match action
    case OPEN => t.(opening := t.opening + amount)
    case OPENING => t.(opening := t.opening + amount)
    case CASH_IN => t.(cashIn := t.cashIn + amount)
    case CASH_OUT => t.(cashOut := t.cashOut + amount)
    case SALE => t.(netSales := t.netSales + amount)
    case SALE_CASH_IN => t.(netSales := t.netSales + amount)
    case CASH_OUT_REFUND => t.(refunds := t.refunds + amount)
    case _ => t
  }

  lemma SharesMove(t: Totals, m: Movement, day: Day)
    ensures Totals(t.opening + CategoryShare(m, day, OPENING), t.cashIn + CategoryShare(m, day, CASH_IN),
                   t.cashOut + CategoryShare(m, day, CASH_OUT), t.netSales + CategoryShare(m, day, SALE_CASH_IN),
                   t.refunds + CategoryShare(m, day, CASH_OUT_REFUND))
            == if m.Key() == day then Moved(t, m.action, m.amount) else t
  {
  }

  lemma OneMoreMovement(ms: seq<Movement>, m: Movement, day: Day)
    ensures Rollup(ms + [m], day) == if m.Key() == day then Moved(Rollup(ms, day), m.action, m.amount) else Rollup(ms, day)
  {
    TotalsAppend(ms, m, day);
    SharesMove(Rollup(ms, day), m, day);
  }

  // ----- the session actions -----

  /** A movement on session i, dated and balanced by it. */
  function OnSession(db: Db, i: nat, ref: Ref, action: Action, amount: Money, delta: Money, now: Time): Movement
    requires i < |db.sessions|
  {
    var s := db.sessions[i];
    Movement(s.drawer, Some(i), s.date, ref, action, amount, Some(s.expected), Some(s.expected + delta), now)
  }

  /** One movement is added, the expected cash of its session moves by delta, every other row stays. */
  predicate OnlyPosts(db: Db, next: Db, i: nat, m: Movement, delta: Money)
    requires i < |db.sessions|
  {
    && next.movements == db.movements + [m]
    && |next.sessions| == |db.sessions|
    && (forall j :: 0 <= j < |db.sessions| && j != i ==> next.sessions[j] == db.sessions[j])
    && next.sessions[i] == db.sessions[i].(expected := db.sessions[i].expected + delta)
    && next.cuts == db.cuts && next.closes == db.closes
  }

  predicate MayOpen(db: Db, d: Drawer, opening: Option<Money>, date: Option<int>, timezone: string)
  {
    opening.Some? && opening.value > 0 && date.Some? && timezone != "" && !HasRecord(db, d.tenant, d.store, date.value)
  }

  /** OPEN: complete input, a day without a close record, and no session of the drawer still waiting. */
  lemma OpenAccepted(db: Db, d: Drawer, opening: Option<Money>, date: Option<int>, timezone: string, now: Time)
    ensures var r := Step(db, OpenSession(d, opening, date, timezone), now);
            && (r.Ok? <==> MayOpen(db, d, opening, date, timezone) && forall j: nat :: !Waiting(db, d, j))
            && (r.Err? ==> r.error == if MayOpen(db, d, opening, date, timezone) then BusinessConflict else ValidationError)
  {
    LookupIsCurrent(db, d, 0);
  }

  /** An accepted OPEN adds one session and one OPEN movement of the amount, and changes no row. */
  lemma OpenEffect(db: Db, d: Drawer, opening: Option<Money>, date: Option<int>, timezone: string, now: Time, day: Day)
    requires Step(db, OpenSession(d, opening, date, timezone), now).Ok?
    ensures var next := Step(db, OpenSession(d, opening, date, timezone), now).value;
            var amount, of := opening.value, Rollup(db.movements, day);
            && next.sessions == db.sessions + [Session(d, Open, date.value, timezone, amount, amount, None, None, now, None)]
            && next.movements == db.movements + [Movement(d, Some(|db.sessions|), date.value, NoRef, OPEN, amount, Some(0), Some(amount), now)]
            && next.cuts == db.cuts && next.closes == db.closes
            && Rollup(next.movements, day) == if day == Day(d.tenant, d.store, date.value) then of.(opening := of.opening + amount) else of
  {
    OneMoreMovement(db.movements, Movement(d, Some(|db.sessions|), date.value, NoRef, OPEN, opening.value, Some(0), opening, now), day);
  }

  /** A drawer without a current session refuses the three other actions. */
  lemma NoCurrentSession(db: Db, d: Drawer, amount: Option<Money>, now: Time)
    requires forall j: nat :: !Waiting(db, d, j)
    ensures Step(db, CashIn(d, amount), now) == Err(BusinessConflict)
    ensures Step(db, CashOut(d, amount), now) == Err(BusinessConflict)
    ensures Step(db, CloseSession(d, amount), now) == Err(BusinessConflict)
  {
    LookupIsCurrent(db, d, 0);
  }

  predicate Undisturbed(db: Db, i: nat)
    requires i < |db.sessions|
  {
    var s := db.sessions[i];
    !HasRecord(db, s.drawer.tenant, s.drawer.store, s.date)
  }

  lemma CurrentExists(db: Db, d: Drawer) returns (i: nat)
    requires exists j: nat :: Waiting(db, d, j)
    ensures IsCurrent(db, d, i) && OpenSessionQuery(db, d) == Some(i)
  {
    LookupIsCurrent(db, d, 0);
    i := OpenSessionQuery(db, d).value;
    LookupIsCurrent(db, d, i);
  }

  predicate MayPayIn(db: Db, i: nat, amount: Option<Money>)
    requires i < |db.sessions|
  {
    Undisturbed(db, i) && amount.Some? && amount.value > 0
  }

  /** CASH_IN: the current session gains the amount and one CASH_IN movement of it. */
  lemma CashInLaw(db: Db, d: Drawer, i: nat, amount: Option<Money>, now: Time)
    requires IsCurrent(db, d, i)
    ensures var r := Step(db, CashIn(d, amount), now);
            && (r.Ok? <==> MayPayIn(db, i, amount))
            && (r.Err? ==> r.error == ValidationError)
            && (r.Ok? ==> OnlyPosts(db, r.value, i, OnSession(db, i, NoRef, CASH_IN, amount.value, amount.value, now), amount.value))
  {
    LookupIsCurrent(db, d, i);
  }

  predicate MayTakeOut(db: Db, i: nat, amount: Option<Money>)
    requires i < |db.sessions|
  {
    Undisturbed(db, i) && amount.Some? && 0 < amount.value <= db.sessions[i].expected
  }

  /** CASH_OUT: the current session loses the amount, which it must hold, to one CASH_OUT movement. */
  lemma CashOutLaw(db: Db, d: Drawer, i: nat, amount: Option<Money>, now: Time)
    requires IsCurrent(db, d, i)
    ensures var r := Step(db, CashOut(d, amount), now);
            && (r.Ok? <==> MayTakeOut(db, i, amount))
            && (r.Err? ==> r.error == ValidationError)
            && (r.Ok? ==> OnlyPosts(db, r.value, i, OnSession(db, i, NoRef, CASH_OUT, amount.value, -amount.value, now), -amount.value))
  {
    LookupIsCurrent(db, d, i);
  }

  /** Exactly when the two are accepted, the drawer with or without a current session. */
  lemma MovesAccepted(db: Db, d: Drawer, amount: Option<Money>, now: Time)
    ensures Step(db, CashIn(d, amount), now).Ok? <==> exists i: nat :: IsCurrent(db, d, i) && MayPayIn(db, i, amount)
    ensures Step(db, CashOut(d, amount), now).Ok? <==> exists i: nat :: IsCurrent(db, d, i) && MayTakeOut(db, i, amount)
  {
    if exists j: nat :: Waiting(db, d, j) {
      var k := CurrentExists(db, d);
      forall i: nat | IsCurrent(db, d, i) ensures i == k {
        LookupIsCurrent(db, d, i);
      }
      CashInLaw(db, d, k, amount, now);
      CashOutLaw(db, d, k, amount, now);
    } else {
      NoCurrentSession(db, d, amount, now);
    }
  }

  lemma PostedInRollup(db: Db, next: Db, i: nat, m: Movement, delta: Money, day: Day)
    requires i < |db.sessions| && OnlyPosts(db, next, i, m, delta)
    ensures Rollup(next.movements, day) == if m.Key() == day then Moved(Rollup(db.movements, day), m.action, m.amount) else Rollup(db.movements, day)
  {
    OneMoreMovement(db.movements, m, day);
  }

  /** An accepted CASH_IN raises one line of one rollup: the cash in of the session's day. */
  lemma CashInInRollup(db: Db, d: Drawer, i: nat, amount: Money, now: Time, day: Day)
    requires IsCurrent(db, d, i) && Step(db, CashIn(d, Some(amount)), now).Ok?
    ensures var t, t' := Rollup(db.movements, day), Rollup(Step(db, CashIn(d, Some(amount)), now).value.movements, day);
            t' == if day == Day(d.tenant, d.store, db.sessions[i].date) then t.(cashIn := t.cashIn + amount) else t
  {
    CashInLaw(db, d, i, Some(amount), now);
    PostedInRollup(db, Step(db, CashIn(d, Some(amount)), now).value, i, OnSession(db, i, NoRef, CASH_IN, amount, amount, now), amount, day);
  }

  /** An accepted CASH_OUT likewise raises the cash out of the session's day and nothing else. */
  lemma CashOutInRollup(db: Db, d: Drawer, i: nat, amount: Money, now: Time, day: Day)
    requires IsCurrent(db, d, i) && Step(db, CashOut(d, Some(amount)), now).Ok?
    ensures var t, t' := Rollup(db.movements, day), Rollup(Step(db, CashOut(d, Some(amount)), now).value.movements, day);
            t' == if day == Day(d.tenant, d.store, db.sessions[i].date) then t.(cashOut := t.cashOut + amount) else t
  {
    CashOutLaw(db, d, i, Some(amount), now);
    PostedInRollup(db, Step(db, CashOut(d, Some(amount)), now).value, i, OnSession(db, i, NoRef, CASH_OUT, amount, -amount, now), -amount, day);
  }

  /** CLOSE: the current session is counted and closed, its expected cash kept; a zero movement says so. */
  lemma CloseLaw(db: Db, d: Drawer, i: nat, counted: Option<Money>, now: Time)
    requires IsCurrent(db, d, i)
    ensures var r := Step(db, CloseSession(d, counted), now);
            var s := db.sessions[i];
            && (r.Ok? <==> Undisturbed(db, i) && counted.Some?)
            && (r.Err? ==> r.error == ValidationError)
            && (r.Ok? ==>
                  var closed := r.value.sessions[i];
                  && closed == Session(s.drawer, Closed, s.date, s.timezone, s.opening, s.expected, counted, closed.difference, s.openedAt, Some(now))
                  && closed.difference.Some? && closed.difference.value + s.expected == counted.value
                  && OnlyPosts(db, r.value.(sessions := r.value.sessions[i := s]), i, OnSession(db, i, NoRef, CLOSE, 0, 0, now), 0))
  {
    LookupIsCurrent(db, d, i);
  }

  // ----- cash of sales and vouchers -----

  predicate OpenRow(db: Db, tenant: Uuid, store: Uuid, i: nat)
  {
    i < |db.sessions| && db.sessions[i].status == Open && db.sessions[i].drawer.tenant == tenant && db.sessions[i].drawer.store == store
  }

  predicate OwnRow(db: Db, d: Drawer, i: nat)
  {
    OpenRow(db, d.tenant, d.store, i) && db.sessions[i].drawer.cashier == d.cashier
  }

  /** The session a sale is booked on: the first open one of the cashier, or else the only open one of the store. */
  ghost predicate IsTill(db: Db, d: Drawer, i: nat)
  {
    if OwnRow(db, d, i) then forall j: nat :: OwnRow(db, d, j) ==> i <= j
    else OpenRow(db, d.tenant, d.store, i) && (forall j: nat :: !OwnRow(db, d, j)) && forall j: nat :: OpenRow(db, d.tenant, d.store, j) ==> j == i
  }

  predicate Rising(rows: seq<nat>)
  {
    forall a, b :: 0 <= a < b < |rows| ==> rows[a] < rows[b]
  }

  lemma RisingAppend(rows: seq<nat>, n: nat)
    requires Rising(rows) && forall i: nat :: i in rows ==> i < n
    ensures Rising(rows + [n])
  {
    forall a | 0 <= a < |rows| ensures rows[a] < n {
      assert rows[a] in rows;
    }
  }

  lemma {:induction false} OpenInStoreRises(db: Db, tenant: Uuid, store: Uuid, n: nat)
    requires n <= |db.sessions|
    ensures Rising(OpenInStore(db, tenant, store, n))
  {
    if n > 0 {
      OpenInStoreRises(db, tenant, store, n - 1);
      RisingAppend(OpenInStore(db, tenant, store, n - 1), n - 1);
    }
  }

  lemma {:induction false} FirstOwn(db: Db, d: Drawer, i: nat)
    requires i <= |db.sessions|
    ensures var r := FirstOpen(db, d, i);
            match r
            case None => forall j: nat :: i <= j ==> !OwnRow(db, d, j)
            case Some(k) => OwnRow(db, d, k) && forall j: nat :: i <= j < k ==> !OwnRow(db, d, j)
    decreases |db.sessions| - i
  {
    if i < |db.sessions| {
      FirstOwn(db, d, i + 1);
    }
  }

  lemma OnlyOpen(db: Db, tenant: Uuid, store: Uuid, i: nat)
    requires OpenRow(db, tenant, store, i)
    ensures var all := OpenInStore(db, tenant, store, |db.sessions|);
            |all| == 1 <==> forall j: nat :: OpenRow(db, tenant, store, j) ==> j == i
  {
    OpenInStoreRises(db, tenant, store, |db.sessions|);
    var all := OpenInStore(db, tenant, store, |db.sessions|);
    assert i in all;
    if |all| > 1 {
      assert all[0] in all && all[1] in all && all[0] < all[1];
      assert OpenRow(db, tenant, store, all[0]) && OpenRow(db, tenant, store, all[1]);
    } else {
      forall j: nat | OpenRow(db, tenant, store, j) ensures j == i {
        assert j in all;
      }
    }
  }

  lemma LookupIsTill(db: Db, d: Drawer, i: nat)
    ensures RequireOpenSession(db, d) == Some(i) <==> IsTill(db, d, i)
  {
    FirstOwn(db, d, 0);
    var r, own := RequireOpenSession(db, d), FirstOpen(db, d, 0);
    if own.Some? {
      assert OwnRow(db, d, own.value);
    } else {
      if r.Some? {
        OnlyOpen(db, d.tenant, d.store, r.value);
      }
      if OpenRow(db, d.tenant, d.store, i) {
        OnlyOpen(db, d.tenant, d.store, i);
        assert i in OpenInStore(db, d.tenant, d.store, |db.sessions|);
      }
    }
  }

  /** Cash of a sale or a voucher on session i: a positive amount, no close record, and no more paid out than is there. */
  predicate MayRecord(db: Db, i: nat, paid: Money, delta: Money)
    requires i < |db.sessions|
  {
    Undisturbed(db, i) && paid > 0 && 0 <= db.sessions[i].expected + delta
  }

  /** Checkout raises the till and adds a SALE movement; a refund lowers it and adds a CASH_OUT_REFUND one. */
  lemma SaleCashLaw(db: Db, d: Drawer, i: nat, refund: bool, paid: Money, ref: Ref, now: Time)
    requires IsTill(db, d, i)
    ensures var r := Step(db, TakeSaleCash(d, refund, paid, ref), now);
            var delta := if refund then -paid else paid;
            && (r.Ok? <==> MayRecord(db, i, paid, delta))
            && (r.Err? ==> r.error == ValidationError)
            && (r.Ok? ==> OnlyPosts(db, r.value, i, OnSession(db, i, ref, if refund then CASH_OUT_REFUND else SALE, paid, delta, now), delta))
  {
    LookupIsTill(db, d, i);
  }

  /** A voucher issued for cash raises the active session by a CASH_IN movement, its refund lowers it by a CASH_OUT one. */
  lemma VoucherCashLaw(db: Db, d: Drawer, i: nat, refund: bool, paid: Money, ref: Ref, now: Time)
    requires IsActive(db, d, i)
    ensures var r := Step(db, PayVoucherCash(d, refund, paid, ref), now);
            var delta := if refund then -paid else paid;
            && (r.Ok? <==> MayRecord(db, i, paid, delta))
            && (r.Err? ==> r.error == ValidationError)
            && (r.Ok? ==> OnlyPosts(db, r.value, i, OnSession(db, i, ref, if refund then CASH_OUT else CASH_IN, paid, delta, now), delta))
  {
    LookupIsActive(db, d, i);
  }

  /** Without such a session both are refused. */
  lemma NoTill(db: Db, d: Drawer, refund: bool, paid: Money, ref: Ref, now: Time)
    ensures (forall i: nat :: !IsTill(db, d, i)) ==> Step(db, TakeSaleCash(d, refund, paid, ref), now) == Err(BusinessConflict)
    ensures (forall i: nat :: !Running(db, d, i)) ==> Step(db, PayVoucherCash(d, refund, paid, ref), now) == Err(BusinessConflict)
  {
    var till := RequireOpenSession(db, d);
    if till.Some? {
      LookupIsTill(db, d, till.value);
    }
    LookupIsActive(db, d, 0);
  }

  lemma PostVoucherWrites(db: Db, d: Drawer, date: int, ref: Ref, kind: VoucherKind, refund: bool, paid: Money, now: Time)
    ensures var r := Step(db, PostVoucher(d, date, ref, kind, refund, paid), now);
            && r.Ok?
            && r.value.movements == db.movements + [Movement(d, None, date, ref, Voucher(kind, refund), paid, Some(0), Some(0), now)]
            && r.value.(movements := db.movements) == db
  {
  }

  /** A voucher paid by card or transfer adds one movement without a session and moves no balance and no rollup. */
  lemma PostVoucherLaw(db: Db, d: Drawer, date: int, ref: Ref, kind: VoucherKind, refund: bool, paid: Money, now: Time, day: Day)
    ensures var r := Step(db, PostVoucher(d, date, ref, kind, refund, paid), now);
            && r.Ok?
            && r.value.movements == db.movements + [Movement(d, None, date, ref, Voucher(kind, refund), paid, Some(0), Some(0), now)]
            && r.value.(movements := db.movements) == db
            && Rollup(r.value.movements, day) == Rollup(db.movements, day)
  {
    var m := Movement(d, None, date, ref, Voucher(kind, refund), paid, Some(0), Some(0), now);
    RollupUnmoved(db.movements, m, day);
    PostVoucherWrites(db, d, date, ref, kind, refund, paid, now);
  }

  // ----- the day close -----

  predicate OpenThatDay(db: Db, tenant: Uuid, store: Uuid, date: int, i: nat)
  {
    OpenRow(db, tenant, store, i) && db.sessions[i].date == date
  }

  ghost predicate NoneOpen(db: Db, tenant: Uuid, store: Uuid, date: int)
  {
    forall i: nat :: !OpenThatDay(db, tenant, store, date, i)
  }

  lemma NoneOpenIs(db: Db, tenant: Uuid, store: Uuid, date: int)
    ensures AnyOpenOn(db.sessions, Day(tenant, store, date)) <==> !NoneOpen(db, tenant, store, date)
  {
    var day := Day(tenant, store, date);
    if AnyOpenOn(db.sessions, day) {
      var s :| s in db.sessions && OpenOn(s, day);
      var k: nat :| k < |db.sessions| && db.sessions[k] == s;
      assert OpenThatDay(db, tenant, store, date, k);
    }
    if k: nat :| OpenThatDay(db, tenant, store, date, k) {
      assert OpenOn(db.sessions[k], day);
    }
  }

  predicate Trusted(role: Role)
  {
    role == MANAGER || role == ADMIN || role == SUPERADMIN || role == PLATFORM_ADMIN
  }

  /** A day is closed once, with open sessions only by force, of a trusted role, for a reason. */
  lemma CloseDayAccepted(db: Db, d: Drawer, role: Role, date: int, force: bool, reason: string, counted: Option<Money>, now: Time)
    ensures var r := Step(db, CloseDay(d, role, date, force, reason, counted), now);
            var recorded, quiet := HasRecord(db, d.tenant, d.store, date), NoneOpen(db, d.tenant, d.store, date);
            && (r.Ok? <==> !recorded && (quiet || (force && Trusted(role) && reason != "")))
            && (recorded ==> r == Err(ValidationError))
            && (!recorded && !quiet && !force ==> r == Err(ValidationError))
            && (!recorded && !quiet && force && !Trusted(role) ==> r == Err(PermissionDenied))
            && (!recorded && !quiet && force && Trusted(role) && reason == "" ==> r == Err(ValidationError))
  {
    NoneOpenIs(db, d.tenant, d.store, date);
  }

  /** The sign of a difference, in words. */
  predicate Names(kind: Option<DifferenceType>, difference: Option<Money>)
  {
    if difference.None? then kind.None? else
    kind.Some? && (kind.value.OVER? <==> difference.value > 0) && (kind.value.SHORT? <==> difference.value < 0)
  }

  /** The record an accepted close adds: the caller's force flag and reason, the rollup of the day, the count against it. */
  predicate RecordsDay(c: DayClose, t: Totals, d: Drawer, date: int, force: bool, reason: string, counted: Option<Money>, now: Time)
  {
    && c.day == Day(d.tenant, d.store, date) && c.status == Closed && c.closedBy == d.cashier && c.closedAt == now
    && c.forced == force && c.reason == reason && c.totals == t && c.counted == counted
    && (c.difference.Some? <==> counted.Some?)
    && (counted.Some? ==> c.difference.value + (t.opening + t.cashIn + t.netSales - t.cashOut - t.refunds) == counted.value)
    && Names(c.differenceType, c.difference)
  }

  lemma RecordIsRight(t: Totals, d: Drawer, date: int, force: bool, reason: string, counted: Option<Money>, now: Time)
    ensures RecordsDay(DayRecord(t, Day(d.tenant, d.store, date), force, reason, counted, d.cashier, now), t, d, date, force, reason, counted, now)
  {
  }

  lemma AcceptedClose(db: Db, d: Drawer, role: Role, date: int, force: bool, reason: string, counted: Option<Money>, now: Time)
    requires CloseDayStep(db, d, role, date, force, reason, counted, now).Ok?
    ensures CloseDayStep(db, d, role, date, force, reason, counted, now).value
            == WriteClose(db, d, CloseDayRecord(db, Day(d.tenant, d.store, date), force, reason, counted, d.cashier, now), now)
  {
    var day := Day(d.tenant, d.store, date);
    assert CloseDayRefusal(db, day, role, force, reason).None?;
  }

  lemma CloseDayIsStep(db: Db, r: Request, now: Time)
    requires r.CloseDay?
    ensures Step(db, r, now) == CloseDayStep(db, r.drawer, r.role, r.businessDate, r.force, r.reason, r.counted, now)
  {
  }

  lemma WritesRecord(db: Db, d: Drawer, c: DayClose, now: Time)
    ensures var next := WriteClose(db, d, c, now);
            && next.closes == db.closes + [c] && next.cuts == db.cuts
            && next.movements == db.movements + [Movement(d, None, c.day.date, NoRef, DAY_CLOSE, 0, None, None, now)]
  {
  }

  /** An accepted close adds the record and a zero DAY_CLOSE movement, and changes no cut. */
  lemma CloseDayWrites(db: Db, d: Drawer, role: Role, date: int, force: bool, reason: string, counted: Option<Money>, now: Time)
    requires Step(db, CloseDay(d, role, date, force, reason, counted), now).Ok?
    ensures var next := Step(db, CloseDay(d, role, date, force, reason, counted), now).value;
            && |next.closes| == |db.closes| + 1 && next.closes[..|db.closes|] == db.closes
            && RecordsDay(next.closes[|db.closes|], Rollup(db.movements, Day(d.tenant, d.store, date)), d, date, force, reason, counted, now)
            && next.movements == db.movements + [Movement(d, None, date, NoRef, DAY_CLOSE, 0, None, None, now)]
            && next.cuts == db.cuts
  {
    CloseDayIsStep(db, CloseDay(d, role, date, force, reason, counted), now);
    AcceptedClose(db, d, role, date, force, reason, counted, now);
    WritesRecord(db, d, CloseDayRecord(db, Day(d.tenant, d.store, date), force, reason, counted, d.cashier, now), now);
    RecordIsRight(Rollup(db.movements, Day(d.tenant, d.store, date)), d, date, force, reason, counted, now);
  }

  /** The sessions of a closed day: those that were open have been closed, no other row has changed. */
  ghost predicate OnlyCloses(db: Db, sessions: seq<Session>, tenant: Uuid, store: Uuid, date: int, now: Time)
  {
    |sessions| == |db.sessions|
    && forall i: nat :: i < |db.sessions| ==>
         sessions[i] == if OpenThatDay(db, tenant, store, date, i) then db.sessions[i].(status := Closed, closedAt := Some(now)) else db.sessions[i]
  }

  lemma ClosesThatDay(db: Db, d: Drawer, c: DayClose, now: Time)
    ensures OnlyCloses(db, WriteClose(db, d, c, now).sessions, c.day.tenant, c.day.store, c.day.date, now)
  {
  }

  lemma NoneToClose(db: Db, sessions: seq<Session>, tenant: Uuid, store: Uuid, date: int, now: Time)
    requires OnlyCloses(db, sessions, tenant, store, date, now) && NoneOpen(db, tenant, store, date)
    ensures sessions == db.sessions
  {
  }

  /** An accepted close closes the open sessions of the day and no other; without force there are none. */
  lemma CloseDaySessions(db: Db, d: Drawer, role: Role, date: int, force: bool, reason: string, counted: Option<Money>, now: Time)
    requires Step(db, CloseDay(d, role, date, force, reason, counted), now).Ok?
    ensures var next := Step(db, CloseDay(d, role, date, force, reason, counted), now).value;
            OnlyCloses(db, next.sessions, d.tenant, d.store, date, now) && (!force ==> next.sessions == db.sessions)
  {
    CloseDayAccepted(db, d, role, date, force, reason, counted, now);
    CloseDayIsStep(db, CloseDay(d, role, date, force, reason, counted), now);
    AcceptedClose(db, d, role, date, force, reason, counted, now);
    var record := CloseDayRecord(db, Day(d.tenant, d.store, date), force, reason, counted, d.cashier, now);
    ClosesThatDay(db, d, record, now);
    if !force {
      NoneToClose(db, WriteClose(db, d, record, now).sessions, d.tenant, d.store, date, now);
    }
  }
}
