/**
  The tables of the cash drawer and, for each request of the cash router, the state
  it leaves behind. A request that raises is `Err` and leaves the tables alone.
  Row identifiers are positions in the (append-only) tables.
 */
module CashModel {
  import opened Common

  /** One cashier's drawer in one store of one tenant. */
  datatype Drawer = Drawer(tenant: Uuid, store: Uuid, cashier: Uuid)

  /** The key of a day close; dates are day numbers. */
  datatype Day = Day(tenant: Uuid, store: Uuid, date: int)

  datatype Status = Open | Closed

  datatype VoucherKind = ADVANCE | GIFT_CARD

  /**
    The `action` column of a movement. `Voucher` stands for ADVANCE_ISSUANCE, GIFT_CARD_ISSUANCE,
    ADVANCE_REFUND and GIFT_CARD_REFUND, `Other` for any action the rollup table does not name.
   */
  datatype Action =
    | OPEN | OPENING | CASH_IN | CASH_OUT | SALE | SALE_CASH_IN | CASH_OUT_REFUND
    | CLOSE | CLOSE_ADJUSTMENT | DAY_CLOSE | Voucher(kind: VoucherKind, refund: bool) | Other(name: string)

  /** What a movement's `sale_id` column refers to. */
  datatype Ref = NoRef | SaleRef(sale: Uuid) | VoucherRef(voucher: nat)

  datatype Session = Session(
    drawer: Drawer,
    status: Status,
    date: int,
    timezone: string,
    opening: Money,
    expected: Money,
    counted: Option<Money>,
    difference: Option<Money>,
    openedAt: Time,
    closedAt: Option<Time>)
  {
    function Key(): Day { Day(drawer.tenant, drawer.store, date) }
  }

  datatype Movement = Movement(
    drawer: Drawer,
    session: Option<nat>,
    date: int,
    ref: Ref,
    action: Action,
    amount: Money,
    before: Option<Money>,
    after: Option<Money>,
    at: Time)
  {
    function Key(): Day { Day(drawer.tenant, drawer.store, date) }
  }

  datatype DifferenceType = OVER | SHORT | EVEN

  datatype DayClose = DayClose(
    day: Day,
    status: Status,
    forced: bool,
    reason: string,
    totals: Totals,
    counted: Option<Money>,
    difference: Option<Money>,
    differenceType: Option<DifferenceType>,
    closedBy: Uuid,
    closedAt: Time)

  /** The five money totals of the reconciliation rollup. */
  datatype Totals = Totals(opening: Money, cashIn: Money, cashOut: Money, netSales: Money, refunds: Money)
  {
    function Expected(): Money { opening + cashIn - cashOut + netSales - refunds }
  }

  datatype CutStatus = CutOpen | CutCompleted | CutVoid

  datatype Cut = Cut(
    tenant: Uuid,
    store: Uuid,
    session: nat,
    number: int,
    fromAt: Time,
    toAt: Time,
    figures: Figures,
    counted: Option<Money>,
    difference: Option<Money>,
    deposit: Option<Money>,
    depositMovement: Option<nat>,
    status: CutStatus,
    createdAt: Time,
    completedAt: Option<Time>)

  /** The money computed by a cut quote. */
  datatype Figures = Figures(
    opening: Money,
    sales: SalesTotals,
    cashIn: Money,
    cashOut: Money,
    refunds: Money)
  {
    function Expected(): Money { opening + sales.cash + cashIn - cashOut - refunds }
  }

  datatype Tender = CASH | CARD | TRANSFER | OtherTender
  datatype Payment = Payment(tender: Tender, amount: Money)
  datatype Sale = Sale(tenant: Uuid, store: Uuid, paid: bool, checkedOutAt: Option<Time>, payments: seq<Payment>)

  datatype SalesTotals = SalesTotals(
    cash: Money, card: Money, transfer: Money,
    mixedCash: Money, mixedCard: Money, mixedTransfer: Money)

  datatype Db = Db(
    sessions: seq<Session>,
    movements: seq<Movement>,
    cuts: seq<Cut>,
    closes: seq<DayClose>)

  // ----- requests -----

  datatype Role = MANAGER | ADMIN | SUPERADMIN | PLATFORM_ADMIN | OtherRole

  datatype CutAction =
    | Complete(counted: Option<Money>) | Void | PrintMark | ApplyCashOut(amount: Option<Money>)

  /**
    A request, already scoped to a tenant and a store. `quotedAt` is the first of the two
    clock readings of a cut creation; every other handler is given one reading.
   */
  datatype Request =
    | OpenSession(drawer: Drawer, opening: Option<Money>, date: Option<int>, timezone: string)
    | CashIn(drawer: Drawer, amount: Option<Money>)
    | CashOut(drawer: Drawer, amount: Option<Money>)
    | CloseSession(drawer: Drawer, counted: Option<Money>)
    | CreateCut(drawer: Drawer, session: Option<nat>, useLast: bool, fromAt: Option<Time>, toAt: Option<Time>,
                counted: Option<Money>, deposit: Option<Money>, autoApply: bool, sales: seq<Sale>, quotedAt: Time)
    | ActOnCut(tenant: Uuid, store: Uuid, cut: nat, action: CutAction)
    | CloseDay(drawer: Drawer, role: Role, businessDate: int, force: bool, reason: string, counted: Option<Money>)
    // posted by the sales router and the voucher router
    | TakeSaleCash(drawer: Drawer, refund: bool, paid: Money, ref: Ref)
    | PayVoucherCash(drawer: Drawer, refund: bool, paid: Money, ref: Ref)
    | PostVoucher(drawer: Drawer, businessDate: int, ref: Ref, kind: VoucherKind, refund: bool, paid: Money)

  // ----- the movement tables -----

  /** MOVEMENT_TYPE_MAP: raw action to rollup category; an unknown action stays as it is. */
  function Normalize(action: Action): Action
  {
    match action
    case OPEN => OPENING
    case SALE => SALE_CASH_IN
    case CLOSE => CLOSE_ADJUSTMENT
    case _ => action
  }

  /** Effect of a movement on the cash in the drawer. */
  function Signed(action: Action, amount: Money): Money
  {
    match Normalize(action)
    case OPENING => amount
    case CASH_IN => amount
    case SALE_CASH_IN => amount
    case CASH_OUT => -amount
    case CASH_OUT_REFUND => -amount
    case _ => 0
  }

  // ----- queries -----

  predicate HasClose(closes: seq<DayClose>, day: Day)
  {
    exists c :: c in closes && c.day == day
  }

  predicate DayClosed(closes: seq<DayClose>, day: Day)
  {
    exists c :: c in closes && c.day == day && c.status == Closed
  }

  predicate IsOpen(s: Session)
  {
    s.status == Open && s.closedAt == None
  }

  /** The rows an open-session query may return; only the cash router filters closed days out. */
  predicate Eligible(db: Db, d: Drawer, filtered: bool, i: nat)
    requires i < |db.sessions|
  {
    var s := db.sessions[i];
    s.drawer == d && IsOpen(s) && !(filtered && DayClosed(db.closes, s.Key()))
  }

  /** The eligible row opened last, among the first n rows. */
  function NewestOpen(db: Db, d: Drawer, filtered: bool, n: nat): (r: Option<nat>)
    requires n <= |db.sessions|
    ensures r.Some? ==> r.value < n && Eligible(db, d, filtered, r.value)
    ensures r.None? ==> forall i: nat :: i < n ==> !Eligible(db, d, filtered, i)
    ensures r.Some? ==> forall i: nat :: i < n && Eligible(db, d, filtered, i) ==>
              db.sessions[i].openedAt <= db.sessions[r.value].openedAt
  {
    if n == 0 then None else
    var best := NewestOpen(db, d, filtered, n - 1);
    if Eligible(db, d, filtered, n - 1)
       && (best.None? || db.sessions[best.value].openedAt <= db.sessions[n - 1].openedAt)
    then Some(n - 1) else best
  }

  /** The cash router's lookup. */
  function OpenSessionQuery(db: Db, d: Drawer): Option<nat>
  {
    NewestOpen(db, d, true, |db.sessions|)
  }

  /** The voucher router's lookup. */
  function ActiveSession(db: Db, d: Drawer): Option<nat>
  {
    NewestOpen(db, d, false, |db.sessions|)
  }

  /** The cut endpoints' lookup: an explicit session id is matched without looking at day closes. */
  function ResolveActiveSession(db: Db, d: Drawer, session: Option<nat>): Option<nat>
  {
    match session
    case None => OpenSessionQuery(db, d)
    case Some(i) => if i < |db.sessions| && Eligible(db, d, false, i) then Some(i) else None
  }

  /** Rows whose status is OPEN in a store, in table order, among the first n. */
  function OpenInStore(db: Db, tenant: Uuid, store: Uuid, n: nat): (r: seq<nat>)
    requires n <= |db.sessions|
    ensures forall i: nat :: i in r <==>
              i < n && db.sessions[i].status == Open
              && db.sessions[i].drawer.tenant == tenant && db.sessions[i].drawer.store == store
  {
    if n == 0 then [] else
    var rest := OpenInStore(db, tenant, store, n - 1);
    var s := db.sessions[n - 1];
    if s.status == Open && s.drawer.tenant == tenant && s.drawer.store == store then rest + [n - 1] else rest
  }

  /** First row with status OPEN of a drawer, among the rows from i on. */
  function FirstOpen(db: Db, d: Drawer, i: nat): (r: Option<nat>)
    requires i <= |db.sessions|
    ensures r.Some? ==> i <= r.value < |db.sessions| && db.sessions[r.value].status == Open && db.sessions[r.value].drawer == d
    ensures r.None? ==> forall j: nat :: i <= j < |db.sessions| ==> !(db.sessions[j].status == Open && db.sessions[j].drawer == d)
    decreases |db.sessions| - i
  {
    if i == |db.sessions| then None
    else if db.sessions[i].status == Open && db.sessions[i].drawer == d then Some(i)
    else FirstOpen(db, d, i + 1)
  }

  /** The sales router's lookup: the cashier's own session, or else the only open one of the store. */
  function RequireOpenSession(db: Db, d: Drawer): (r: Option<nat>)
    ensures r.Some? ==> r.value < |db.sessions| && db.sessions[r.value].status == Open
                        && db.sessions[r.value].drawer.tenant == d.tenant && db.sessions[r.value].drawer.store == d.store
  {
    var own := FirstOpen(db, d, 0);
    var all := OpenInStore(db, d.tenant, d.store, |db.sessions|);
    if own.Some? then own
    else if |all| == 1 then
      assert all[0] in all;
      Some(all[0])
    else None
  }

  // ----- money -----

  /** Posts one movement on a session and moves its expected cash by the same amount. */
  function Post(db: Db, i: nat, d: Drawer, ref: Ref, action: Action, amount: Money, now: Time): (r: Db)
    requires i < |db.sessions|
  {
    var s := db.sessions[i];
    var after := s.expected + Signed(action, amount);
    db.(sessions := db.sessions[i := s.(expected := after)],
        movements := db.movements
                     + [Movement(d, Some(i), s.date, ref, action, amount, Some(s.expected), Some(after), now)])
  }

  /** Posts unless the balance would become negative. */
  function PostChecked(db: Db, i: nat, d: Drawer, ref: Ref, action: Action, amount: Money, now: Time): (r: Result<Db>)
    requires i < |db.sessions|
  {
    if db.sessions[i].expected + Signed(action, amount) < 0 then Err(ValidationError)
    else Ok(Post(db, i, d, ref, action, amount, now))
  }

  predicate Positive(amount: Option<Money>)
  {
    amount.Some? && amount.value > 0
  }

  /** `_record_cash_movement`, shared by sales, returns and cash vouchers. */
  function RecordCash(db: Db, i: nat, action: Action, amount: Money, ref: Ref, now: Time): (r: Result<Db>)
    requires i < |db.sessions|
  {
    var s := db.sessions[i];
    if amount <= 0 || HasClose(db.closes, s.Key()) then Err(ValidationError)
    else PostChecked(db, i, s.drawer, ref, action, amount, now)
  }

  /** A voucher movement paid by card or transfer: no session, no balance. */
  function PostNonCash(db: Db, d: Drawer, date: int, ref: Ref, kind: VoucherKind, refund: bool, amount: Money, now: Time): Db
  {
    db.(movements := db.movements + [Movement(d, None, date, ref, Voucher(kind, refund), amount, Some(0), Some(0), now)])
  }

  // ----- session actions -----

  function OpenStep(db: Db, d: Drawer, opening: Option<Money>, date: Option<int>, timezone: string, now: Time): Result<Db>
  {
    if !Positive(opening) || date.None? || timezone == "" then Err(ValidationError)
    else if HasClose(db.closes, Day(d.tenant, d.store, date.value)) then Err(ValidationError)
    else if OpenSessionQuery(db, d).Some? then Err(BusinessConflict)
    else
      var s := Session(d, Open, date.value, timezone, opening.value, opening.value, None, None, now, None);
      var m := Movement(d, Some(|db.sessions|), date.value, NoRef, OPEN, opening.value, Some(0), Some(opening.value), now);
      Ok(db.(sessions := db.sessions + [s], movements := db.movements + [m]))
  }

  /** The checks that CASH_IN, CASH_OUT and CLOSE share. */
  function CurrentSession(db: Db, d: Drawer): (r: Result<nat>)
    ensures r.Ok? ==> r.value < |db.sessions| && Eligible(db, d, true, r.value)
  {
    match OpenSessionQuery(db, d)
    case None => Err(BusinessConflict)
    case Some(i) => if HasClose(db.closes, db.sessions[i].Key()) then Err(ValidationError) else Ok(i)
  }

  function CashInStep(db: Db, d: Drawer, amount: Option<Money>, now: Time): Result<Db>
  {
    match CurrentSession(db, d)
    case Err(e) => Err(e)
    case Ok(i) => if !Positive(amount) then Err(ValidationError)
                  else Ok(Post(db, i, d, NoRef, CASH_IN, amount.value, now))
  }

  function CashOutStep(db: Db, d: Drawer, amount: Option<Money>, now: Time): Result<Db>
  {
    match CurrentSession(db, d)
    case Err(e) => Err(e)
    case Ok(i) => if !Positive(amount) then Err(ValidationError)
                  else PostChecked(db, i, d, NoRef, CASH_OUT, amount.value, now)
  }

  /** The row of a session counted and closed; its expected cash stays. */
  function CountRow(s: Session, counted: Money, now: Time): Session
  {
    s.(status := Closed, closedAt := Some(now), counted := Some(counted), difference := Some(counted - s.expected))
  }

  function CloseStep(db: Db, d: Drawer, counted: Option<Money>, now: Time): Result<Db>
  {
    match CurrentSession(db, d)
    case Err(e) => Err(e)
    case Ok(i) =>
      if counted.None? then Err(ValidationError) else
      var posted := Post(db, i, d, NoRef, CLOSE, 0, now);
      Ok(posted.(sessions := posted.sessions[i := CountRow(posted.sessions[i], counted.value, now)]))
  }

  /** Checkout, refund and exchange of a sale. */
  function SaleCashStep(db: Db, d: Drawer, refund: bool, amount: Money, ref: Ref, now: Time): Result<Db>
  {
    match RequireOpenSession(db, d)
    case None => Err(BusinessConflict)
    case Some(i) => RecordCash(db, i, if refund then CASH_OUT_REFUND else SALE, amount, ref, now)
  }

  /** Issue or refund of a voucher paid in cash. */
  function VoucherCashStep(db: Db, d: Drawer, refund: bool, amount: Money, ref: Ref, now: Time): Result<Db>
  {
    match ActiveSession(db, d)
    case None => Err(BusinessConflict)
    case Some(i) => RecordCash(db, i, if refund then CASH_OUT else CASH_IN, amount, ref, now)
  }

  // ----- cuts -----

  /** The cut of a session with the highest number (the latest such row), by position. */
  function LastCut(cuts: seq<Cut>, session: nat): (r: Option<nat>)
    ensures r.Some? ==> r.value < |cuts| && cuts[r.value].session == session
    ensures r.None? <==> forall c :: c in cuts ==> c.session != session
  {
    if cuts == [] then None else
    var n := |cuts| - 1;
    var best := LastCut(cuts[..n], session);
    assert cuts == cuts[..n] + [cuts[n]];
    if cuts[n].session == session && (best.None? || cuts[best.value].number <= cuts[n].number) then Some(n) else best
  }

  function NextCutNumber(cuts: seq<Cut>, session: nat): int
  {
    match LastCut(cuts, session) case None => 1 case Some(k) => cuts[k].number + 1
  }

  function ResolveWindow(db: Db, i: nat, useLast: bool, fromAt: Option<Time>, toAt: Option<Time>, now: Time): (r: (Time, Time))
    requires i < |db.sessions|
  {
    var upTo := if toAt.Some? then toAt.value else now;
    if fromAt.Some? then (fromAt.value, upTo)
    else if useLast && LastCut(db.cuts, i).Some? then (db.cuts[LastCut(db.cuts, i).value].toAt, upTo)
    else (db.sessions[i].openedAt, upTo)
  }

  /** Movements of a session with one raw action and lo <= at < hi (or at <= hi when inclusive). */
  predicate InWindow(m: Movement, i: nat, d: Drawer, action: Action, lo: Time, hi: Time, inclusive: bool)
  {
    m.session == Some(i) && m.drawer.tenant == d.tenant && m.drawer.store == d.store && m.action == action
    && lo <= m.at && (m.at < hi || (inclusive && m.at == hi))
  }

  function WindowWeight(i: nat, d: Drawer, action: Action, lo: Time, hi: Time, inclusive: bool): Movement -> int
  {
    (m: Movement) => if InWindow(m, i, d, action, lo, hi, inclusive) then m.amount else 0
  }

  function WindowTotal(ms: seq<Movement>, i: nat, d: Drawer, action: Action, lo: Time, hi: Time, inclusive: bool): Money
  {
    Sum(ms, WindowWeight(i, d, action, lo, hi, inclusive))
  }

  /** Payments of one kind on one sale. */
  function Paid(tender: Tender): Payment -> int
  {
    (p: Payment) => if p.tender == tender then p.amount else 0
  }

  predicate SaleInWindow(sale: Sale, d: Drawer, lo: Time, hi: Time)
  {
    sale.tenant == d.tenant && sale.store == d.store && sale.paid
    && sale.checkedOutAt.Some? && lo <= sale.checkedOutAt.value <= hi
  }

  function SaleWeight(d: Drawer, lo: Time, hi: Time, tender: Tender, mixedOnly: bool): Sale -> int
  {
    (sale: Sale) => if SaleInWindow(sale, d, lo, hi) && (mixedOnly ==> |sale.payments| > 1) then Sum(sale.payments, Paid(tender)) else 0
  }

  function SalesIn(sales: seq<Sale>, d: Drawer, lo: Time, hi: Time): SalesTotals
  {
    SalesTotals(
      Sum(sales, SaleWeight(d, lo, hi, CASH, false)),
      Sum(sales, SaleWeight(d, lo, hi, CARD, false)),
      Sum(sales, SaleWeight(d, lo, hi, TRANSFER, false)),
      Sum(sales, SaleWeight(d, lo, hi, CASH, true)),
      Sum(sales, SaleWeight(d, lo, hi, CARD, true)),
      Sum(sales, SaleWeight(d, lo, hi, TRANSFER, true)))
  }

  /** The figures of a quote over the window [lo, hi]. */
  function Quote(db: Db, i: nat, d: Drawer, lo: Time, hi: Time, sales: seq<Sale>): (r: Figures)
    requires i < |db.sessions|
  {
    var ms := db.movements;
    var s := db.sessions[i];
    Figures(
      s.opening
      + WindowTotal(ms, i, d, CASH_IN, s.openedAt, lo, false)
      - WindowTotal(ms, i, d, CASH_OUT, s.openedAt, lo, false)
      + WindowTotal(ms, i, d, SALE, s.openedAt, lo, false)
      - WindowTotal(ms, i, d, CASH_OUT_REFUND, s.openedAt, lo, false),
      SalesIn(sales, d, lo, hi),
      WindowTotal(ms, i, d, CASH_IN, lo, hi, true),
      WindowTotal(ms, i, d, CASH_OUT, lo, hi, true),
      WindowTotal(ms, i, d, CASH_OUT_REFUND, lo, hi, true))
  }

  /** A cut and, if asked for, the deposit that goes with it; the cut is lost when the deposit is refused. */
  function SaveCutStep(db: Db, cut: Cut, r: Request, i: nat, now: Time): Result<Db>
    requires r.CreateCut? && i < |db.sessions|
  {
    if r.autoApply && Positive(r.deposit) then
      match PostChecked(db, i, r.drawer.(cashier := db.sessions[i].drawer.cashier), NoRef, CASH_OUT, r.deposit.value, now)
      case Err(e) => Err(e)
      case Ok(posted) => Ok(posted.(cuts := db.cuts + [cut.(depositMovement := Some(|db.movements|))]))
    else Ok(db.(cuts := db.cuts + [cut]))
  }

  datatype Draft = Draft(session: nat, cut: Cut)

  /** The checks of a cut creation, the window, the quote and the row that would be saved. */
  function DraftCut(db: Db, r: Request, now: Time): (draft: Result<Draft>)
    requires r.CreateCut?
    ensures draft.Ok? ==> draft.value.session < |db.sessions|
  {
    match ResolveActiveSession(db, r.drawer, r.session)
    case None => Err(BusinessConflict)
    case Some(i) =>
      if HasClose(db.closes, db.sessions[i].Key()) then Err(ValidationError) else
      var (lo, hi) := ResolveWindow(db, i, r.useLast, r.fromAt, r.toAt, r.quotedAt);
      if hi <= lo then Err(ValidationError) else
      var figures := Quote(db, i, r.drawer, lo, hi, r.sales);
      Ok(Draft(i, Cut(r.drawer.tenant, r.drawer.store, i, NextCutNumber(db.cuts, i), lo, hi, figures,
                      r.counted,
                      if r.counted.Some? then Some(r.counted.value - figures.Expected()) else None,
                      r.deposit, None,
                      if r.counted.Some? then CutCompleted else CutOpen,
                      now,
                      if r.counted.Some? then Some(now) else None)))
  }

  function CreateCutStep(db: Db, r: Request, now: Time): Result<Db>
    requires r.CreateCut?
  {
    match DraftCut(db, r, now)
    case Err(e) => Err(e)
    case Ok(draft) => SaveCutStep(db, draft.cut, r, draft.session, now)
  }

  function ApplyCashOutStep(db: Db, k: nat, amount: Option<Money>, now: Time): Result<Db>
    requires k < |db.cuts|
  {
    var cut := db.cuts[k];
    if !Positive(amount) then Err(ValidationError)
    else if !(cut.session < |db.sessions| && db.sessions[cut.session].status == Open) then Err(BusinessConflict)
    else
      var d := Drawer(cut.tenant, cut.store, db.sessions[cut.session].drawer.cashier);
      match PostChecked(db, cut.session, d, NoRef, CASH_OUT, amount.value, now)
      case Err(e) => Err(e)
      case Ok(posted) =>
        Ok(posted.(cuts := db.cuts[k := cut.(deposit := amount, depositMovement := Some(|db.movements|))]))
  }

  function ActOnCutStep(db: Db, tenant: Uuid, store: Uuid, k: nat, action: CutAction, now: Time): Result<Db>
  {
    if !(k < |db.cuts| && db.cuts[k].tenant == tenant && db.cuts[k].store == store) then Err(NotFound) else
    var cut := db.cuts[k];
    match action
    case Void => Ok(db.(cuts := db.cuts[k := cut.(status := CutVoid)]))
    case Complete(counted) =>
      if counted.None? then Err(ValidationError) else
      Ok(db.(cuts := db.cuts[k := cut.(status := CutCompleted, counted := counted,
                                       difference := Some(counted.value - cut.figures.Expected()),
                                       completedAt := Some(now))]))
    case PrintMark => Ok(db)
    case ApplyCashOut(amount) => ApplyCashOutStep(db, k, amount, now)
  }

  // ----- day close -----

  function CategoryWeight(day: Day, category: Action): Movement -> int
  {
    (m: Movement) => if m.Key() == day && Normalize(m.action) == category then m.amount else 0
  }

  /** The total of one rollup category over all movements of a day. */
  function CategoryTotal(ms: seq<Movement>, day: Day, category: Action): Money
  {
    Sum(ms, CategoryWeight(day, category))
  }

  /** The money totals the rollup reports for a day. */
  function Rollup(ms: seq<Movement>, day: Day): Totals
  {
    Totals(CategoryTotal(ms, day, OPENING), CategoryTotal(ms, day, CASH_IN), CategoryTotal(ms, day, CASH_OUT),
           CategoryTotal(ms, day, SALE_CASH_IN), CategoryTotal(ms, day, CASH_OUT_REFUND))
  }

  function Kind(difference: Option<Money>): (r: Option<DifferenceType>)
  {
    if difference.None? then None
    else if difference.value > 0 then Some(OVER)
    else if difference.value < 0 then Some(SHORT)
    else Some(EVEN)
  }

  predicate OpenOn(s: Session, day: Day)
  {
    s.status == Open && s.Key() == day
  }

  function CloseRow(s: Session, day: Day, now: Time): Session
  {
    if OpenOn(s, day) then s.(status := Closed, closedAt := Some(now)) else s
  }

  /** Every session of the day that is still open is closed; nothing else changes. */
  function CloseAll(sessions: seq<Session>, day: Day, now: Time): (r: seq<Session>)
    ensures |r| == |sessions|
    ensures forall i :: 0 <= i < |r| ==> r[i] == CloseRow(sessions[i], day, now)
  {
    if sessions == [] then []
    else CloseAll(sessions[..|sessions| - 1], day, now) + [CloseRow(sessions[|sessions| - 1], day, now)]
  }

  predicate AnyOpenOn(sessions: seq<Session>, day: Day)
  {
    exists s :: s in sessions && OpenOn(s, day)
  }

  predicate MayForce(role: Role)
  {
    role in {MANAGER, ADMIN, SUPERADMIN, PLATFORM_ADMIN}
  }

  /** The record of a day with these totals. */
  function DayRecord(totals: Totals, day: Day, force: bool, reason: string, counted: Option<Money>, closer: Uuid, now: Time): DayClose
  {
    var difference := if counted.Some? then Some(counted.value - totals.Expected()) else None;
    DayClose(day, Closed, force, reason, totals, counted, difference, Kind(difference), closer, now)
  }

  function CloseDayRecord(db: Db, day: Day, force: bool, reason: string, counted: Option<Money>, closer: Uuid, now: Time): DayClose
  {
    DayRecord(Rollup(db.movements, day), day, force, reason, counted, closer, now)
  }

  function CloseDayRefusal(db: Db, day: Day, role: Role, force: bool, reason: string): Option<Error>
  {
    if HasClose(db.closes, day) then Some(ValidationError)
    else if !AnyOpenOn(db.sessions, day) then None
    else if !force then Some(ValidationError)
    else if !MayForce(role) then Some(PermissionDenied)
    else if reason == "" then Some(ValidationError)
    else None
  }

  /** Sessions still open are closed, the record and a DAY_CLOSE movement are added. */
  function WriteClose(db: Db, d: Drawer, record: DayClose, now: Time): Db
  {
    Db(CloseAll(db.sessions, record.day, now),
       db.movements + [Movement(d, None, record.day.date, NoRef, DAY_CLOSE, 0, None, None, now)],
       db.cuts,
       db.closes + [record])
  }

  function CloseDayStep(db: Db, d: Drawer, role: Role, date: int, force: bool, reason: string,
                        counted: Option<Money>, now: Time): Result<Db>
  {
    var day := Day(d.tenant, d.store, date);
    match CloseDayRefusal(db, day, role, force, reason)
    case Some(e) => Err(e)
    case None =>
      Ok(WriteClose(db, d, CloseDayRecord(db, day, force, reason, counted, d.cashier, now), now))
  }

  // ----- requests -----

  function Step(db: Db, r: Request, now: Time): Result<Db>
  {
    match r
    case OpenSession(d, opening, date, timezone) => OpenStep(db, d, opening, date, timezone, now)
    case CashIn(d, amount) => CashInStep(db, d, amount, now)
    case CashOut(d, amount) => CashOutStep(db, d, amount, now)
    case CloseSession(d, counted) => CloseStep(db, d, counted, now)
    case CreateCut(_, _, _, _, _, _, _, _, _, _) => CreateCutStep(db, r, now)
    case ActOnCut(tenant, store, cut, action) => ActOnCutStep(db, tenant, store, cut, action, now)
    case CloseDay(d, role, date, force, reason, counted) => CloseDayStep(db, d, role, date, force, reason, counted, now)
    case TakeSaleCash(d, refund, amount, ref) => SaleCashStep(db, d, refund, amount, ref, now)
    case PayVoucherCash(d, refund, amount, ref) => VoucherCashStep(db, d, refund, amount, ref, now)
    case PostVoucher(d, date, ref, kind, refund, amount) => Ok(PostNonCash(db, d, date, ref, kind, refund, amount, now))
  }

  /** The tables after a request: a refused one leaves them as they were. */
  function Kept(before: Db, r: Result<Db>): Db
  {
    match r case Ok(next) => next case Err(_) => before
  }

  function Refusal(r: Result<Db>): Option<Error>
  {
    match r case Ok(_) => None case Err(e) => Some(e)
  }
}
