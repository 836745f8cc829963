/**
  Advances and gift cards: the vouchers table, its event log, and the requests of the
  voucher router, on top of the cash tables they post to.
 */
module VoucherModel {
  import opened Common
  import opened CashModel
  import opened Text

  datatype VoucherStatus = ACTIVE | CONSUMED | REFUNDED | EXPIRED
  datatype PayMethod = ByCash | ByCard | ByTransfer

  datatype Advance = Advance(
    tenant: Uuid,
    store: Uuid,
    number: int,
    barcode: string,
    kind: VoucherKind,
    amount: Money,
    paidBy: PayMethod,
    issueMovement: nat,
    issuedAt: Time,
    expiresAt: Time,
    status: VoucherStatus,
    consumedSale: Option<Uuid>,
    refundMovement: Option<nat>,
    refundedAt: Option<Time>,
    expiredAt: Option<Time>,
    updatedAt: Time)

  datatype EventAction = ISSUED | VALIDATED | Ended(status: VoucherStatus)

  /** The amounts in the payload of a CONSUMED event. */
  datatype Application = Application(saleTotal: Money, applied: Money, remaining: Money)

  datatype Event = Event(voucher: nat, action: EventAction, application: Option<Application>, at: Time)

  datatype System = System(cash: Db, vouchers: seq<Advance>, events: seq<Event>)

  datatype VoucherAction =
    | Refund(tender: Option<PayMethod>)
    | Consume(saleTotal: Option<Money>, sale: Option<Uuid>, saleKnown: bool)
    | ExpireNow

  /**
    `checkedAt` is the first clock reading of a handler that takes two: the one expiry is
    decided on. Browse stands for the list and the alerts endpoints, which sweep before they read.
   */
  datatype Request =
    | Cash(request: CashModel.Request)
    | Issue(drawer: Drawer, amount: Money, tender: PayMethod, kind: VoucherKind)
    | Mutate(voucher: nat, cashier: Uuid, action: VoucherAction, checkedAt: Time)
    | Lookup(code: string, checkedAt: Time)
    | Get(voucher: nat)
    | Sweep(tenant: Uuid, store: Uuid)
    | Browse(tenant: Uuid, store: Uuid, filter: Filter)

  /** The list endpoint with or without a status, and the alerts for the next so many days. */
  datatype Filter = All | WithStatus(status: VoucherStatus) | ExpiringIn(days: nat)

  /** One row of a listing. */
  datatype Line = Line(voucher: nat, status: VoucherStatus)

  /** What the caller is told; times written by an expiry are left out. */
  datatype Reply =
    | Refused(error: Error)
    | Accepted
    | Issued(number: int, barcode: string)
    | Shown(voucher: nat, status: VoucherStatus)
    | NotFound
    | Ended(status: VoucherStatus, application: Option<Application>)
    | Listed(lines: seq<Line>)

  // ----- numbers and barcodes -----

  function MaxNumber(vouchers: seq<Advance>, tenant: Uuid, store: Uuid): (r: int)
    ensures r >= 0 && forall v :: v in vouchers && v.tenant == tenant && v.store == store ==> v.number <= r
  {
    if vouchers == [] then 0 else
    var best := MaxNumber(vouchers[..|vouchers| - 1], tenant, store);
    var v := vouchers[|vouchers| - 1];
    assert vouchers == vouchers[..|vouchers| - 1] + [v];
    if v.tenant == tenant && v.store == store && best < v.number then v.number else best
  }

  function Zeros(n: nat): string
  {
    if n == 0 then "" else "0" + Zeros(n - 1)
  }

  /** Left-padded with zeros to a minimum width; longer texts are not cut. */
  function PadTo(text: string, width: nat): string
  {
    if |text| >= width then text else Zeros(width - |text|) + text
  }

  /** The first eight hexadecimal digits of a 128-bit identifier. */
  function StorePrefix(store: Uuid): string
  {
    PadTo(Digits(store / 0x1_0000_0000_0000_0000_0000_0000, 16), 8)
  }

  function Barcode(store: Uuid, number: nat): string
  {
    "ADV-" + StorePrefix(store) + "-" + PadTo(Digits(number, 10), 8)
  }

  // ----- expiry -----

  const DAY: Time := 86_400_000_000
  const LIFETIME: Time := 60 * DAY

  predicate Due(v: Advance, now: Time)
  {
    v.status == ACTIVE && v.expiresAt <= now
  }

  /** What a voucher is at a time, whether or not anybody has written its expiry down. */
  function View(v: Advance, t: Time): VoucherStatus
  {
    if Due(v, t) then EXPIRED else v.status
  }

  function ExpireRow(v: Advance, now: Time): Advance
  {
    v.(status := EXPIRED, expiredAt := Some(now), updatedAt := now)
  }

  /** `expire_advance_if_needed`. */
  function ExpireIfNeeded(s: System, i: nat, now: Time): System
    requires i < |s.vouchers|
  {
    if Due(s.vouchers[i], now)
    then s.(vouchers := s.vouchers[i := ExpireRow(s.vouchers[i], now)],
            events := s.events + [Event(i, EventAction.Ended(EXPIRED), None, now)])
    else s
  }

  /** The VALIDATED event a lookup leaves behind. */
  function LogValidated(s: System, i: nat, now: Time): System
  {
    s.(events := s.events + [Event(i, EventAction.VALIDATED, None, now)])
  }

  predicate InScope(v: Advance, tenant: Uuid, store: Uuid)
  {
    v.tenant == tenant && v.store == store
  }

  function ExpireInScope(s: System, i: nat, tenant: Uuid, store: Uuid, now: Time): System
    requires i < |s.vouchers|
  {
    if InScope(s.vouchers[i], tenant, store) then ExpireIfNeeded(s, i, now) else s
  }

  /** `sweep_expired_advances` over the first n rows. */
  function SweepFirst(s: System, tenant: Uuid, store: Uuid, n: nat, now: Time): (r: System)
    requires n <= |s.vouchers|
    ensures r.cash == s.cash && |r.vouchers| == |s.vouchers|
  {
    if n == 0 then s else
    ExpireInScope(SweepFirst(s, tenant, store, n - 1, now), n - 1, tenant, store, now)
  }

  function SweepAll(s: System, tenant: Uuid, store: Uuid, now: Time): System
  {
    SweepFirst(s, tenant, store, |s.vouchers|, now)
  }

  // ----- listings -----

  predicate Passes(filter: Filter, status: VoucherStatus, expiresAt: Time, now: Time)
  {
    match filter
    case All => true
    case WithStatus(wanted) => status == wanted
    case ExpiringIn(days) => status == ACTIVE && now <= expiresAt <= now + days * DAY
  }

  /** The rows of a store that pass a filter by their status column, in table order, among the first n. */
  function Listing(vouchers: seq<Advance>, tenant: Uuid, store: Uuid, filter: Filter, now: Time, n: nat): seq<Line>
    requires n <= |vouchers|
  {
    if n == 0 then [] else
    var rest := Listing(vouchers, tenant, store, filter, now, n - 1);
    var v := vouchers[n - 1];
    if InScope(v, tenant, store) && Passes(filter, v.status, v.expiresAt, now) then rest + [Line(n - 1, v.status)] else rest
  }

  // ----- issue -----

  /** The unique constraint on tenant and barcode. */
  predicate BarcodeTaken(vouchers: seq<Advance>, tenant: Uuid, barcode: string)
  {
    exists v :: v in vouchers && v.tenant == tenant && v.barcode == barcode
  }

  /** Cash goes through the cashier's session; cards and transfers are booked on the UTC date. */
  function Posting(d: Drawer, i: nat, kind: VoucherKind, amount: Money, tender: PayMethod, refund: bool, now: Time): CashModel.Request
  {
    if tender.ByCash? then PayVoucherCash(d, refund, amount, VoucherRef(i))
    else PostVoucher(d, now / DAY, VoucherRef(i), kind, refund, amount)
  }

  /** The posting as the handlers make it, without the round through the cash requests. */
  function PayStep(db: Db, d: Drawer, i: nat, kind: VoucherKind, amount: Money, tender: PayMethod, refund: bool, now: Time): Result<Db>
  {
    if tender.ByCash? then VoucherCashStep(db, d, refund, amount, VoucherRef(i), now)
    else Ok(PostNonCash(db, d, now / DAY, VoucherRef(i), kind, refund, amount, now))
  }

  lemma PayIsPosting(db: Db, d: Drawer, i: nat, kind: VoucherKind, amount: Money, tender: PayMethod, refund: bool, now: Time)
    ensures PayStep(db, d, i, kind, amount, tender, refund, now) == Step(db, Posting(d, i, kind, amount, tender, refund, now), now)
  {
  }

  function NewRow(d: Drawer, number: nat, amount: Money, tender: PayMethod, kind: VoucherKind, movement: nat, now: Time): Advance
  {
    Advance(d.tenant, d.store, number, Barcode(d.store, number), kind, amount, tender, movement, now, now + LIFETIME,
            ACTIVE, None, None, None, None, now)
  }

  /** Row, event and payment of an issue; all or nothing. */
  function BookIssue(s: System, d: Drawer, number: nat, amount: Money, tender: PayMethod, kind: VoucherKind, now: Time): Result<System>
  {
    var id := |s.vouchers|;
    match PayStep(s.cash, d, id, kind, amount, tender, false, now)
    case Err(e) => Err(e)
    case Ok(cash) =>
      Ok(System(cash,
                s.vouchers + [NewRow(d, number, amount, tender, kind, |s.cash.movements|, now)],
                s.events + [Event(id, EventAction.ISSUED, None, now)]))
  }

  function NextNumber(s: System, d: Drawer): (r: nat)
    ensures r >= 1
  {
    MaxNumber(s.vouchers, d.tenant, d.store) + 1
  }

  function IssueRefusal(s: System, d: Drawer, amount: Money): Option<Error>
  {
    if amount <= 0 then Some(ValidationError)
    else if BarcodeTaken(s.vouchers, d.tenant, Barcode(d.store, NextNumber(s, d))) then Some(IntegrityError)
    else None
  }

  function IssueStep(s: System, d: Drawer, amount: Money, tender: PayMethod, kind: VoucherKind, now: Time): Result<System>
  {
    match IssueRefusal(s, d, amount)
    case Some(e) => Err(e)
    case None => BookIssue(s, d, NextNumber(s, d), amount, tender, kind, now)
  }

  // ----- consume, refund, expire -----

  function RefundStep(s: System, i: nat, cashier: Uuid, tender: Option<PayMethod>, now: Time): Result<System>
    requires i < |s.vouchers|
  {
    if tender.None? then Err(ValidationError) else
    var v := s.vouchers[i];
    match PayStep(s.cash, Drawer(v.tenant, v.store, cashier), i, v.kind, v.amount, tender.value, true, now)
    case Err(e) => Err(e)
    case Ok(cash) =>
      var row := v.(status := REFUNDED, refundMovement := Some(|s.cash.movements|), refundedAt := Some(now), updatedAt := now);
      Ok(System(cash, s.vouchers[i := row], s.events + [Event(i, EventAction.Ended(REFUNDED), None, now)]))
  }

  function ConsumeStep(s: System, i: nat, saleTotal: Option<Money>, sale: Option<Uuid>, saleKnown: bool, now: Time): Result<System>
    requires i < |s.vouchers|
  {
    var v := s.vouchers[i];
    if saleTotal.None? || saleTotal.value < v.amount then Err(ValidationError)
    else if sale.Some? && !saleKnown then Err(Error.NotFound)
    else
      var row := v.(status := CONSUMED, consumedSale := sale, updatedAt := now);
      var application := Application(saleTotal.value, v.amount, saleTotal.value - v.amount);
      Ok(s.(vouchers := s.vouchers[i := row], events := s.events + [Event(i, EventAction.Ended(CONSUMED), Some(application), now)]))
  }

  /** `mutate_advance`. A refused action leaves even a due expiry unwritten. */
  function MutateStep(s: System, i: nat, cashier: Uuid, action: VoucherAction, checkedAt: Time, now: Time): Result<System>
  {
    if i >= |s.vouchers| then Err(Error.NotFound)
    else if View(s.vouchers[i], checkedAt) != ACTIVE then Err(BusinessConflict)
    else
      match action
      case Refund(tender) => RefundStep(s, i, cashier, tender, now)
      case Consume(saleTotal, sale, saleKnown) => ConsumeStep(s, i, saleTotal, sale, saleKnown, now)
      case ExpireNow =>
        Ok(s.(vouchers := s.vouchers[i := ExpireRow(s.vouchers[i], now)],
              events := s.events + [Event(i, EventAction.Ended(EXPIRED), None, now)]))
  }

  // ----- lookup -----

  predicate AllDigits(code: string)
  {
    forall k :: 0 <= k < |code| ==> '0' <= code[k] <= '9'
  }

  predicate IsNumber(code: string)
  {
    code != "" && AllDigits(code)
  }

  function ParseNumber(code: string): nat
    requires AllDigits(code)
  {
    if code == "" then 0
    else ParseNumber(code[..|code| - 1]) * 10 + (code[|code| - 1] as int - '0' as int)
  }

  predicate Matches(v: Advance, code: string)
  {
    v.barcode == code || (IsNumber(code) && v.number == ParseNumber(code))
  }

  /** The first row that matches, from position i on. */
  function FirstMatch(vouchers: seq<Advance>, code: string, i: nat): (r: Option<nat>)
    requires i <= |vouchers|
    ensures r.Some? ==> i <= r.value < |vouchers| && Matches(vouchers[r.value], code)
    ensures r.None? ==> forall j :: i <= j < |vouchers| ==> !Matches(vouchers[j], code)
    decreases |vouchers| - i
  {
    if i == |vouchers| then None else if Matches(vouchers[i], code) then Some(i) else FirstMatch(vouchers, code, i + 1)
  }

  // ----- all requests -----

  /** Voucher postings reach the cash tables only through the voucher requests. */
  predicate OfCashRouters(r: CashModel.Request)
  {
    !r.PayVoucherCash? && !r.PostVoucher? && (r.TakeSaleCash? ==> !r.ref.VoucherRef?)
  }

  function ApplyResult(s: System, r: Result<System>): System
  {
    match r case Ok(next) => next case Err(_) => s
  }

  function Failure(r: Result<System>): Option<Error>
  {
    match r case Ok(_) => None case Err(e) => Some(e)
  }

  function After(s: System, r: Request, now: Time): System
  {
    match r
    case Cash(request) => if OfCashRouters(request) then s.(cash := Kept(s.cash, Step(s.cash, request, now))) else s
    case Issue(d, amount, tender, kind) => ApplyResult(s, IssueStep(s, d, amount, tender, kind, now))
    case Mutate(i, cashier, action, checkedAt) => ApplyResult(s, MutateStep(s, i, cashier, action, checkedAt, now))
    case Lookup(code, checkedAt) =>
      (match FirstMatch(s.vouchers, code, 0)
       case None => s
       case Some(i) => LogValidated(ExpireIfNeeded(s, i, checkedAt), i, now))
    case Get(i) => if i < |s.vouchers| then ExpireIfNeeded(s, i, now) else s
    case Sweep(tenant, store) => SweepAll(s, tenant, store, now)
    case Browse(tenant, store, _) => SweepAll(s, tenant, store, now)
  }

  function Answer(s: System, r: Request, now: Time): Reply
  {
    match r
    case Cash(request) =>
      if !OfCashRouters(request) then Refused(ValidationError)
      else (match Step(s.cash, request, now) case Ok(_) => Accepted case Err(e) => Refused(e))
    case Issue(d, amount, tender, kind) =>
      (match IssueStep(s, d, amount, tender, kind, now)
       case Err(e) => Refused(e)
       case Ok(next) =>
         var v := next.vouchers[|s.vouchers|];
         Reply.Issued(v.number, v.barcode))
    case Mutate(i, cashier, action, checkedAt) =>
      (match MutateStep(s, i, cashier, action, checkedAt, now)
       case Err(e) => Refused(e)
       case Ok(next) => Reply.Ended(next.vouchers[i].status, next.events[|s.events|].application))
    case Lookup(code, checkedAt) =>
      (match FirstMatch(s.vouchers, code, 0)
       case None => Reply.NotFound
       case Some(i) => Shown(i, View(s.vouchers[i], checkedAt)))
    case Get(i) => if i < |s.vouchers| then Shown(i, View(s.vouchers[i], now)) else Refused(Error.NotFound)
    case Sweep(_, _) => Accepted
    case Browse(tenant, store, filter) =>
      Listed(Listing(SweepAll(s, tenant, store, now).vouchers, tenant, store, filter, now, |s.vouchers|))
  }
}
