/** What every request keeps of the vouchers: numbers, event log, and money across the tables. */
module VoucherInvariants {
  import opened Common
  import opened CashModel
  import opened CashInvariants
  import CashTheorems
  import opened VoucherModel

  // ----- numbers -----

  function CountIn(vouchers: seq<Advance>, tenant: Uuid, store: Uuid): nat
  {
    if vouchers == [] then 0
    else CountIn(vouchers[..|vouchers| - 1], tenant, store) + (if InScope(vouchers[|vouchers| - 1], tenant, store) then 1 else 0)
  }

  /** Every voucher carries the next number of its store. */
  ghost predicate InSequence(vouchers: seq<Advance>)
  {
    vouchers == []
    || (InSequence(vouchers[..|vouchers| - 1])
        && var v := vouchers[|vouchers| - 1];
           v.number == CountIn(vouchers[..|vouchers| - 1], v.tenant, v.store) + 1)
  }

  /** Every voucher carries the barcode of its number. */
  ghost predicate Barcoded(vouchers: seq<Advance>)
  {
    forall v :: v in vouchers ==> v.number >= 1 && v.barcode == Barcode(v.store, v.number)
  }

  // ----- the event log -----

  /** What the log says of one voucher; Broken is a log no life of a voucher can leave. */
  datatype Life = Unborn | Live(status: VoucherStatus) | Broken

  function Replay(events: seq<Event>, i: nat): Life
  {
    if events == [] then Unborn else
    var life := Replay(events[..|events| - 1], i);
    var e := events[|events| - 1];
    if e.voucher != i then life else
    match e.action
    case ISSUED => if life == Unborn then Live(ACTIVE) else Broken
    case VALIDATED => if life.Live? then life else Broken
    case Ended(status) => if life == Live(ACTIVE) && status != ACTIVE then Live(status) else Broken
  }

  /** The status column is the replay of the log, and the columns of an ending go with the status. */
  ghost predicate Logged(vouchers: seq<Advance>, events: seq<Event>)
  {
    && (forall e :: e in events ==> e.voucher < |vouchers|)
    && forall i: nat :: i < |vouchers| ==> LoggedAt(events, vouchers[i], i)
  }

  ghost predicate LoggedAt(events: seq<Event>, v: Advance, i: nat)
  {
    && Replay(events, i) == Live(v.status)
    && (v.status == REFUNDED <==> v.refundedAt.Some?) && (v.status == REFUNDED <==> v.refundMovement.Some?)
    && (v.status == EXPIRED <==> v.expiredAt.Some?)
    && (v.consumedSale.Some? ==> v.status == CONSUMED)
  }

  // ----- money -----

  predicate IsIssue(action: Action)
  {
    action == CASH_IN || (action.Voucher? && !action.refund)
  }

  predicate IsRefund(action: Action)
  {
    action == CASH_OUT || (action.Voucher? && action.refund)
  }

  /** Movements that issue vouchers, and movements that refund them. */
  function PaidIn(): Movement -> int
  {
    (m: Movement) => if m.ref.VoucherRef? && IsIssue(m.action) then m.amount else 0
  }

  function PaidOut(): Movement -> int
  {
    (m: Movement) => if m.ref.VoucherRef? && IsRefund(m.action) then m.amount else 0
  }

  function RefundsOf(i: nat): Movement -> int
  {
    (m: Movement) => if m.ref == VoucherRef(i) && IsRefund(m.action) then 1 else 0
  }

  function IssuesOf(i: nat): Movement -> int
  {
    (m: Movement) => if m.ref == VoucherRef(i) && IsIssue(m.action) then 1 else 0
  }

  function FaceValue(): Advance -> int
  {
    (v: Advance) => v.amount
  }

  function InStatus(status: VoucherStatus): Advance -> int
  {
    (v: Advance) => if v.status == status then v.amount else 0
  }

  function Applied(): Event -> int
  {
    (e: Event) => if e.application.Some? then e.application.value.applied else 0
  }

  /** The movements, the vouchers and the events tell the same totals. */
  ghost predicate Totalled(ms: seq<Movement>, vouchers: seq<Advance>, events: seq<Event>)
  {
    && Sum(ms, PaidIn()) == Sum(vouchers, FaceValue())
    && Sum(ms, PaidOut()) == Sum(vouchers, InStatus(REFUNDED))
    && Sum(events, Applied()) == Sum(vouchers, InStatus(CONSUMED))
  }

  ghost predicate Posted(ms: seq<Movement>, vouchers: seq<Advance>)
  {
    && (forall m :: m in ms && m.ref.VoucherRef? ==> m.ref.voucher < |vouchers|)
    && (forall i: nat :: i < |vouchers| ==> PostedAt(ms, vouchers[i], i))
  }

  /** One issue movement per voucher, linked from its row, and a refund movement exactly when it is refunded. */
  ghost predicate PostedAt(ms: seq<Movement>, v: Advance, i: nat)
  {
    && v.amount > 0
    && Linked(ms, v.issueMovement, i, v.amount) && IsIssue(ms[v.issueMovement].action)
    && Sum(ms, IssuesOf(i)) == 1
    && Sum(ms, RefundsOf(i)) == (if v.status == REFUNDED then 1 else 0)
    && (v.refundMovement.Some? ==> Linked(ms, v.refundMovement.value, i, v.amount) && IsRefund(ms[v.refundMovement.value].action))
  }

  /** On every consume, applied and remaining amounts make up the sale total. */
  ghost predicate AppliedFully(events: seq<Event>)
  {
    forall e :: e in events && e.application.Some? ==>
      e.application.value.applied + e.application.value.remaining == e.application.value.saleTotal
      && 0 <= e.application.value.remaining
  }

  ghost predicate Linked(ms: seq<Movement>, k: nat, i: nat, amount: Money)
  {
    k < |ms| && ms[k].ref == VoucherRef(i) && ms[k].amount == amount
  }

  ghost predicate VInv(s: System)
  {
    && InSequence(s.vouchers)
    && Logged(s.vouchers, s.events) && AppliedFully(s.events)
    && Totalled(s.cash.movements, s.vouchers, s.events) && Posted(s.cash.movements, s.vouchers)
  }

  ghost predicate SystemInv(s: System, clock: Time)
  {
    Inv(s.cash, clock) && VInv(s) && Barcoded(s.vouchers)
  }

  // ----- numbers are kept -----

  /** The same numbers in the same stores. */
  ghost predicate SameNumbers(a: seq<Advance>, b: seq<Advance>)
  {
    |a| == |b|
    && forall i :: 0 <= i < |a| ==> b[i].tenant == a[i].tenant && b[i].store == a[i].store && b[i].number == a[i].number
  }

  lemma {:induction false} SameNumbersInSequence(a: seq<Advance>, b: seq<Advance>)
    requires SameNumbers(a, b) && InSequence(a)
    ensures InSequence(b)
    ensures forall tenant, store :: CountIn(a, tenant, store) == CountIn(b, tenant, store)
  {
    if a != [] {
      SameNumbersInSequence(a[..|a| - 1], b[..|b| - 1]);
    }
  }

  lemma {:induction false} MaxIsCount(vouchers: seq<Advance>, tenant: Uuid, store: Uuid)
    requires InSequence(vouchers)
    ensures MaxNumber(vouchers, tenant, store) == CountIn(vouchers, tenant, store)
  {
    if vouchers != [] {
      MaxIsCount(vouchers[..|vouchers| - 1], tenant, store);
    }
  }

  // ----- reactions to appended rows -----

  lemma ReplayAppend(events: seq<Event>, e: Event, i: nat)
    ensures Replay(events + [e], i)
            == var life := Replay(events, i);
               if e.voucher != i then life else
               match e.action
               case ISSUED => if life == Unborn then Live(ACTIVE) else Broken
               case VALIDATED => if life.Live? then life else Broken
               case Ended(status) => if life == Live(ACTIVE) && status != ACTIVE then Live(status) else Broken
  {
    assert (events + [e])[..|events|] == events;
  }

  lemma {:induction false} NoEventsYet(events: seq<Event>, i: nat)
    requires forall e :: e in events ==> e.voucher != i
    ensures Replay(events, i) == Unborn
  {
    if events != [] {
      assert events[|events| - 1] in events;
      NoEventsYet(events[..|events| - 1], i);
    }
  }

  lemma {:induction false} NoPostingsYet(ms: seq<Movement>, i: nat)
    requires forall m :: m in ms ==> m.ref != VoucherRef(i)
    ensures Sum(ms, IssuesOf(i)) == 0 && Sum(ms, RefundsOf(i)) == 0
  {
    if ms != [] {
      assert ms[|ms| - 1] in ms;
      NoPostingsYet(ms[..|ms| - 1], i);
    }
  }

  // ----- one voucher ends -----

  /** Row i leaves ACTIVE for a terminal status; what identifies and values it stays. */
  ghost predicate Ends(v: Advance, row: Advance)
  {
    && v.status == ACTIVE && row.status != ACTIVE
    && row.tenant == v.tenant && row.store == v.store && row.number == v.number && row.barcode == v.barcode
    && row.amount == v.amount && row.issueMovement == v.issueMovement
    && (row.status == REFUNDED <==> row.refundedAt.Some?) && (row.status == REFUNDED <==> row.refundMovement.Some?)
    && (row.status == EXPIRED <==> row.expiredAt.Some?)
    && (row.consumedSale.Some? ==> row.status == CONSUMED)
  }

  lemma EndKeepsLog(vouchers: seq<Advance>, events: seq<Event>, i: nat, row: Advance, e: Event)
    requires i < |vouchers| && Logged(vouchers, events) && Ends(vouchers[i], row)
    requires e.voucher == i && e.action == EventAction.Ended(row.status)
    ensures Logged(vouchers[i := row], events + [e])
  {
    var after := vouchers[i := row];
    forall j: nat | j < |after| ensures LoggedAt(events + [e], after[j], j) {
      assert LoggedAt(events, vouchers[j], j);
      ReplayAppend(events, e, j);
    }
  }

  /** The movements gain a refund of voucher i if row i is refunded, and nothing otherwise. */
  ghost predicate PostsRefund(ms: seq<Movement>, i: nat, row: Advance, ms': seq<Movement>)
  {
    if row.status == REFUNDED then
      && |ms'| == |ms| + 1 && ms <= ms' && Linked(ms', |ms|, i, row.amount) && IsRefund(ms'[|ms|].action)
      && row.refundMovement == Some(|ms|)
    else
      ms' == ms
  }

  lemma RefundSums(ms: seq<Movement>, i: nat, row: Advance, ms': seq<Movement>)
    requires PostsRefund(ms, i, row, ms')
    ensures Sum(ms', PaidIn()) == Sum(ms, PaidIn())
    ensures Sum(ms', PaidOut()) == Sum(ms, PaidOut()) + if row.status == REFUNDED then row.amount else 0
  {
    if row.status == REFUNDED {
      assert ms' == ms + [ms'[|ms|]];
      SumAppend(ms, ms'[|ms|], PaidIn());
      SumAppend(ms, ms'[|ms|], PaidOut());
    }
  }

  lemma EndKeepsTotals(ms: seq<Movement>, vouchers: seq<Advance>, events: seq<Event>, i: nat, row: Advance, e: Event, ms': seq<Movement>)
    requires i < |vouchers| && Totalled(ms, vouchers, events) && Ends(vouchers[i], row) && PostsRefund(ms, i, row, ms')
    requires if row.status == CONSUMED then e.application.Some? && e.application.value.applied == row.amount else e.application.None?
    ensures Totalled(ms', vouchers[i := row], events + [e])
  {
    SumUpdate(vouchers, i, row, FaceValue());
    SumUpdate(vouchers, i, row, InStatus(REFUNDED));
    SumUpdate(vouchers, i, row, InStatus(CONSUMED));
    SumAppend(events, e, Applied());
    RefundSums(ms, i, row, ms');
  }

  lemma EndKeepsPosted(ms: seq<Movement>, vouchers: seq<Advance>, i: nat, row: Advance, ms': seq<Movement>)
    requires i < |vouchers| && Posted(ms, vouchers) && Ends(vouchers[i], row) && PostsRefund(ms, i, row, ms')
    ensures Posted(ms', vouchers[i := row])
  {
    assert row.status == REFUNDED ==> ms' == ms + [ms'[|ms|]];
    var after := vouchers[i := row];
    forall j: nat | j < |after| ensures PostedAt(ms', after[j], j) {
      assert PostedAt(ms, vouchers[j], j);
      if row.status == REFUNDED {
        SumAppend(ms, ms'[|ms|], IssuesOf(j));
        SumAppend(ms, ms'[|ms|], RefundsOf(j));
      }
    }
    forall m | m in ms' && m.ref.VoucherRef? ensures m.ref.voucher < |vouchers| {
      assert m in ms || m == ms'[|ms|];
    }
  }

  lemma EndKeeps(s: System, i: nat, row: Advance, e: Event, cash: Db)
    requires i < |s.vouchers| && VInv(s) && Ends(s.vouchers[i], row) && PostsRefund(s.cash.movements, i, row, cash.movements)
    requires e.voucher == i && e.action == EventAction.Ended(row.status)
    requires if row.status == CONSUMED then
               e.application.Some? && e.application.value.applied == row.amount <= e.application.value.saleTotal
               && e.application.value.remaining == e.application.value.saleTotal - row.amount
             else e.application.None?
    ensures VInv(System(cash, s.vouchers[i := row], s.events + [e]))
  {
    EndKeepsLog(s.vouchers, s.events, i, row, e);
    EndKeepsTotals(s.cash.movements, s.vouchers, s.events, i, row, e, cash.movements);
    EndKeepsPosted(s.cash.movements, s.vouchers, i, row, cash.movements);
    assert AppliedFully(s.events + [e]);
    SameNumbersInSequence(s.vouchers, s.vouchers[i := row]);
  }

  lemma ExpireKeeps(s: System, i: nat, now: Time)
    requires i < |s.vouchers| && VInv(s)
    ensures VInv(ExpireIfNeeded(s, i, now))
  {
    if Due(s.vouchers[i], now) {
      assert LoggedAt(s.events, s.vouchers[i], i);
      EndKeeps(s, i, ExpireRow(s.vouchers[i], now), Event(i, EventAction.Ended(EXPIRED), None, now), s.cash);
    }
  }

  lemma ExpireInScopeKeeps(s: System, i: nat, tenant: Uuid, store: Uuid, now: Time)
    requires i < |s.vouchers| && VInv(s)
    ensures VInv(ExpireInScope(s, i, tenant, store, now))
  {
    ExpireKeeps(s, i, now);
  }

  lemma {:induction false} SweepKeeps(s: System, tenant: Uuid, store: Uuid, n: nat, now: Time)
    requires n <= |s.vouchers| && VInv(s)
    ensures VInv(SweepFirst(s, tenant, store, n, now))
  {
    if n > 0 {
      SweepKeeps(s, tenant, store, n - 1, now);
      var before := SweepFirst(s, tenant, store, n - 1, now);
      ExpireInScopeKeeps(before, n - 1, tenant, store, now);
      assert SweepFirst(s, tenant, store, n, now) == ExpireInScope(before, n - 1, tenant, store, now);
    }
  }

  lemma ValidateKeeps(s: System, i: nat, now: Time)
    requires i < |s.vouchers| && VInv(s)
    ensures VInv(LogValidated(s, i, now))
  {
    var e := Event(i, EventAction.VALIDATED, None, now);
    SumAppend(s.events, e, Applied());
    forall j: nat | j < |s.vouchers| ensures LoggedAt(s.events + [e], s.vouchers[j], j) {
      assert LoggedAt(s.events, s.vouchers[j], j);
      ReplayAppend(s.events, e, j);
    }
  }

  /** A sweep writes the due expiries of its store and changes nothing else. */
  lemma {:induction false} SweepEffect(s: System, tenant: Uuid, store: Uuid, n: nat, now: Time)
    requires n <= |s.vouchers|
    ensures var swept := SweepFirst(s, tenant, store, n, now).vouchers;
            forall i :: 0 <= i < |s.vouchers| ==>
              swept[i] == if i < n && InScope(s.vouchers[i], tenant, store) && Due(s.vouchers[i], now)
                          then ExpireRow(s.vouchers[i], now) else s.vouchers[i]
  {
    if n > 0 {
      SweepEffect(s, tenant, store, n - 1, now);
    }
  }

  // ----- postings to the cash tables -----

  /** The row a sweep comes to is still as it was. */
  lemma NextSwept(s: System, tenant: Uuid, store: Uuid, i: nat, now: Time)
    requires i < |s.vouchers|
    ensures SweepFirst(s, tenant, store, i, now).vouchers[i] == s.vouchers[i]
    ensures SweepFirst(s, tenant, store, i + 1, now) == ExpireInScope(SweepFirst(s, tenant, store, i, now), i, tenant, store, now)
  {
    SweepEffect(s, tenant, store, i, now);
  }

  /** The events a sweep writes: one EXPIRED for every due row of the store, in table order. */
  function DueEvents(vouchers: seq<Advance>, tenant: Uuid, store: Uuid, n: nat, now: Time): seq<Event>
    requires n <= |vouchers|
  {
    if n == 0 then [] else
    var rest := DueEvents(vouchers, tenant, store, n - 1, now);
    if InScope(vouchers[n - 1], tenant, store) && Due(vouchers[n - 1], now)
    then rest + [Event(n - 1, EventAction.Ended(EXPIRED), None, now)] else rest
  }

  lemma {:induction false} SweepLogs(s: System, tenant: Uuid, store: Uuid, n: nat, now: Time)
    requires n <= |s.vouchers|
    ensures SweepFirst(s, tenant, store, n, now).events == s.events + DueEvents(s.vouchers, tenant, store, n, now)
  {
    if n > 0 {
      SweepLogs(s, tenant, store, n - 1, now);
      SweepEffect(s, tenant, store, n - 1, now);
    }
  }

  /** An accepted voucher posting appends one movement with its reference, amount and direction. */
  lemma PayAppends(db: Db, d: Drawer, i: nat, kind: VoucherKind, amount: Money, tender: PayMethod, refund: bool, now: Time)
    requires PayStep(db, d, i, kind, amount, tender, refund, now).Ok?
    ensures var ms, ms' := db.movements, PayStep(db, d, i, kind, amount, tender, refund, now).value.movements;
            |ms'| == |ms| + 1 && ms <= ms' && Linked(ms', |ms|, i, amount)
            && (if refund then IsRefund(ms'[|ms|].action) else IsIssue(ms'[|ms|].action))
  {
  }

  /** A request of the cash routers appends at most one movement, and none that names a voucher. */
  lemma CashAppends(db: Db, r: CashModel.Request, now: Time)
    requires OfCashRouters(r)
    ensures AppendsOther(db.movements, Kept(db, Step(db, r, now)).movements)
  {
    if r.CreateCut? || r.ActOnCut? {
      CutAppends(db, r, now);
    }
  }

  lemma CutAppends(db: Db, r: CashModel.Request, now: Time)
    requires r.CreateCut? || r.ActOnCut?
    ensures AppendsOther(db.movements, Kept(db, Step(db, r, now)).movements)
  {
  }

  ghost predicate AppendsOther(ms: seq<Movement>, ms': seq<Movement>)
  {
    ms' == ms || (|ms'| == |ms| + 1 && ms <= ms' && !ms'[|ms|].ref.VoucherRef?)
  }

  lemma OtherMovementSums(ms: seq<Movement>, ms': seq<Movement>, j: nat)
    requires AppendsOther(ms, ms')
    ensures Sum(ms', PaidIn()) == Sum(ms, PaidIn()) && Sum(ms', PaidOut()) == Sum(ms, PaidOut())
    ensures Sum(ms', IssuesOf(j)) == Sum(ms, IssuesOf(j)) && Sum(ms', RefundsOf(j)) == Sum(ms, RefundsOf(j))
  {
    if ms' != ms {
      assert ms' == ms + [ms'[|ms|]];
      SumAppend(ms, ms'[|ms|], PaidIn());
      SumAppend(ms, ms'[|ms|], PaidOut());
      SumAppend(ms, ms'[|ms|], IssuesOf(j));
      SumAppend(ms, ms'[|ms|], RefundsOf(j));
    }
  }

  /** Cash movements that name no voucher leave the vouchers covered. */
  lemma OtherMovementKeeps(ms: seq<Movement>, ms': seq<Movement>, vouchers: seq<Advance>, events: seq<Event>)
    requires AppendsOther(ms, ms') && Totalled(ms, vouchers, events) && Posted(ms, vouchers)
    ensures Totalled(ms', vouchers, events) && Posted(ms', vouchers)
  {
    OtherMovementSums(ms, ms', 0);
    forall j: nat | j < |vouchers| ensures PostedAt(ms', vouchers[j], j) {
      assert PostedAt(ms, vouchers[j], j);
      OtherMovementSums(ms, ms', j);
    }
  }

  // ----- issue -----

  lemma IssueKeepsLog(vouchers: seq<Advance>, events: seq<Event>, v: Advance, e: Event)
    requires Logged(vouchers, events) && v.status == ACTIVE && v.consumedSale.None?
    requires v.refundedAt.None? && v.refundMovement.None? && v.expiredAt.None?
    requires e.voucher == |vouchers| && e.action == EventAction.ISSUED
    ensures Logged(vouchers + [v], events + [e])
  {
    NoEventsYet(events, |vouchers|);
    var after := vouchers + [v];
    forall j: nat | j < |after| ensures LoggedAt(events + [e], after[j], j) {
      assert j < |vouchers| ==> LoggedAt(events, vouchers[j], j);
      ReplayAppend(events, e, j);
    }
  }

  /** The movements gain the posting of a new row. */
  ghost predicate PostsIssue(ms: seq<Movement>, i: nat, v: Advance, ms': seq<Movement>)
  {
    |ms'| == |ms| + 1 && ms <= ms' && Linked(ms', |ms|, i, v.amount) && IsIssue(ms'[|ms|].action) && v.issueMovement == |ms|
  }

  lemma IssueKeepsTotals(ms: seq<Movement>, vouchers: seq<Advance>, events: seq<Event>, v: Advance, e: Event, ms': seq<Movement>)
    requires Totalled(ms, vouchers, events) && v.status == ACTIVE && e.application.None? && PostsIssue(ms, |vouchers|, v, ms')
    ensures Totalled(ms', vouchers + [v], events + [e])
  {
    assert ms' == ms + [ms'[|ms|]];
    SumAppend(ms, ms'[|ms|], PaidIn());
    SumAppend(ms, ms'[|ms|], PaidOut());
    SumAppend(events, e, Applied());
    SumAppend(vouchers, v, FaceValue());
    SumAppend(vouchers, v, InStatus(REFUNDED));
    SumAppend(vouchers, v, InStatus(CONSUMED));
  }

  lemma IssueKeepsPosted(ms: seq<Movement>, vouchers: seq<Advance>, v: Advance, ms': seq<Movement>)
    requires Posted(ms, vouchers) && v.status == ACTIVE && v.amount > 0 && v.refundMovement.None? && PostsIssue(ms, |vouchers|, v, ms')
    ensures Posted(ms', vouchers + [v])
  {
    assert ms' == ms + [ms'[|ms|]];
    NoPostingsYet(ms, |vouchers|);
    var after := vouchers + [v];
    forall j: nat | j < |after| ensures PostedAt(ms', after[j], j) {
      assert j < |vouchers| ==> PostedAt(ms, vouchers[j], j);
      SumAppend(ms, ms'[|ms|], IssuesOf(j));
      SumAppend(ms, ms'[|ms|], RefundsOf(j));
    }
  }

  /** A row with the next number, its ISSUED event and its posting. */
  lemma AddKeeps(s: System, v: Advance, e: Event, cash: Db)
    requires VInv(s) && v.status == ACTIVE && v.amount > 0
    requires v.consumedSale.None? && v.refundedAt.None? && v.refundMovement.None? && v.expiredAt.None?
    requires v.number == MaxNumber(s.vouchers, v.tenant, v.store) + 1
    requires e.voucher == |s.vouchers| && e.action == EventAction.ISSUED && e.application.None?
    requires PostsIssue(s.cash.movements, |s.vouchers|, v, cash.movements)
    ensures VInv(System(cash, s.vouchers + [v], s.events + [e]))
  {
    MaxIsCount(s.vouchers, v.tenant, v.store);
    assert (s.vouchers + [v])[..|s.vouchers|] == s.vouchers;
    IssueKeepsLog(s.vouchers, s.events, v, e);
    IssueKeepsTotals(s.cash.movements, s.vouchers, s.events, v, e, cash.movements);
    IssueKeepsPosted(s.cash.movements, s.vouchers, v, cash.movements);
    assert AppliedFully(s.events + [e]);
  }

  lemma IssueKeeps(s: System, d: Drawer, amount: Money, tender: PayMethod, kind: VoucherKind, now: Time)
    requires VInv(s) && IssueStep(s, d, amount, tender, kind, now).Ok?
    ensures VInv(IssueStep(s, d, amount, tender, kind, now).value)
  {
    PayAppends(s.cash, d, |s.vouchers|, kind, amount, tender, false, now);
    AddKeeps(s, NewRow(d, NextNumber(s, d), amount, tender, kind, |s.cash.movements|, now),
             Event(|s.vouchers|, EventAction.ISSUED, None, now), PayStep(s.cash, d, |s.vouchers|, kind, amount, tender, false, now).value);
  }

  lemma MutateKeeps(s: System, i: nat, cashier: Uuid, action: VoucherAction, checkedAt: Time, now: Time)
    requires VInv(s) && MutateStep(s, i, cashier, action, checkedAt, now).Ok?
    ensures VInv(MutateStep(s, i, cashier, action, checkedAt, now).value)
  {
    var s' := MutateStep(s, i, cashier, action, checkedAt, now).value;
    assert LoggedAt(s.events, s.vouchers[i], i);
    if action.Refund? {
      var v := s.vouchers[i];
      PayAppends(s.cash, Drawer(v.tenant, v.store, cashier), i, v.kind, v.amount, action.tender.value, true, now);
    }
    EndKeeps(s, i, s'.vouchers[i], s'.events[|s.events|], s'.cash);
  }

  // ----- all requests, all runs -----

  /** No clock reading of a request runs back. */
  ghost predicate InTime(r: VoucherModel.Request, clock: Time, now: Time)
  {
    clock <= now
    && match r
       case Cash(request) => OnTime(request, clock, now)
       case Mutate(_, _, _, checkedAt) => clock <= checkedAt <= now
       case Lookup(_, checkedAt) => clock <= checkedAt <= now
       case _ => true
  }

  lemma CashKeepsV(s: System, request: CashModel.Request, now: Time)
    requires VInv(s)
    ensures VInv(After(s, Cash(request), now))
  {
    if OfCashRouters(request) {
      CashAppends(s.cash, request, now);
      OtherMovementKeeps(s.cash.movements, Kept(s.cash, Step(s.cash, request, now)).movements, s.vouchers, s.events);
    }
  }

  /** A voucher is looked up: a due expiry is written, then the VALIDATED event. */
  lemma ShowKeeps(s: System, i: nat, checkedAt: Time, now: Time)
    requires i < |s.vouchers| && VInv(s)
    ensures VInv(LogValidated(ExpireIfNeeded(s, i, checkedAt), i, now))
  {
    ExpireKeeps(s, i, checkedAt);
    ValidateKeeps(ExpireIfNeeded(s, i, checkedAt), i, now);
  }

  lemma AfterIssueKeeps(s: System, d: Drawer, amount: Money, tender: PayMethod, kind: VoucherKind, now: Time)
    requires VInv(s)
    ensures VInv(After(s, Issue(d, amount, tender, kind), now))
  {
    if IssueStep(s, d, amount, tender, kind, now).Ok? {
      IssueKeeps(s, d, amount, tender, kind, now);
    }
  }

  lemma AfterMutateKeeps(s: System, i: nat, cashier: Uuid, action: VoucherAction, checkedAt: Time, now: Time)
    requires VInv(s)
    ensures VInv(After(s, Mutate(i, cashier, action, checkedAt), now))
  {
    if MutateStep(s, i, cashier, action, checkedAt, now).Ok? {
      MutateKeeps(s, i, cashier, action, checkedAt, now);
    }
  }

  lemma AfterLookup(s: System, code: string, checkedAt: Time, now: Time)
    ensures var found := FirstMatch(s.vouchers, code, 0);
            After(s, Lookup(code, checkedAt), now)
            == if found.None? then s else LogValidated(ExpireIfNeeded(s, found.value, checkedAt), found.value, now)
  {
  }

  lemma AfterLookupKeeps(s: System, code: string, checkedAt: Time, now: Time)
    requires VInv(s)
    ensures VInv(After(s, Lookup(code, checkedAt), now))
  {
    AfterLookup(s, code, checkedAt, now);
    var found := FirstMatch(s.vouchers, code, 0);
    if found.Some? {
      ShowKeeps(s, found.value, checkedAt, now);
    }
  }

  lemma AfterGet(s: System, i: nat, now: Time)
    ensures After(s, Get(i), now) == if i < |s.vouchers| then ExpireIfNeeded(s, i, now) else s
  {
  }

  lemma AfterGetKeeps(s: System, i: nat, now: Time)
    requires VInv(s)
    ensures VInv(After(s, Get(i), now))
  {
    AfterGet(s, i, now);
    if i < |s.vouchers| {
      ExpireKeeps(s, i, now);
    }
  }

  lemma AfterSweepKeeps(s: System, tenant: Uuid, store: Uuid, now: Time)
    requires VInv(s)
    ensures VInv(SweepAll(s, tenant, store, now))
  {
    SweepKeeps(s, tenant, store, |s.vouchers|, now);
  }

  lemma AfterKeepsV(s: System, r: VoucherModel.Request, now: Time)
    requires VInv(s)
    ensures VInv(After(s, r, now))
  {
    match r
    case Cash(request) => CashKeepsV(s, request, now);
    case Issue(d, amount, tender, kind) => AfterIssueKeeps(s, d, amount, tender, kind, now);
    case Mutate(i, cashier, action, checkedAt) => AfterMutateKeeps(s, i, cashier, action, checkedAt, now);
    case Lookup(code, checkedAt) => AfterLookupKeeps(s, code, checkedAt, now);
    case Get(i) => AfterGetKeeps(s, i, now);
    case Sweep(tenant, store) => AfterSweepKeeps(s, tenant, store, now);
    case Browse(tenant, store, _) => AfterSweepKeeps(s, tenant, store, now);
  }

  lemma IssueIsCashStep(s: System, d: Drawer, amount: Money, tender: PayMethod, kind: VoucherKind, now: Time)
    ensures var after := After(s, Issue(d, amount, tender, kind), now);
            after.cash == s.cash
            || after.cash == CashTheorems.After(s.cash, Posting(d, |s.vouchers|, kind, amount, tender, false, now), now)
  {
    PayIsPosting(s.cash, d, |s.vouchers|, kind, amount, tender, false, now);
  }

  lemma MutateIsCashStep(s: System, i: nat, cashier: Uuid, action: VoucherAction, checkedAt: Time, now: Time)
    ensures var after := After(s, Mutate(i, cashier, action, checkedAt), now);
            after.cash == s.cash
            || (i < |s.vouchers| && action.Refund? && action.tender.Some?
                && var v := s.vouchers[i];
                   after.cash == CashTheorems.After(s.cash, Posting(Drawer(v.tenant, v.store, cashier), i, v.kind, v.amount, action.tender.value, true, now), now))
  {
    if i < |s.vouchers| && action.Refund? && action.tender.Some? {
      var v := s.vouchers[i];
      PayIsPosting(s.cash, Drawer(v.tenant, v.store, cashier), i, v.kind, v.amount, action.tender.value, true, now);
    }
  }

  /** The cash tables move only by requests of the cash model, so what holds of its runs holds here. */
  lemma AfterIsCashStep(s: System, r: VoucherModel.Request, now: Time)
    ensures After(s, r, now).cash == s.cash
            || exists request :: After(s, r, now).cash == CashTheorems.After(s.cash, request, now)
  {
    match r
    case Issue(d, amount, tender, kind) => IssueIsCashStep(s, d, amount, tender, kind, now);
    case Mutate(i, cashier, action, checkedAt) => MutateIsCashStep(s, i, cashier, action, checkedAt, now);
    case Cash(request) =>
      if OfCashRouters(request) {
        assert After(s, r, now).cash == CashTheorems.After(s.cash, request, now);
      }
    case _ =>
  }

  /** What never changes about a voucher, and what no longer changes once it has ended. */
  ghost predicate Settles(v: Advance, w: Advance)
  {
    && w.tenant == v.tenant && w.store == v.store && w.number == v.number && w.barcode == v.barcode
    && w.amount == v.amount && w.expiresAt == v.expiresAt && w.issueMovement == v.issueMovement && w.kind == v.kind
    && (v.status != ACTIVE ==> w == v)
  }

  lemma StepSettles(s: System, r: VoucherModel.Request, now: Time, i: nat)
    requires i < |s.vouchers|
    ensures i < |After(s, r, now).vouchers| && Settles(s.vouchers[i], After(s, r, now).vouchers[i])
    ensures !r.Issue? ==> |After(s, r, now).vouchers| == |s.vouchers|
  {
    if r.Sweep? || r.Browse? {
      SweepEffect(s, r.tenant, r.store, |s.vouchers|, now);
    }
  }

  lemma IssueAdds(s: System, d: Drawer, amount: Money, tender: PayMethod, kind: VoucherKind, now: Time)
    ensures var after := After(s, Issue(d, amount, tender, kind), now).vouchers;
            after == s.vouchers
            || after == s.vouchers + [NewRow(d, NextNumber(s, d), amount, tender, kind, |s.cash.movements|, now)]
  {
  }

  lemma AfterKeepsBarcodes(s: System, r: VoucherModel.Request, now: Time)
    requires Barcoded(s.vouchers)
    ensures Barcoded(After(s, r, now).vouchers)
  {
    if r.Issue? {
      IssueAdds(s, r.drawer, r.amount, r.tender, r.kind, now);
    } else {
      SettledBarcodes(s, r, now);
    }
  }

  lemma SettledBarcodes(s: System, r: VoucherModel.Request, now: Time)
    requires Barcoded(s.vouchers) && !r.Issue?
    ensures Barcoded(After(s, r, now).vouchers)
  {
    var after := After(s, r, now).vouchers;
    forall w | w in after ensures w.number >= 1 && w.barcode == Barcode(w.store, w.number) {
      var k :| 0 <= k < |after| && after[k] == w;
      StepSettles(s, r, now, if k < |s.vouchers| then k else 0);
      assert s.vouchers[k] in s.vouchers;
    }
  }

  lemma AfterKeeps(s: System, r: VoucherModel.Request, clock: Time, now: Time)
    requires SystemInv(s, clock) && clock <= now
    ensures SystemInv(After(s, r, now), now)
    ensures s.cash.closes <= After(s, r, now).cash.closes
  {
    AfterKeepsV(s, r, now);
    AfterKeepsBarcodes(s, r, now);
    AfterIsCashStep(s, r, now);
    var cash := After(s, r, now).cash;
    if cash == s.cash {
      CashTheorems.LaterKeeps(s.cash, clock, now);
    } else {
      var request :| cash == CashTheorems.After(s.cash, request, now);
      CashTheorems.StepKeepsCloseRecords(s.cash, request, now);
      if Step(s.cash, request, now).Ok? {
        StepKeeps(s.cash, request, clock, now);
      }
    }
  }
}
