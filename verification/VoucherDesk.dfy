/** The voucher router as it runs: rows are objects, a refused request is rolled back. */
module VoucherDesk {
  import opened Common
  import opened CashModel
  import CashDesk
  import opened VoucherModel
  import VoucherInvariants

  class VoucherRow {
    const id: nat
    const tenant: Uuid
    const store: Uuid
    const number: int
    const barcode: string
    const kind: VoucherKind
    const amount: Money
    const paidBy: PayMethod
    const issuedAt: Time
    const expiresAt: Time
    var issueMovement: nat
    var status: VoucherStatus
    var consumedSale: Option<Uuid>
    var refundMovement: Option<nat>
    var refundedAt: Option<Time>
    var expiredAt: Option<Time>
    var updatedAt: Time

    function Row(): Advance
      reads this
    {
      Advance(tenant, store, number, barcode, kind, amount, paidBy, issueMovement, issuedAt, expiresAt,
              status, consumedSale, refundMovement, refundedAt, expiredAt, updatedAt)
    }

    constructor (id: nat, v: Advance)
      ensures this.id == id && Row() == v
    {
      this.id := id;
      tenant, store, number, barcode, kind := v.tenant, v.store, v.number, v.barcode, v.kind;
      amount, paidBy, issuedAt, expiresAt, issueMovement := v.amount, v.paidBy, v.issuedAt, v.expiresAt, v.issueMovement;
      status, consumedSale, refundMovement := v.status, v.consumedSale, v.refundMovement;
      refundedAt, expiredAt, updatedAt := v.refundedAt, v.expiredAt, v.updatedAt;
    }

    method MarkExpired(now: Time)
      modifies this
      ensures Row() == ExpireRow(old(Row()), now)
    {
      status := EXPIRED;
      expiredAt := Some(now);
      updatedAt := now;
    }
  }

  function Rows(rows: seq<VoucherRow>): (values: seq<Advance>)
    reads rows
    ensures |values| == |rows| && forall i :: 0 <= i < |rows| ==> values[i] == rows[i].Row()
  {
    seq(|rows|, i requires 0 <= i < |rows| reads rows => rows[i].Row())
  }

  class Desk {
    const cash: CashDesk.Desk
    var rows: seq<VoucherRow>
    var events: seq<Event>

    ghost predicate Valid()
      reads this, cash
    {
      cash.Valid() && forall i :: 0 <= i < |rows| ==> rows[i].id == i
    }

    function State(): System
      reads this, rows, cash, cash.sessions, cash.cuts
    {
      System(cash.Tables(), Rows(rows), events)
    }

    constructor (cash: CashDesk.Desk)
      requires cash.Valid()
      ensures Valid() && this.cash == cash && State() == System(cash.Tables(), [], [])
    {
      this.cash := cash;
      rows, events := [], [];
    }

    /** `expire_advance_if_needed`. */
    method Expire(i: nat, now: Time) returns (expired: bool)
      requires Valid() && i < |rows|
      modifies this`events, rows[i]
      ensures State() == ExpireIfNeeded(old(State()), i, now)
      ensures expired == Due(old(rows[i].Row()), now)
    {
      ghost var before := Rows(rows);
      var row := rows[i];
      if row.status == ACTIVE && row.expiresAt <= now {
        row.MarkExpired(now);
        events := events + [Event(i, EventAction.Ended(EXPIRED), None, now)];
        assert Rows(rows) == before[i := row.Row()];
        return true;
      }
      return false;
    }

    method ExpireOwn(i: nat, tenant: Uuid, store: Uuid, now: Time) returns (expired: bool)
      requires Valid() && i < |rows|
      modifies this`events, rows[i]
      ensures State() == ExpireInScope(old(State()), i, tenant, store, now)
      ensures expired == (InScope(old(rows[i].Row()), tenant, store) && Due(old(rows[i].Row()), now))
    {
      expired := false;
      if rows[i].tenant == tenant && rows[i].store == store {
        expired := Expire(i, now);
      }
    }

    /** `sweep_expired_advances`: the due rows of the store, one by one, and which they were. */
    method SweepExpired(tenant: Uuid, store: Uuid, now: Time) returns (swept: seq<nat>)
      requires Valid()
      modifies this`events, rows
      ensures State() == SweepAll(old(State()), tenant, store, now)
      ensures var before := old(State()).vouchers;
              forall i :: i in swept <==> 0 <= i < |before| && InScope(before[i], tenant, store) && Due(before[i], now)
    {
      ghost var before := State();
      swept := [];
      for i := 0 to |rows|
        invariant State() == SweepFirst(before, tenant, store, i, now)
        invariant forall j :: j in swept <==> 0 <= j < i && InScope(before.vouchers[j], tenant, store) && Due(before.vouchers[j], now)
      {
        VoucherInvariants.NextSwept(before, tenant, store, i, now);
        assert rows[i].Row() == before.vouchers[i];
        var expired := ExpireOwn(i, tenant, store, now);
        if expired {
          swept := swept + [i];
        }
      }
    }

    /** The cash or non-cash movement of an issue or a refund. */
    method Pay(d: Drawer, i: nat, kind: VoucherKind, amount: Money, tender: PayMethod, refund: bool, now: Time)
      returns (error: Option<Error>)
      requires Valid()
      modifies cash`movements, cash.sessions
      ensures cash.Tables() == Kept(old(cash.Tables()), PayStep(old(cash.Tables()), d, i, kind, amount, tender, refund, now))
      ensures error == Refusal(PayStep(old(cash.Tables()), d, i, kind, amount, tender, refund, now))
    {
      if tender.ByCash? {
        error := cash.VoucherCash(d, refund, amount, VoucherRef(i), now);
      } else {
        cash.VoucherNonCash(d, now / DAY, VoucherRef(i), kind, refund, amount, now);
        error := None;
      }
    }

    /** `create_advance`. */
    method Create(d: Drawer, amount: Money, tender: PayMethod, kind: VoucherKind, now: Time) returns (error: Option<Error>)
      requires Valid()
      modifies this, cash`movements, cash.sessions
      ensures Valid() && forall r :: r in rows ==> r in old(rows) || fresh(r)
      ensures State() == ApplyResult(old(State()), IssueStep(old(State()), d, amount, tender, kind, now))
      ensures error == Failure(IssueStep(old(State()), d, amount, tender, kind, now))
    {
      error := CheckIssue(d, amount);
      if error.None? {
        error := Book(d, NextNumber(State(), d), amount, tender, kind, now);
      }
    }

    method CheckIssue(d: Drawer, amount: Money) returns (error: Option<Error>)
      ensures error == IssueRefusal(State(), d, amount)
    {
      if amount <= 0 {
        return Some(ValidationError);
      }
      var number := NextNumber(State(), d);
      if BarcodeTaken(Rows(rows), d.tenant, Barcode(d.store, number)) {
        return Some(IntegrityError);
      }
      return None;
    }

    /** The row and its event are written first and rolled back when the payment is refused. */
    method Book(d: Drawer, number: nat, amount: Money, tender: PayMethod, kind: VoucherKind, now: Time) returns (error: Option<Error>)
      requires Valid()
      modifies this, cash`movements, cash.sessions
      ensures Valid() && forall r :: r in rows ==> r in old(rows) || fresh(r)
      ensures State() == ApplyResult(old(State()), BookIssue(old(State()), d, number, amount, tender, kind, now))
      ensures error == Failure(BookIssue(old(State()), d, number, amount, tender, kind, now))
    {
      ghost var before := State();
      var savedRows, savedEvents := rows, events;
      error := WriteAndPay(NewRow(d, number, amount, tender, kind, |cash.movements|, now), d, amount, tender, kind, now);
      if error.Some? {
        rows, events := savedRows, savedEvents;
        assert Rows(rows) == before.vouchers;
      }
    }

    method WriteAndPay(v: Advance, d: Drawer, amount: Money, tender: PayMethod, kind: VoucherKind, now: Time)
      returns (error: Option<Error>)
      requires Valid()
      modifies this, cash`movements, cash.sessions
      ensures Valid() && (forall r :: r in rows ==> r in old(rows) || fresh(r)) && forall r :: r in old(rows) ==> r.Row() == old(r.Row())
      ensures Rows(rows) == old(Rows(rows)) + [v] && events == old(events) + [Event(|old(rows)|, EventAction.ISSUED, None, now)]
      ensures cash.Tables() == Kept(old(cash.Tables()), PayStep(old(cash.Tables()), d, |old(rows)|, kind, amount, tender, false, now))
      ensures error == Refusal(PayStep(old(cash.Tables()), d, |old(rows)|, kind, amount, tender, false, now))
    {
      var row := AddRow(v, now);
      ghost var added := Rows(rows);
      error := Pay(d, |rows| - 1, kind, amount, tender, false, now);
      assert Rows(rows) == added;
    }

    method AddRow(v: Advance, now: Time) returns (row: VoucherRow)
      requires Valid()
      modifies this
      ensures Valid() && fresh(row) && rows == old(rows) + [row]
      ensures State() == old(State()).(vouchers := old(State()).vouchers + [v],
                                       events := old(State()).events + [Event(|old(rows)|, EventAction.ISSUED, None, now)])
    {
      ghost var before := Rows(rows);
      row := new VoucherRow(|rows|, v);
      events := events + [Event(|rows|, EventAction.ISSUED, None, now)];
      rows := rows + [row];
      assert Rows(rows) == before + [v];
    }

    /** The row ends with a status, its event and the columns that go with it. */
    method Finish(i: nat, v: Advance, application: Option<Application>, now: Time)
      requires Valid() && i < |rows|
      requires var w := rows[i].Row();
               v == w.(status := v.status, consumedSale := v.consumedSale, refundMovement := v.refundMovement,
                       refundedAt := v.refundedAt, expiredAt := v.expiredAt, updatedAt := v.updatedAt)
      modifies this`events, rows[i]
      ensures Rows(rows) == old(Rows(rows))[i := v]
      ensures events == old(events) + [Event(i, EventAction.Ended(v.status), application, now)]
    {
      ghost var before := Rows(rows);
      var row := rows[i];
      row.status := v.status;
      row.consumedSale := v.consumedSale;
      row.refundMovement := v.refundMovement;
      row.refundedAt := v.refundedAt;
      row.expiredAt := v.expiredAt;
      row.updatedAt := v.updatedAt;
      events := events + [Event(i, EventAction.Ended(v.status), application, now)];
      assert Rows(rows) == before[i := v];
    }

    method Refund(i: nat, cashier: Uuid, tender: Option<PayMethod>, now: Time) returns (error: Option<Error>)
      requires Valid() && i < |rows|
      modifies this`events, rows, cash`movements, cash.sessions
      ensures State() == ApplyResult(old(State()), RefundStep(old(State()), i, cashier, tender, now))
      ensures error == Failure(RefundStep(old(State()), i, cashier, tender, now))
    {
      if tender.None? {
        return Some(ValidationError);
      }
      ghost var before := Rows(rows);
      var v := rows[i].Row();
      var movement := |cash.movements|;
      error := Pay(Drawer(v.tenant, v.store, cashier), i, v.kind, v.amount, tender.value, true, now);
      assert Rows(rows) == before;
      if error.None? {
        Finish(i, v.(status := REFUNDED, refundMovement := Some(movement), refundedAt := Some(now), updatedAt := now), None, now);
      }
    }

    method Consume(i: nat, saleTotal: Option<Money>, sale: Option<Uuid>, saleKnown: bool, now: Time) returns (error: Option<Error>)
      requires Valid() && i < |rows|
      modifies this`events, rows
      ensures State() == ApplyResult(old(State()), ConsumeStep(old(State()), i, saleTotal, sale, saleKnown, now))
      ensures error == Failure(ConsumeStep(old(State()), i, saleTotal, sale, saleKnown, now))
    {
      var v := rows[i].Row();
      if saleTotal.None? || saleTotal.value < v.amount {
        return Some(ValidationError);
      }
      if sale.Some? && !saleKnown {
        return Some(Error.NotFound);
      }
      var remaining := saleTotal.value - v.amount;
      Finish(i, v.(status := CONSUMED, consumedSale := sale, updatedAt := now),
             Some(Application(saleTotal.value, v.amount, remaining)), now);
      return None;
    }

    /** `mutate_advance`. The lazy expiry of a refused action is rolled back with it. */
    method Mutate(i: nat, cashier: Uuid, action: VoucherAction, checkedAt: Time, now: Time) returns (error: Option<Error>)
      requires Valid()
      modifies this`events, rows, cash`movements, cash.sessions
      ensures State() == ApplyResult(old(State()), MutateStep(old(State()), i, cashier, action, checkedAt, now))
      ensures error == Failure(MutateStep(old(State()), i, cashier, action, checkedAt, now))
    {
      if i >= |rows| {
        return Some(Error.NotFound);
      }
      var terminal := CheckActive(i, checkedAt);
      if terminal {
        return Some(BusinessConflict);
      }
      match action {
        case Refund(tender) => error := Refund(i, cashier, tender, now);
        case Consume(saleTotal, sale, saleKnown) => error := Consume(i, saleTotal, sale, saleKnown, now);
        case ExpireNow =>
          Finish(i, ExpireRow(rows[i].Row(), now), None, now);
          error := None;
      }
    }

    /** Writes a due expiry, finds the voucher terminal, and rolls the expiry back. */
    method CheckActive(i: nat, checkedAt: Time) returns (terminal: bool)
      requires Valid() && i < |rows|
      modifies this`events, rows[i]
      ensures State() == old(State())
      ensures terminal == (View(old(rows[i].Row()), checkedAt) != ACTIVE)
    {
      ghost var before := Rows(rows);
      var saved, savedEvents := rows[i].Row(), events;
      var expired := Expire(i, checkedAt);
      terminal := rows[i].status != ACTIVE;
      if expired {
        assert Rows(rows)[i] == ExpireRow(saved, checkedAt);
        Restore(i, saved, savedEvents);
        assert before[i := ExpireRow(saved, checkedAt)][i := saved] == before;
      }
    }

    /** What an expiry changed is set back. */
    method Restore(i: nat, saved: Advance, savedEvents: seq<Event>)
      requires Valid() && i < |rows|
      requires rows[i].Row().(status := saved.status, expiredAt := saved.expiredAt, updatedAt := saved.updatedAt) == saved
      modifies this`events, rows[i]
      ensures Rows(rows) == old(Rows(rows))[i := saved] && events == savedEvents
    {
      ghost var before := Rows(rows);
      rows[i].status := saved.status;
      rows[i].expiredAt := saved.expiredAt;
      rows[i].updatedAt := saved.updatedAt;
      events := savedEvents;
      assert Rows(rows) == before[i := saved];
    }

    /** `lookup_advance`. */
    method Lookup(code: string, checkedAt: Time, now: Time) returns (found: Option<nat>)
      requires Valid()
      modifies this`events, rows
      ensures State() == After(old(State()), VoucherModel.Lookup(code, checkedAt), now)
      ensures found == FirstMatch(old(State()).vouchers, code, 0)
    {
      found := FirstMatch(Rows(rows), code, 0);
      if found.Some? {
        var expired := Expire(found.value, checkedAt);
        events := events + [Event(found.value, EventAction.VALIDATED, None, now)];
      }
    }

    /** `list_advances` and `alerts_advances`: sweep, then read the rows that pass the filter. */
    method Browse(tenant: Uuid, store: Uuid, filter: Filter, now: Time) returns (lines: seq<Line>)
      requires Valid()
      modifies this`events, rows
      ensures State() == After(old(State()), VoucherModel.Browse(tenant, store, filter), now)
      ensures Listed(lines) == Answer(old(State()), VoucherModel.Browse(tenant, store, filter), now)
    {
      var swept := SweepExpired(tenant, store, now);
      lines := Select(tenant, store, filter, now);
    }

    method Select(tenant: Uuid, store: Uuid, filter: Filter, now: Time) returns (lines: seq<Line>)
      ensures lines == Listing(Rows(rows), tenant, store, filter, now, |rows|)
    {
      lines := [];
      for i := 0 to |rows|
        invariant lines == Listing(Rows(rows), tenant, store, filter, now, i)
      {
        var row := rows[i];
        if row.tenant == tenant && row.store == store && Passes(filter, row.status, row.expiresAt, now) {
          lines := lines + [Line(i, row.status)];
        }
      }
    }

    /** `get_advance`. */
    method Get(i: nat, now: Time) returns (status: Option<VoucherStatus>)
      requires Valid()
      modifies this`events, rows
      ensures State() == After(old(State()), VoucherModel.Get(i), now)
      ensures status == if i < |old(rows)| then Some(View(old(State()).vouchers[i], now)) else None
    {
      if i >= |rows| {
        return None;
      }
      var expired := Expire(i, now);
      return Some(rows[i].status);
    }
  }
}
