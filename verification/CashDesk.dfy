/**
  The cash router as it runs: rows are objects whose fields the handlers assign, tables are
  fields, and each handler is proved to leave the tables as CashModel says.
 */
module CashDesk {
  import opened Common
  import opened CashModel
  import CashRollup
  import CashSales

  class CashSession {
    const id: nat
    var drawer: Drawer
    var status: Status
    var date: int
    var timezone: string
    var opening: Money
    var expected: Money
    var counted: Option<Money>
    var difference: Option<Money>
    var openedAt: Time
    var closedAt: Option<Time>

    function Row(): Session
      reads this
    {
      Session(drawer, status, date, timezone, opening, expected, counted, difference, openedAt, closedAt)
    }

    constructor (id: nat, d: Drawer, date: int, timezone: string, opening: Money, now: Time)
      ensures this.id == id && Row() == Session(d, Open, date, timezone, opening, opening, None, None, now, None)
    {
      this.id, this.drawer, this.date, this.timezone := id, d, date, timezone;
      this.opening, this.expected := opening, opening;
      status, counted, difference, openedAt, closedAt := Open, None, None, now, None;
    }
  }

  class CashCut {
    const id: nat
    const tenant: Uuid
    const store: Uuid
    const session: nat
    const number: int
    const fromAt: Time
    const toAt: Time
    const figures: Figures
    const createdAt: Time
    var counted: Option<Money>
    var difference: Option<Money>
    var deposit: Option<Money>
    var depositMovement: Option<nat>
    var status: CutStatus
    var completedAt: Option<Time>

    function Row(): Cut
      reads this
    {
      Cut(tenant, store, session, number, fromAt, toAt, figures, counted, difference, deposit, depositMovement,
          status, createdAt, completedAt)
    }

    constructor (id: nat, c: Cut)
      ensures this.id == id && Row() == c
    {
      this.id := id;
      tenant, store, session, number := c.tenant, c.store, c.session, c.number;
      fromAt, toAt, figures, createdAt := c.fromAt, c.toAt, c.figures, c.createdAt;
      counted, difference, deposit, depositMovement := c.counted, c.difference, c.deposit, c.depositMovement;
      status, completedAt := c.status, c.completedAt;
    }
  }

  function SessionRows(sessions: seq<CashSession>): (rows: seq<Session>)
    reads sessions
    ensures |rows| == |sessions| && forall i :: 0 <= i < |rows| ==> rows[i] == sessions[i].Row()
  {
    seq(|sessions|, i requires 0 <= i < |sessions| reads sessions => sessions[i].Row())
  }

  function CutRows(cuts: seq<CashCut>): (rows: seq<Cut>)
    reads cuts
    ensures |rows| == |cuts| && forall i :: 0 <= i < |rows| ==> rows[i] == cuts[i].Row()
  {
    seq(|cuts|, i requires 0 <= i < |cuts| reads cuts => cuts[i].Row())
  }

  class Desk {
    var sessions: seq<CashSession>
    var movements: seq<Movement>
    var cuts: seq<CashCut>
    var closes: seq<DayClose>

    ghost predicate Valid()
      reads this
    {
      && (forall i :: 0 <= i < |sessions| ==> sessions[i].id == i)
      && (forall k :: 0 <= k < |cuts| ==> cuts[k].id == k)
    }

    /** The tables as values. */
    function Tables(): Db
      reads this, sessions, cuts
    {
      Db(SessionRows(sessions), movements, CutRows(cuts), closes)
    }

    constructor ()
      ensures Valid() && Tables() == Db([], [], [], [])
    {
      sessions, movements, cuts, closes := [], [], [], [];
    }

    /** Assigns a session's new balance and adds the movement that explains it. */
    method Write(i: nat, d: Drawer, ref: Ref, action: Action, amount: Money, expectedAfter: Money, now: Time)
      requires Valid() && i < |sessions| && expectedAfter == sessions[i].expected + Signed(action, amount)
      modifies this`movements, sessions[i]
      ensures Tables() == Post(old(Tables()), i, d, ref, action, amount, now)
    {
      ghost var before := SessionRows(sessions);
      var session := sessions[i];
      var expectedBefore := session.expected;
      session.expected := expectedAfter;
      movements := movements + [Movement(d, Some(i), session.date, ref, action, amount,
                                         Some(expectedBefore), Some(expectedAfter), now)];
      assert SessionRows(sessions) == before[i := session.Row()];
    }

    /** The checks every action on an existing session starts with. */
    method FindCurrent(d: Drawer) returns (r: Result<nat>)
      requires Valid()
      ensures r == CurrentSession(Tables(), d)
    {
      var found := OpenSessionQuery(Tables(), d);
      if found.None? {
        return Err(BusinessConflict);
      }
      if HasClose(closes, sessions[found.value].Row().Key()) {
        return Err(ValidationError);
      }
      return Ok(found.value);
    }

    method OpenSession(d: Drawer, opening: Option<Money>, date: Option<int>, timezone: string, now: Time)
      returns (error: Option<Error>)
      requires Valid()
      modifies this
      ensures Valid() && cuts == old(cuts) && forall s :: s in sessions ==> s in old(sessions) || fresh(s)
      ensures Tables() == Kept(old(Tables()), OpenStep(old(Tables()), d, opening, date, timezone, now))
      ensures error == Refusal(OpenStep(old(Tables()), d, opening, date, timezone, now))
    {
      ghost var before := SessionRows(sessions);
      if !Positive(opening) || date.None? || timezone == "" {
        return Some(ValidationError);
      }
      if HasClose(closes, Day(d.tenant, d.store, date.value)) {
        return Some(ValidationError);
      }
      var existing := OpenSessionQuery(Tables(), d);
      if existing.Some? {
        return Some(BusinessConflict);
      }
      var session := new CashSession(|sessions|, d, date.value, timezone, opening.value, now);
      sessions := sessions + [session];
      movements := movements + [Movement(d, Some(|sessions| - 1), date.value, NoRef, OPEN, opening.value,
                                         Some(0), Some(opening.value), now)];
      assert SessionRows(sessions) == before + [session.Row()];
      return None;
    }

    method CashIn(d: Drawer, amount: Option<Money>, now: Time) returns (error: Option<Error>)
      requires Valid()
      modifies this`movements, sessions
      ensures Tables() == Kept(old(Tables()), CashInStep(old(Tables()), d, amount, now))
      ensures error == Refusal(CashInStep(old(Tables()), d, amount, now))
    {
      var current := FindCurrent(d);
      if current.Err? {
        return Some(current.error);
      }
      if !Positive(amount) {
        return Some(ValidationError);
      }
      Write(current.value, d, NoRef, CASH_IN, amount.value, sessions[current.value].expected + amount.value, now);
      return None;
    }

    method CashOut(d: Drawer, amount: Option<Money>, now: Time) returns (error: Option<Error>)
      requires Valid()
      modifies this`movements, sessions
      ensures Tables() == Kept(old(Tables()), CashOutStep(old(Tables()), d, amount, now))
      ensures error == Refusal(CashOutStep(old(Tables()), d, amount, now))
    {
      var current := FindCurrent(d);
      if current.Err? {
        return Some(current.error);
      }
      if !Positive(amount) {
        return Some(ValidationError);
      }
      var expectedAfter := sessions[current.value].expected - amount.value;
      if expectedAfter < 0 {
        return Some(ValidationError);
      }
      Write(current.value, d, NoRef, CASH_OUT, amount.value, expectedAfter, now);
      return None;
    }

    method CloseSession(d: Drawer, counted: Option<Money>, now: Time) returns (error: Option<Error>)
      requires Valid()
      modifies this`movements, sessions
      ensures Tables() == Kept(old(Tables()), CloseStep(old(Tables()), d, counted, now))
      ensures error == Refusal(CloseStep(old(Tables()), d, counted, now))
    {
      var current := FindCurrent(d);
      if current.Err? {
        return Some(current.error);
      }
      if counted.None? {
        return Some(ValidationError);
      }
      var i := current.value;
      var session := sessions[i];
      Write(i, d, NoRef, CLOSE, 0, session.expected, now);
      CountAndClose(i, counted.value, now);
      return None;
    }

    method CountAndClose(i: nat, counted: Money, now: Time)
      requires Valid() && i < |sessions|
      modifies sessions[i]
      ensures SessionRows(sessions) == old(SessionRows(sessions))[i := CountRow(old(SessionRows(sessions)[i]), counted, now)]
    {
      ghost var before := SessionRows(sessions);
      var session := sessions[i];
      session.counted := Some(counted);
      session.difference := Some(counted - session.expected);
      session.status := Closed;
      session.closedAt := Some(now);
      assert SessionRows(sessions) == before[i := session.Row()];
    }

    /** `cash_session_action`. */
    method SessionAction(r: Request, now: Time) returns (error: Option<Error>)
      requires Valid() && (r.OpenSession? || r.CashIn? || r.CashOut? || r.CloseSession?)
      modifies this, sessions
      ensures Valid() && cuts == old(cuts) && forall s :: s in sessions ==> s in old(sessions) || fresh(s)
      ensures Tables() == Kept(old(Tables()), Step(old(Tables()), r, now)) && error == Refusal(Step(old(Tables()), r, now))
    {
      match r {
        case OpenSession(d, opening, date, timezone) => error := OpenSession(d, opening, date, timezone, now);
        case CashIn(d, amount) => error := CashIn(d, amount, now);
        case CashOut(d, amount) => error := CashOut(d, amount, now);
        case CloseSession(d, counted) => error := CloseSession(d, counted, now);
      }
    }

    /** `_record_cash_movement` on a session the caller has looked up. */
    method RecordMovement(i: nat, action: Action, amount: Money, ref: Ref, now: Time) returns (error: Option<Error>)
      requires Valid() && i < |sessions| && action in {SALE, CASH_IN, CASH_OUT, CASH_OUT_REFUND}
      modifies this`movements, sessions
      ensures Tables() == Kept(old(Tables()), RecordCash(old(Tables()), i, action, amount, ref, now))
      ensures error == Refusal(RecordCash(old(Tables()), i, action, amount, ref, now))
    {
      var session := sessions[i];
      if amount <= 0 || HasClose(closes, session.Row().Key()) {
        return Some(ValidationError);
      }
      var expectedAfter := if action in {SALE, CASH_IN} then session.expected + amount else session.expected - amount;
      if expectedAfter < 0 {
        return Some(ValidationError);
      }
      Write(i, session.drawer, ref, action, amount, expectedAfter, now);
      return None;
    }

    /** A voucher issued or refunded in cash: `_active_session`, then `_record_cash_movement`. */
    method VoucherCash(d: Drawer, refund: bool, amount: Money, ref: Ref, now: Time) returns (error: Option<Error>)
      requires Valid()
      modifies this`movements, sessions
      ensures Tables() == Kept(old(Tables()), VoucherCashStep(old(Tables()), d, refund, amount, ref, now))
      ensures error == Refusal(VoucherCashStep(old(Tables()), d, refund, amount, ref, now))
    {
      var found := ActiveSession(Tables(), d);
      if found.None? {
        return Some(BusinessConflict);
      }
      error := RecordMovement(found.value, if refund then CASH_OUT else CASH_IN, amount, ref, now);
    }

    /** `_record_non_cash_voucher_movement`. */
    method VoucherNonCash(d: Drawer, date: int, ref: Ref, kind: VoucherKind, refund: bool, amount: Money, now: Time)
      modifies this`movements
      ensures Tables() == PostNonCash(old(Tables()), d, date, ref, kind, refund, amount, now)
    {
      movements := movements + [Movement(d, None, date, ref, Voucher(kind, refund), amount, Some(0), Some(0), now)];
    }

    /** `create_cash_cut`. */
    method CreateCut(r: Request, now: Time) returns (error: Option<Error>)
      requires Valid() && r.CreateCut?
      modifies this`cuts, this`movements, sessions
      ensures Valid() && forall c :: c in cuts ==> c in old(cuts) || fresh(c)
      ensures Tables() == Kept(old(Tables()), CreateCutStep(old(Tables()), r, now))
      ensures error == Refusal(CreateCutStep(old(Tables()), r, now))
    {
      var prepared := Prepare(r, now);
      match prepared {
        case Err(e) => error := Some(e);
        case Ok(draft) => error := SaveCut(draft.cut, r, draft.session, now);
      }
    }

    /** The read half of `create_cash_cut`. */
    method Prepare(r: Request, now: Time) returns (draft: Result<Draft>)
      requires Valid() && r.CreateCut?
      ensures draft == DraftCut(Tables(), r, now)
      ensures draft.Ok? ==> draft.value.session < |sessions| && draft.value.cut.deposit == r.deposit
    {
      var found := ResolveActiveSession(Tables(), r.drawer, r.session);
      if found.None? {
        return Err(BusinessConflict);
      }
      var i := found.value;
      if HasClose(closes, sessions[i].Row().Key()) {
        return Err(ValidationError);
      }
      var (lo, hi) := ResolveWindow(Tables(), i, r.useLast, r.fromAt, r.toAt, r.quotedAt);
      if hi <= lo {
        return Err(ValidationError);
      }
      var figures := QuoteFigures(i, r.drawer, lo, hi, r.sales);
      var row := Cut(r.drawer.tenant, r.drawer.store, i, NextCutNumber(CutRows(cuts), i), lo, hi, figures, r.counted,
                     if r.counted.Some? then Some(r.counted.value - figures.Expected()) else None,
                     r.deposit, None,
                     if r.counted.Some? then CutCompleted else CutOpen,
                     now,
                     if r.counted.Some? then Some(now) else None);
      return Ok(Draft(i, row));
    }

    /** The write half of `create_cash_cut`: add the cut, then its deposit; a refused deposit rolls the cut back. */
    method SaveCut(row: Cut, r: Request, i: nat, now: Time) returns (error: Option<Error>)
      requires Valid() && r.CreateCut? && i < |sessions| && row.deposit == r.deposit
      modifies this`cuts, this`movements, sessions
      ensures Valid() && forall c :: c in cuts ==> c in old(cuts) || fresh(c)
      ensures Tables() == Kept(old(Tables()), SaveCutStep(old(Tables()), row, r, i, now))
      ensures error == Refusal(SaveCutStep(old(Tables()), row, r, i, now))
    {
      var saved := cuts;
      var cut := AddCut(row);
      if r.autoApply && Positive(r.deposit) {
        var expectedAfter := sessions[i].expected - r.deposit.value;
        if expectedAfter < 0 {
          cuts := saved;
          return Some(ValidationError);
        }
        Deposit(i, |cuts| - 1, r.drawer.(cashier := sessions[i].drawer.cashier), row.deposit, expectedAfter, now);
      }
      return None;
    }

    /** A CASH_OUT on session i that cut k points to. */
    method Deposit(i: nat, k: nat, d: Drawer, amount: Option<Money>, expectedAfter: Money, now: Time)
      requires Valid() && i < |sessions| && k < |cuts| && amount.Some? && expectedAfter == sessions[i].expected - amount.value
      modifies this`movements, sessions[i], cuts[k]
      ensures var before, posted := old(Tables()), Post(old(Tables()), i, d, NoRef, CASH_OUT, amount.value, now);
              Tables() == posted.(cuts := before.cuts[k := before.cuts[k].(deposit := amount, depositMovement := Some(|before.movements|))])
    {
      Write(i, d, NoRef, CASH_OUT, amount.value, expectedAfter, now);
      LinkDeposit(k, amount, |movements| - 1);
    }

    method AddCut(row: Cut) returns (cut: CashCut)
      requires Valid()
      modifies this`cuts
      ensures Valid() && fresh(cut) && cuts == old(cuts) + [cut]
      ensures Tables() == old(Tables()).(cuts := old(Tables()).cuts + [row])
    {
      ghost var before := CutRows(cuts);
      cut := new CashCut(|cuts|, row);
      cuts := cuts + [cut];
      assert CutRows(cuts) == before + [row];
    }

    /** `_calculate_cut_quote`: totals before the window, the sales loop, totals in the window. */
    method QuoteFigures(i: nat, d: Drawer, lo: Time, hi: Time, sales: seq<Sale>) returns (figures: Figures)
      requires Valid() && i < |sessions|
      ensures figures == Quote(Tables(), i, d, lo, hi, sales)
    {
      var openedAt := sessions[i].openedAt;
      var opening := sessions[i].opening;
      opening := opening + WindowTotal(movements, i, d, CASH_IN, openedAt, lo, false);
      opening := opening - WindowTotal(movements, i, d, CASH_OUT, openedAt, lo, false);
      opening := opening + WindowTotal(movements, i, d, SALE, openedAt, lo, false);
      opening := opening - WindowTotal(movements, i, d, CASH_OUT_REFUND, openedAt, lo, false);
      var totals := CashSales.SalesLoop(sales, d, lo, hi);
      figures := Figures(opening, totals,
                         WindowTotal(movements, i, d, CASH_IN, lo, hi, true),
                         WindowTotal(movements, i, d, CASH_OUT, lo, hi, true),
                         WindowTotal(movements, i, d, CASH_OUT_REFUND, lo, hi, true));
    }

    method VoidCut(k: nat)
      requires Valid() && k < |cuts|
      modifies cuts[k]
      ensures CutRows(cuts) == old(CutRows(cuts))[k := old(cuts[k].Row()).(status := CutVoid)]
    {
      ghost var before := CutRows(cuts);
      cuts[k].status := CutVoid;
      assert CutRows(cuts) == before[k := cuts[k].Row()];
    }

    method CompleteCut(k: nat, counted: Money, now: Time)
      requires Valid() && k < |cuts|
      modifies cuts[k]
      ensures CutRows(cuts)
              == old(CutRows(cuts))[k := old(cuts[k].Row()).(status := CutCompleted, counted := Some(counted),
                                                             difference := Some(counted - cuts[k].figures.Expected()),
                                                             completedAt := Some(now))]
    {
      ghost var before := CutRows(cuts);
      var cut := cuts[k];
      cut.status := CutCompleted;
      cut.counted := Some(counted);
      cut.difference := Some(counted - cut.figures.Expected());
      cut.completedAt := Some(now);
      assert CutRows(cuts) == before[k := cut.Row()];
    }

    method LinkDeposit(k: nat, amount: Option<Money>, movement: nat)
      requires Valid() && k < |cuts|
      modifies cuts[k]
      ensures CutRows(cuts)
              == old(CutRows(cuts))[k := old(CutRows(cuts)[k]).(deposit := amount, depositMovement := Some(movement))]
    {
      ghost var before := CutRows(cuts);
      cuts[k].deposit := amount;
      cuts[k].depositMovement := Some(movement);
      assert CutRows(cuts) == before[k := cuts[k].Row()];
    }

    method ApplyCashOut(k: nat, amount: Option<Money>, now: Time) returns (error: Option<Error>)
      requires Valid() && k < |cuts|
      modifies this`movements, sessions, cuts
      ensures Tables() == Kept(old(Tables()), ApplyCashOutStep(old(Tables()), k, amount, now))
      ensures error == Refusal(ApplyCashOutStep(old(Tables()), k, amount, now))
    {
      var cut := cuts[k];
      if !Positive(amount) {
        return Some(ValidationError);
      }
      if !(cut.session < |sessions| && sessions[cut.session].status == Open) {
        return Some(BusinessConflict);
      }
      var session := sessions[cut.session];
      var expectedAfter := session.expected - amount.value;
      if expectedAfter < 0 {
        return Some(ValidationError);
      }
      Deposit(cut.session, k, Drawer(cut.tenant, cut.store, session.drawer.cashier), amount, expectedAfter, now);
      return None;
    }

    /** `cash_cut_action`. */
    method CutAction(tenant: Uuid, store: Uuid, k: nat, action: CutAction, now: Time) returns (error: Option<Error>)
      requires Valid()
      modifies this`movements, sessions, cuts
      ensures Tables() == Kept(old(Tables()), ActOnCutStep(old(Tables()), tenant, store, k, action, now))
      ensures error == Refusal(ActOnCutStep(old(Tables()), tenant, store, k, action, now))
    {
      if !(k < |cuts| && cuts[k].tenant == tenant && cuts[k].store == store) {
        return Some(NotFound);
      }
      match action {
        case Void =>
          VoidCut(k);
        case Complete(counted) =>
          if counted.None? {
            return Some(ValidationError);
          }
          CompleteCut(k, counted.value, now);
        case PrintMark =>
        case ApplyCashOut(amount) =>
          error := ApplyCashOut(k, amount, now);
          return;
      }
      return None;
    }

    /** `close_day`. */
    method CloseDay(d: Drawer, role: Role, date: int, force: bool, reason: string, counted: Option<Money>, now: Time)
      returns (error: Option<Error>)
      requires Valid()
      modifies this`movements, this`closes, sessions
      ensures error == CloseDayRefusal(old(Tables()), Day(d.tenant, d.store, date), role, force, reason)
      ensures var before, day := old(Tables()), Day(d.tenant, d.store, date);
              Tables() == if error.Some? then before
                          else WriteClose(before, d, CloseDayRecord(before, day, force, reason, counted, d.cashier, now), now)
    {
      var day := Day(d.tenant, d.store, date);
      error := CheckCloseDay(day, role, force, reason);
      if error.None? {
        SettleDay(d, day, force, reason, counted, now);
      }
    }

    /** Rollup, record and movement of an accepted day close. */
    method SettleDay(d: Drawer, day: Day, force: bool, reason: string, counted: Option<Money>, now: Time)
      requires Valid()
      modifies this`movements, this`closes, sessions
      ensures Tables() == WriteClose(old(Tables()), d, CloseDayRecord(old(Tables()), day, force, reason, counted, d.cashier, now), now)
    {
      var record := MakeRecord(day, force, reason, counted, d.cashier, now);
      WriteDayClose(d, record, now);
    }

    method WriteDayClose(d: Drawer, record: DayClose, now: Time)
      requires Valid()
      modifies this`movements, this`closes, sessions
      ensures Tables() == WriteClose(old(Tables()), d, record, now)
    {
      CloseSessions(record.day, now);
      closes := closes + [record];
      movements := movements + [Movement(d, None, record.day.date, NoRef, DAY_CLOSE, 0, None, None, now)];
    }

    method CheckCloseDay(day: Day, role: Role, force: bool, reason: string) returns (error: Option<Error>)
      requires Valid()
      ensures error == CloseDayRefusal(Tables(), day, role, force, reason)
    {
      if HasClose(closes, day) {
        return Some(ValidationError);
      }
      var anyOpen := AnyOpenOn(SessionRows(sessions), day);
      if anyOpen && !force {
        return Some(ValidationError);
      }
      if anyOpen && force {
        if !MayForce(role) {
          return Some(PermissionDenied);
        }
        if reason == "" {
          return Some(ValidationError);
        }
      }
      return None;
    }

    /** The rollup and the difference it is compared with. */
    method MakeRecord(day: Day, force: bool, reason: string, counted: Option<Money>, closer: Uuid, now: Time)
      returns (record: DayClose)
      ensures record == CloseDayRecord(Tables(), day, force, reason, counted, closer, now)
    {
      var groups := CashRollup.GroupByAction(movements, day, |movements|);
      var totals, counts := CashRollup.ReconciliationRollup(groups, movements, day);
      var difference := if counted.Some? then Some(counted.value - totals.Expected()) else None;
      record := DayClose(day, Closed, force, reason, totals, counted, difference, Kind(difference), closer, now);
    }

    /** The loop over the open sessions of the day. */
    method CloseSessions(day: Day, now: Time)
      requires Valid()
      modifies sessions
      ensures SessionRows(sessions) == CloseAll(old(SessionRows(sessions)), day, now)
    {
      ghost var before := SessionRows(sessions);
      for i := 0 to |sessions|
        invariant forall j :: 0 <= j < i ==> sessions[j].Row() == CloseRow(before[j], day, now)
        invariant forall j :: i <= j < |sessions| ==> sessions[j].Row() == before[j]
      {
        if OpenOn(sessions[i].Row(), day) {
          sessions[i].status := Closed;
          sessions[i].closedAt := Some(now);
        }
      }
    }
  }
}
