/**
  What a cut creation and the four cut actions mean: the window, the number, the money of the quote
  added up movement by movement and sale by sale, and every row they leave.
 */
module CutLaws {
  import opened Common
  import opened CashModel
  import opened CashLaws

  // ----- the sales of a window -----

  /** What a sale took in one tender. */
  function Tendered(payments: seq<Payment>, tender: Tender): Money
  {
    if payments == [] then 0 else
    var p := payments[|payments| - 1];
    Tendered(payments[..|payments| - 1], tender) + if p.tender == tender then p.amount else 0
  }

  /** Paid sales of the store checked out between two times, both included; `split` asks for several payments. */
  predicate Taken(sale: Sale, tenant: Uuid, store: Uuid, lo: Time, hi: Time, split: bool)
  {
    && sale.tenant == tenant && sale.store == store && sale.paid
    && sale.checkedOutAt.Some? && lo <= sale.checkedOutAt.value && sale.checkedOutAt.value <= hi
    && (split ==> |sale.payments| >= 2)
  }

  function Takings(sales: seq<Sale>, tenant: Uuid, store: Uuid, lo: Time, hi: Time, tender: Tender, split: bool): Money
  {
    if sales == [] then 0 else
    var sale := sales[|sales| - 1];
    Takings(sales[..|sales| - 1], tenant, store, lo, hi, tender, split)
    + if Taken(sale, tenant, store, lo, hi, split) then Tendered(sale.payments, tender) else 0
  }

  lemma {:induction false} TenderedIsSum(payments: seq<Payment>, tender: Tender)
    ensures Sum(payments, Paid(tender)) == Tendered(payments, tender)
  {
    if payments != [] {
      TenderedIsSum(payments[..|payments| - 1], tender);
    }
  }

  lemma {:induction false} TakingsIsSum(sales: seq<Sale>, d: Drawer, lo: Time, hi: Time, tender: Tender, split: bool)
    ensures Sum(sales, SaleWeight(d, lo, hi, tender, split)) == Takings(sales, d.tenant, d.store, lo, hi, tender, split)
  {
    if sales != [] {
      TakingsIsSum(sales[..|sales| - 1], d, lo, hi, tender, split);
      TenderedIsSum(sales[|sales| - 1].payments, tender);
    }
  }

  /** The six sales columns of a quote: per tender over all sales, and over those with several payments. */
  predicate SalesColumns(t: SalesTotals, sales: seq<Sale>, tenant: Uuid, store: Uuid, lo: Time, hi: Time)
  {
    && t.cash == Takings(sales, tenant, store, lo, hi, CASH, false)
    && t.card == Takings(sales, tenant, store, lo, hi, CARD, false)
    && t.transfer == Takings(sales, tenant, store, lo, hi, TRANSFER, false)
    && t.mixedCash == Takings(sales, tenant, store, lo, hi, CASH, true)
    && t.mixedCard == Takings(sales, tenant, store, lo, hi, CARD, true)
    && t.mixedTransfer == Takings(sales, tenant, store, lo, hi, TRANSFER, true)
  }

  lemma SalesLaw(sales: seq<Sale>, d: Drawer, lo: Time, hi: Time)
    ensures SalesColumns(SalesIn(sales, d, lo, hi), sales, d.tenant, d.store, lo, hi)
  {
    TakingsIsSum(sales, d, lo, hi, CASH, false);
    TakingsIsSum(sales, d, lo, hi, CARD, false);
    TakingsIsSum(sales, d, lo, hi, TRANSFER, false);
    TakingsIsSum(sales, d, lo, hi, CASH, true);
    TakingsIsSum(sales, d, lo, hi, CARD, true);
    TakingsIsSum(sales, d, lo, hi, TRANSFER, true);
  }

  // ----- the movements of a window -----

  /** A movement of one action on session i in one store. */
  predicate OfSession(m: Movement, i: nat, tenant: Uuid, store: Uuid, action: Action)
  {
    m.session.Some? && m.session.value == i && m.drawer.tenant == tenant && m.drawer.store == store && m.action == action
  }

  /** From lo up to but not including hi. */
  function PostedBefore(ms: seq<Movement>, i: nat, d: Drawer, action: Action, lo: Time, hi: Time): Money
  {
    if ms == [] then 0 else
    var m := ms[|ms| - 1];
    PostedBefore(ms[..|ms| - 1], i, d, action, lo, hi)
    + if OfSession(m, i, d.tenant, d.store, action) && lo <= m.at && m.at < hi then m.amount else 0
  }

  /** From lo up to and including hi. */
  function PostedUpTo(ms: seq<Movement>, i: nat, d: Drawer, action: Action, lo: Time, hi: Time): Money
  {
    if ms == [] then 0 else
    var m := ms[|ms| - 1];
    PostedUpTo(ms[..|ms| - 1], i, d, action, lo, hi)
    + if OfSession(m, i, d.tenant, d.store, action) && lo <= m.at && m.at <= hi then m.amount else 0
  }

  lemma {:induction false} BeforeIsTotal(ms: seq<Movement>, i: nat, d: Drawer, action: Action, lo: Time, hi: Time)
    ensures WindowTotal(ms, i, d, action, lo, hi, false) == PostedBefore(ms, i, d, action, lo, hi)
  {
    if ms != [] {
      BeforeIsTotal(ms[..|ms| - 1], i, d, action, lo, hi);
    }
  }

  lemma {:induction false} UpToIsTotal(ms: seq<Movement>, i: nat, d: Drawer, action: Action, lo: Time, hi: Time)
    requires lo < hi
    ensures WindowTotal(ms, i, d, action, lo, hi, true) == PostedUpTo(ms, i, d, action, lo, hi)
  {
    if ms != [] {
      UpToIsTotal(ms[..|ms| - 1], i, d, action, lo, hi);
    }
  }

  /** The money of a quote over [lo, hi]. */
  predicate Measures(f: Figures, db: Db, i: nat, d: Drawer, lo: Time, hi: Time, sales: seq<Sale>)
    requires i < |db.sessions|
  {
    var ms, s := db.movements, db.sessions[i];
    && f.opening == s.opening
                    + PostedBefore(ms, i, d, CASH_IN, s.openedAt, lo) + PostedBefore(ms, i, d, SALE, s.openedAt, lo)
                    - PostedBefore(ms, i, d, CASH_OUT, s.openedAt, lo) - PostedBefore(ms, i, d, CASH_OUT_REFUND, s.openedAt, lo)
    && f.cashIn == PostedUpTo(ms, i, d, CASH_IN, lo, hi)
    && f.cashOut == PostedUpTo(ms, i, d, CASH_OUT, lo, hi)
    && f.refunds == PostedUpTo(ms, i, d, CASH_OUT_REFUND, lo, hi)
    && SalesColumns(f.sales, sales, d.tenant, d.store, lo, hi)
  }

  lemma QuoteMeasures(db: Db, i: nat, d: Drawer, lo: Time, hi: Time, sales: seq<Sale>)
    requires i < |db.sessions| && lo < hi
    ensures Measures(Quote(db, i, d, lo, hi, sales), db, i, d, lo, hi, sales)
  {
    var ms, s := db.movements, db.sessions[i];
    BeforeIsTotal(ms, i, d, CASH_IN, s.openedAt, lo);
    BeforeIsTotal(ms, i, d, CASH_OUT, s.openedAt, lo);
    BeforeIsTotal(ms, i, d, SALE, s.openedAt, lo);
    BeforeIsTotal(ms, i, d, CASH_OUT_REFUND, s.openedAt, lo);
    UpToIsTotal(ms, i, d, CASH_IN, lo, hi);
    UpToIsTotal(ms, i, d, CASH_OUT, lo, hi);
    UpToIsTotal(ms, i, d, CASH_OUT_REFUND, lo, hi);
    SalesLaw(sales, d, lo, hi);
  }

  // ----- window and number -----

  predicate CutOf(cuts: seq<Cut>, session: nat, k: nat)
  {
    k < |cuts| && cuts[k].session == session
  }

  /** The cut of a session with the highest number, the later row among equals. */
  ghost predicate IsLast(cuts: seq<Cut>, session: nat, k: nat)
  {
    CutOf(cuts, session, k)
    && forall j: nat :: CutOf(cuts, session, j) ==> cuts[j].number < cuts[k].number || (cuts[j].number == cuts[k].number && j <= k)
  }

  lemma {:induction false} LastCutIsLast(cuts: seq<Cut>, session: nat)
    ensures var r := LastCut(cuts, session);
            if r.Some? then IsLast(cuts, session, r.value) else forall k: nat :: !CutOf(cuts, session, k)
  {
    if cuts != [] {
      var n := |cuts| - 1;
      LastCutIsLast(cuts[..n], session);
      var best := LastCut(cuts[..n], session);
      forall j: nat | j < n && CutOf(cuts, session, j)
        ensures best.Some? && (cuts[j].number < cuts[best.value].number || (cuts[j].number == cuts[best.value].number && j <= best.value))
      {
        assert CutOf(cuts[..n], session, j);
      }
    }
  }

  lemma LastIsUnique(cuts: seq<Cut>, session: nat, k: nat)
    ensures IsLast(cuts, session, k) <==> LastCut(cuts, session) == Some(k)
  {
    LastCutIsLast(cuts, session);
  }

  /** Where the window begins: as asked, at the end of the session's last cut, or at its opening. */
  ghost predicate BeginsAt(db: Db, i: nat, r: Request, lo: Time)
    requires r.CreateCut? && i < |db.sessions|
  {
    if r.fromAt.Some? then lo == r.fromAt.value
    else if r.useLast && exists k: nat :: IsLast(db.cuts, i, k) then exists k: nat :: IsLast(db.cuts, i, k) && lo == db.cuts[k].toAt
    else lo == db.sessions[i].openedAt
  }

  /** Where it ends: as asked, or at the first clock reading. */
  function EndOf(r: Request): Time
    requires r.CreateCut?
  {
    match r.toAt case Some(t) => t case None => r.quotedAt
  }

  /** One more than the last number of the session, from one. */
  ghost predicate NextOf(cuts: seq<Cut>, i: nat, number: int)
  {
    if exists k: nat :: CutOf(cuts, i, k) then exists k: nat :: IsLast(cuts, i, k) && number == cuts[k].number + 1 else number == 1
  }

  lemma WindowIs(db: Db, i: nat, r: Request, lo: Time)
    requires r.CreateCut? && i < |db.sessions| && BeginsAt(db, i, r, lo)
    ensures ResolveWindow(db, i, r.useLast, r.fromAt, r.toAt, r.quotedAt) == (lo, EndOf(r))
  {
    LastCutIsLast(db.cuts, i);
    if k: nat :| IsLast(db.cuts, i, k) {
      LastIsUnique(db.cuts, i, k);
    }
    if k: nat :| IsLast(db.cuts, i, k) && lo == db.cuts[k].toAt {
      LastIsUnique(db.cuts, i, k);
    }
  }

  /** The window of every creation begins somewhere. */
  lemma Begins(db: Db, i: nat, r: Request) returns (lo: Time)
    requires r.CreateCut? && i < |db.sessions|
    ensures BeginsAt(db, i, r, lo)
  {
    LastCutIsLast(db.cuts, i);
    lo := ResolveWindow(db, i, r.useLast, r.fromAt, r.toAt, r.quotedAt).0;
  }

  lemma NumberIs(cuts: seq<Cut>, i: nat)
    ensures NextOf(cuts, i, NextCutNumber(cuts, i))
  {
    LastCutIsLast(cuts, i);
  }

  // ----- creating a cut -----

  /** The session of a cut: the one named, whatever the day closes say, or the current one. */
  ghost predicate Chosen(db: Db, d: Drawer, session: Option<nat>, i: nat)
  {
    if session.Some? then i == session.value && Running(db, d, i) else IsCurrent(db, d, i)
  }

  lemma ChosenIs(db: Db, d: Drawer, session: Option<nat>, i: nat)
    ensures ResolveActiveSession(db, d, session) == Some(i) <==> Chosen(db, d, session, i)
  {
    LookupIsCurrent(db, d, i);
  }

  predicate PaysDeposit(r: Request)
    requires r.CreateCut?
  {
    r.autoApply && r.deposit.Some? && r.deposit.value > 0
  }

  /** No close record of the day, a window that does not end before it begins, and a deposit the drawer holds. */
  predicate MayCut(db: Db, i: nat, r: Request, lo: Time)
    requires r.CreateCut? && i < |db.sessions|
  {
    Undisturbed(db, i) && lo < EndOf(r) && (PaysDeposit(r) ==> r.deposit.value <= db.sessions[i].expected)
  }

  /** The columns a count fills in, measured against opening, sales, cash in, cash out and refunds. */
  predicate Counted(c: Cut, counted: Option<Money>, now: Time)
  {
    var f := c.figures;
    && c.counted == counted
    && (counted.None? ==> c.difference.None? && c.status == CutOpen && c.completedAt.None?)
    && (counted.Some? ==>
          && c.difference.Some? && c.difference.value + (f.opening + f.sales.cash + f.cashIn - f.cashOut - f.refunds) == counted.value
          && c.status == CutCompleted && c.completedAt == Some(now))
  }

  /** The row of a new cut. */
  ghost predicate NewCut(c: Cut, db: Db, i: nat, r: Request, lo: Time, now: Time)
    requires r.CreateCut? && i < |db.sessions|
  {
    && c.tenant == r.drawer.tenant && c.store == r.drawer.store && c.session == i && NextOf(db.cuts, i, c.number)
    && c.fromAt == lo && c.toAt == EndOf(r) && Measures(c.figures, db, i, r.drawer, lo, EndOf(r), r.sales)
    && c.deposit == r.deposit && c.createdAt == now && Counted(c, r.counted, now)
  }

  lemma DraftIs(db: Db, i: nat, r: Request, lo: Time, now: Time)
    requires r.CreateCut? && Chosen(db, r.drawer, r.session, i) && BeginsAt(db, i, r, lo)
    ensures var draft := DraftCut(db, r, now);
            && (draft.Ok? <==> Undisturbed(db, i) && lo < EndOf(r))
            && (draft.Err? ==> draft.error == ValidationError)
            && (draft.Ok? ==> draft.value.session == i && NewCut(draft.value.cut, db, i, r, lo, now) && draft.value.cut.depositMovement.None?)
  {
    ChosenIs(db, r.drawer, r.session, i);
    WindowIs(db, i, r, lo);
    NumberIs(db.cuts, i);
    if lo < EndOf(r) {
      QuoteMeasures(db, i, r.drawer, lo, EndOf(r), r.sales);
    }
  }

  /** The amount leaves session i by one CASH_OUT movement. */
  predicate PaysOut(db: Db, next: Db, i: nat, amount: Money, now: Time)
    requires i < |db.sessions|
  {
    OnlyPosts(db, next, i, OnSession(db, i, NoRef, CASH_OUT, amount, -amount, now), -amount)
  }

  lemma SaveIs(db: Db, c: Cut, r: Request, i: nat, now: Time)
    requires r.CreateCut? && i < |db.sessions| && db.sessions[i].drawer == r.drawer
    ensures var saved := SaveCutStep(db, c, r, i, now);
            && (saved.Ok? <==> (PaysDeposit(r) ==> r.deposit.value <= db.sessions[i].expected))
            && (saved.Err? ==> saved.error == ValidationError)
            && (saved.Ok? && !PaysDeposit(r) ==> saved.value == Db(db.sessions, db.movements, db.cuts + [c], db.closes))
            && (saved.Ok? && PaysDeposit(r) ==>
                  && saved.value.cuts == db.cuts + [c.(depositMovement := Some(|db.movements|))]
                  && PaysOut(db, saved.value.(cuts := db.cuts), i, r.deposit.value, now))
  {
  }

  lemma CreateIsStep(db: Db, r: Request, now: Time)
    requires r.CreateCut?
    ensures Step(db, r, now) == CreateCutStep(db, r, now)
  {
  }

  /** A cut is accepted exactly when it may be; the only other refusal is a drawer without a session. */
  lemma CutAccepted(db: Db, i: nat, r: Request, lo: Time, now: Time)
    requires r.CreateCut? && Chosen(db, r.drawer, r.session, i) && BeginsAt(db, i, r, lo)
    ensures var cut := Step(db, r, now);
            && (cut.Ok? <==> MayCut(db, i, r, lo))
            && (cut.Err? ==> cut.error == ValidationError)
  {
    CreateIsStep(db, r, now);
    DraftIs(db, i, r, lo, now);
    var draft := DraftCut(db, r, now);
    if draft.Ok? {
      SaveIs(db, draft.value.cut, r, i, now);
    }
  }

  lemma NoneChosen(db: Db, r: Request, now: Time)
    requires r.CreateCut? && forall i: nat :: !Chosen(db, r.drawer, r.session, i)
    ensures Step(db, r, now) == Err(BusinessConflict)
  {
    var chosen := ResolveActiveSession(db, r.drawer, r.session);
    ChosenIs(db, r.drawer, r.session, if chosen.Some? then chosen.value else 0);
  }

  /** What an accepted creation writes: one cut, and with a deposit to pay one CASH_OUT the cut is linked to. */
  lemma CutEffect(db: Db, i: nat, r: Request, lo: Time, now: Time)
    requires r.CreateCut? && Chosen(db, r.drawer, r.session, i) && BeginsAt(db, i, r, lo) && Step(db, r, now).Ok?
    ensures var next, n := Step(db, r, now).value, |db.cuts|;
            && |next.cuts| == n + 1 && next.cuts[..n] == db.cuts && NewCut(next.cuts[n], db, i, r, lo, now)
            && (!PaysDeposit(r) ==> next.cuts[n].depositMovement.None? && next.(cuts := db.cuts) == db)
            && (PaysDeposit(r) ==>
                  && next.cuts[n].depositMovement == Some(|db.movements|)
                  && PaysOut(db, next.(cuts := db.cuts), i, r.deposit.value, now))
  {
    CreateIsStep(db, r, now);
    DraftIs(db, i, r, lo, now);
    SaveIs(db, DraftCut(db, r, now).value.cut, r, i, now);
  }

  // ----- acting on a cut -----

  predicate CutInStore(db: Db, tenant: Uuid, store: Uuid, k: nat)
  {
    k < |db.cuts| && db.cuts[k].tenant == tenant && db.cuts[k].store == store
  }

  lemma UnknownCut(db: Db, tenant: Uuid, store: Uuid, k: nat, action: CutAction, now: Time)
    requires !CutInStore(db, tenant, store, k)
    ensures Step(db, ActOnCut(tenant, store, k, action), now) == Err(NotFound)
  {
  }

  /** VOID sets the status, in any status, and no other column of any row; PRINT_MARK sets none. */
  lemma VoidLaw(db: Db, tenant: Uuid, store: Uuid, k: nat, now: Time)
    requires CutInStore(db, tenant, store, k)
    ensures var r := Step(db, ActOnCut(tenant, store, k, Void), now);
            && r.Ok? && |r.value.cuts| == |db.cuts| && r.value.cuts[k].status == CutVoid
            && r.value.(cuts := r.value.cuts[k := r.value.cuts[k].(status := db.cuts[k].status)]) == db
    ensures Step(db, ActOnCut(tenant, store, k, PrintMark), now) == Ok(db)
  {
    var next := Step(db, ActOnCut(tenant, store, k, Void), now).value;
    assert next.cuts[k := next.cuts[k].(status := db.cuts[k].status)] == db.cuts;
  }

  /** Only the columns a count fills in differ. */
  predicate SameButCounted(c: Cut, c': Cut)
  {
    c'.(counted := c.counted, difference := c.difference, status := c.status, completedAt := c.completedAt) == c
  }

  /** COMPLETE fills in the count and what it is off by, at the time of the request, in any status. */
  lemma CompleteLaw(db: Db, tenant: Uuid, store: Uuid, k: nat, counted: Option<Money>, now: Time)
    requires CutInStore(db, tenant, store, k)
    ensures var r := Step(db, ActOnCut(tenant, store, k, Complete(counted)), now);
            && (r.Ok? <==> counted.Some?)
            && (r.Err? ==> r.error == ValidationError)
            && (r.Ok? ==>
                  && |r.value.cuts| == |db.cuts| && r.value.(cuts := db.cuts) == db
                  && (forall j :: 0 <= j < |db.cuts| && j != k ==> r.value.cuts[j] == db.cuts[j])
                  && SameButCounted(db.cuts[k], r.value.cuts[k]) && Counted(r.value.cuts[k], counted, now))
  {
  }

  predicate MayApply(db: Db, k: nat, amount: Option<Money>)
    requires k < |db.cuts|
  {
    var i := db.cuts[k].session;
    amount.Some? && amount.value > 0 && i < |db.sessions| && db.sessions[i].status == Open && amount.value <= db.sessions[i].expected
  }

  /** The movement of an APPLY_CASH_OUT: on the session of the cut, in the store of the cut. */
  function ForCut(db: Db, k: nat, amount: Money, now: Time): Movement
    requires k < |db.cuts| && db.cuts[k].session < |db.sessions|
  {
    var c := db.cuts[k];
    var s := db.sessions[c.session];
    Movement(Drawer(c.tenant, c.store, s.drawer.cashier), Some(c.session), s.date, NoRef, CASH_OUT, amount,
             Some(s.expected), Some(s.expected - amount), now)
  }

  /** APPLY_CASH_OUT takes the amount out of the session of the cut and links the cut to it, over any earlier link. */
  lemma ApplyLaw(db: Db, tenant: Uuid, store: Uuid, k: nat, amount: Option<Money>, now: Time)
    requires CutInStore(db, tenant, store, k)
    ensures var r := Step(db, ActOnCut(tenant, store, k, ApplyCashOut(amount)), now);
            var i := db.cuts[k].session;
            && (r.Ok? <==> MayApply(db, k, amount))
            && (amount.None? || amount.value <= 0 ==> r == Err(ValidationError))
            && (amount.Some? && amount.value > 0 && (i >= |db.sessions| || db.sessions[i].status == Closed) ==> r == Err(BusinessConflict))
            && (amount.Some? && i < |db.sessions| && db.sessions[i].status == Open && db.sessions[i].expected < amount.value ==>
                  r == Err(ValidationError))
            && (r.Ok? ==>
                  && OnlyPosts(db, r.value.(cuts := db.cuts), i, ForCut(db, k, amount.value, now), -amount.value)
                  && |r.value.cuts| == |db.cuts|
                  && (forall j :: 0 <= j < |db.cuts| && j != k ==> r.value.cuts[j] == db.cuts[j])
                  && r.value.cuts[k] == db.cuts[k].(deposit := amount, depositMovement := Some(|db.movements|)))
  {
  }

  /** The same creation with a count. */
  function WithCount(r: Request, counted: Money): Request
    requires r.CreateCut?
  {
    CreateCut(r.drawer, r.session, r.useLast, r.fromAt, r.toAt, Some(counted), r.deposit, r.autoApply, r.sales, r.quotedAt)
  }

  /** A window has one measure, so a count of it has one difference. */
  lemma OneDifference(c: Cut, c': Cut, counted: Money, at: Time, at': Time, db: Db, i: nat, d: Drawer, lo: Time, hi: Time, sales: seq<Sale>)
    requires i < |db.sessions|
    requires Measures(c.figures, db, i, d, lo, hi, sales) && Measures(c'.figures, db, i, d, lo, hi, sales)
    requires Counted(c, Some(counted), at) && Counted(c', Some(counted), at')
    ensures c.difference.Some? && c'.difference.Some? && c.difference.value == c'.difference.value && c.status == c'.status
  {
  }

  lemma CreatedRow(db: Db, i: nat, r: Request, lo: Time, now: Time) returns (c: Cut)
    requires r.CreateCut? && Chosen(db, r.drawer, r.session, i) && BeginsAt(db, i, r, lo) && Step(db, r, now).Ok?
    ensures var cuts := Step(db, r, now).value.cuts; |cuts| == |db.cuts| + 1 && cuts[|db.cuts|] == c
    ensures Measures(c.figures, db, i, r.drawer, lo, EndOf(r), r.sales) && Counted(c, r.counted, now)
    ensures CutInStore(Step(db, r, now).value, r.drawer.tenant, r.drawer.store, |db.cuts|)
  {
    CutEffect(db, i, r, lo, now);
    c := Step(db, r, now).value.cuts[|db.cuts|];
  }

  lemma CompletedRow(db: Db, tenant: Uuid, store: Uuid, k: nat, counted: Money, now: Time) returns (c: Cut)
    requires CutInStore(db, tenant, store, k)
    ensures var r := Step(db, ActOnCut(tenant, store, k, Complete(Some(counted))), now); r.Ok? && k < |r.value.cuts| && r.value.cuts[k] == c
    ensures c.figures == db.cuts[k].figures && Counted(c, Some(counted), now)
  {
    CompleteLaw(db, tenant, store, k, Some(counted), now);
    c := Step(db, ActOnCut(tenant, store, k, Complete(Some(counted))), now).value.cuts[k];
  }

  /** Counting a cut later finds the difference that creating it with the count would have found. */
  lemma CountedNowOrLater(db: Db, i: nat, r: Request, lo: Time, counted: Money, now: Time, then': Time)
    requires r.CreateCut? && Chosen(db, r.drawer, r.session, i) && BeginsAt(db, i, r, lo) && Step(db, r, now).Ok?
    ensures var n, atOnce := |db.cuts|, Step(db, WithCount(r, counted), now);
            var later := Step(Step(db, r, now).value, ActOnCut(r.drawer.tenant, r.drawer.store, n, Complete(Some(counted))), then');
            && atOnce.Ok? && n < |atOnce.value.cuts| && later.Ok? && n < |later.value.cuts|
            && var c, c' := atOnce.value.cuts[n], later.value.cuts[n];
               c.difference.Some? && c'.difference.Some? && c.difference.value == c'.difference.value && c.status == c'.status
  {
    var r' := WithCount(r, counted);
    CutAccepted(db, i, r, lo, now);
    CutAccepted(db, i, r', lo, now);
    var c := CreatedRow(db, i, r', lo, now);
    var first := CreatedRow(db, i, r, lo, now);
    var c' := CompletedRow(Step(db, r, now).value, r.drawer.tenant, r.drawer.store, |db.cuts|, counted, then');
    OneDifference(c, c', counted, now, then', db, i, r.drawer, lo, EndOf(r), r.sales);
  }
}
