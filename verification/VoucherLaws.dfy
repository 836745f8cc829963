/**
  What each request about a voucher means: when it is accepted, what a refused caller is told, and every
  row and movement it leaves, spelled out over the tables.
 */
module VoucherLaws {
  import opened Common
  import opened CashModel
  import opened CashLaws
  import opened Text
  import opened VoucherModel
  import opened VoucherInvariants
  import opened VoucherTheorems

  // ----- what a posting may do -----

  /** Cash needs the cashier's active session; cards and transfers need nothing. */
  ghost predicate MayPay(db: Db, d: Drawer, amount: Money, tender: PayMethod, refund: bool)
  {
    tender == ByCash ==> exists j: nat :: IsActive(db, d, j) && MayRecord(db, j, amount, if refund then -amount else amount)
  }

  /** The posting of voucher i: on the active session by its balance, or outside every session on the UTC date. */
  ghost predicate Pays(db: Db, next: Db, d: Drawer, i: nat, kind: VoucherKind, amount: Money, tender: PayMethod, refund: bool, now: Time)
  {
    if tender == ByCash then exists j: nat :: IsActive(db, d, j) && PaysInCash(db, next, i, j, amount, refund, now)
    else
      && next.movements == db.movements + [Movement(d, None, now / DAY, VoucherRef(i), Voucher(kind, refund), amount, Some(0), Some(0), now)]
      && next.sessions == db.sessions && next.cuts == db.cuts && next.closes == db.closes
  }

  predicate PaysInCash(db: Db, next: Db, i: nat, j: nat, amount: Money, refund: bool, now: Time)
    requires j < |db.sessions|
  {
    var delta := if refund then -amount else amount;
    OnlyPosts(db, next, j, OnSession(db, j, VoucherRef(i), if refund then CASH_OUT else CASH_IN, amount, delta, now), delta)
  }

  /** Without an active session a cash posting is a conflict; with one, an amount it may not record is invalid. */
  ghost predicate PayError(db: Db, d: Drawer, e: Error)
  {
    e == if exists j: nat :: Running(db, d, j) then ValidationError else BusinessConflict
  }

  lemma CashPayIs(db: Db, d: Drawer, i: nat, amount: Money, refund: bool, now: Time)
    ensures var r := VoucherCashStep(db, d, refund, amount, VoucherRef(i), now);
            && (r.Ok? <==> exists j: nat :: IsActive(db, d, j) && MayRecord(db, j, amount, if refund then -amount else amount))
            && (r.Ok? ==> exists j: nat :: IsActive(db, d, j) && PaysInCash(db, r.value, i, j, amount, refund, now))
            && (r.Err? ==> PayError(db, d, r.error))
  {
    var step := Step(db, PayVoucherCash(d, refund, amount, VoucherRef(i)), now);
    assert step == VoucherCashStep(db, d, refund, amount, VoucherRef(i), now);
    var active := ActiveSession(db, d);
    LookupIsActive(db, d, if active.Some? then active.value else 0);
    if active.None? {
      NoTill(db, d, refund, amount, VoucherRef(i), now);
    } else {
      var j := active.value;
      VoucherCashLaw(db, d, j, refund, amount, VoucherRef(i), now);
      forall k: nat | IsActive(db, d, k) ensures k == j {
        LookupIsActive(db, d, k);
      }
      assert Running(db, d, j);
    }
  }

  lemma PayIs(db: Db, d: Drawer, i: nat, kind: VoucherKind, amount: Money, tender: PayMethod, refund: bool, now: Time)
    ensures var r := PayStep(db, d, i, kind, amount, tender, refund, now);
            && (r.Ok? <==> MayPay(db, d, amount, tender, refund))
            && (r.Ok? ==> Pays(db, r.value, d, i, kind, amount, tender, refund, now))
            && (r.Err? ==> PayError(db, d, r.error))
  {
    if tender == ByCash {
      CashPayIs(db, d, i, amount, refund, now);
    }
  }

  // ----- acting on a voucher -----

  /** There, ACTIVE, and not past its expiry at time t. */
  predicate LiveAt(s: System, i: nat, t: Time)
  {
    i < |s.vouchers| && s.vouchers[i].status == ACTIVE && t < s.vouchers[i].expiresAt
  }

  /** Refused: the caller is told why and no table changes, not even for a due expiry. */
  ghost predicate RefusedWith(s: System, r: VoucherModel.Request, now: Time, e: Error)
  {
    After(s, r, now) == s && Answer(s, r, now) == Refused(e)
  }

  /** No action at all on a voucher that is not there, or is not live when it is checked. */
  lemma OnlyLive(s: System, i: nat, cashier: Uuid, action: VoucherAction, checkedAt: Time, now: Time)
    requires !LiveAt(s, i, checkedAt)
    ensures RefusedWith(s, Mutate(i, cashier, action, checkedAt), now, if i < |s.vouchers| then BusinessConflict else Error.NotFound)
  {
  }

  /** Row i and the log change, and the money tables as said; every other row stays. */
  predicate OnlyRow(s: System, next: System, i: nat, row: Advance, e: Event, cash: Db)
    requires i < |s.vouchers|
  {
    && |next.vouchers| == |s.vouchers| && next.vouchers[i] == row
    && (forall j :: 0 <= j < |s.vouchers| && j != i ==> next.vouchers[j] == s.vouchers[j])
    && next.events == s.events + [e]
    && next.cash == cash
  }

  predicate MayConsume(s: System, i: nat, saleTotal: Option<Money>, sale: Option<Uuid>, saleKnown: bool, checkedAt: Time)
  {
    LiveAt(s, i, checkedAt) && saleTotal.Some? && s.vouchers[i].amount <= saleTotal.value && (sale.None? || saleKnown)
  }

  /** CONSUME is accepted of a live voucher for a sale that costs as much and, if named, is known. */
  lemma ConsumeAccepted(s: System, i: nat, cashier: Uuid, saleTotal: Option<Money>, sale: Option<Uuid>, saleKnown: bool, checkedAt: Time, now: Time)
    ensures var r := Mutate(i, cashier, Consume(saleTotal, sale, saleKnown), checkedAt);
            && (Answer(s, r, now).Ended? <==> MayConsume(s, i, saleTotal, sale, saleKnown, checkedAt))
            && (i >= |s.vouchers| ==> RefusedWith(s, r, now, Error.NotFound))
            && (i < |s.vouchers| && !LiveAt(s, i, checkedAt) ==> RefusedWith(s, r, now, BusinessConflict))
            && (LiveAt(s, i, checkedAt) && saleTotal.None? ==> RefusedWith(s, r, now, ValidationError))
            && (LiveAt(s, i, checkedAt) && saleTotal.Some? && saleTotal.value < s.vouchers[i].amount ==> RefusedWith(s, r, now, ValidationError))
            && (LiveAt(s, i, checkedAt) && saleTotal.Some? && s.vouchers[i].amount <= saleTotal.value && sale.Some? && !saleKnown ==>
                  RefusedWith(s, r, now, Error.NotFound))
  {
  }

  /** The amounts of a consumption: the whole voucher is applied, what the sale costs more remains. */
  predicate Applies(a: Option<Application>, saleTotal: Money, amount: Money)
  {
    a.Some? && a.value.saleTotal == saleTotal && a.value.applied == amount && a.value.applied + a.value.remaining == saleTotal
  }

  /** What an accepted CONSUME leaves: the row spent on the sale of the request, one event, no movement. */
  lemma ConsumeEffect(s: System, i: nat, cashier: Uuid, saleTotal: Option<Money>, sale: Option<Uuid>, saleKnown: bool, checkedAt: Time, now: Time)
    requires MayConsume(s, i, saleTotal, sale, saleKnown, checkedAt)
    ensures var r := Mutate(i, cashier, Consume(saleTotal, sale, saleKnown), checkedAt);
            var v, next, answer := s.vouchers[i], After(s, r, now), Answer(s, r, now);
            && answer.Ended? && answer.status == CONSUMED && Applies(answer.application, saleTotal.value, v.amount)
            && i < |next.vouchers| && next.vouchers[i].consumedSale == sale
            && OnlyRow(s, next, i, v.(status := CONSUMED, consumedSale := sale, updatedAt := now),
                       Event(i, EventAction.Ended(CONSUMED), answer.application, now), s.cash)
  {
  }

  /** REFUND asks for a tender, and in cash for an active session that may pay the amount out. */
  lemma RefundAccepted(s: System, i: nat, cashier: Uuid, tender: Option<PayMethod>, checkedAt: Time, now: Time)
    requires LiveAt(s, i, checkedAt)
    ensures var r := Mutate(i, cashier, Refund(tender), checkedAt);
            var v := s.vouchers[i];
            var d := Drawer(v.tenant, v.store, cashier);
            && (Answer(s, r, now).Ended? <==> tender.Some? && MayPay(s.cash, d, v.amount, tender.value, true))
            && (tender.None? ==> RefusedWith(s, r, now, ValidationError))
            && (tender.Some? && !MayPay(s.cash, d, v.amount, tender.value, true) ==>
                  exists e :: PayError(s.cash, d, e) && RefusedWith(s, r, now, e))
  {
    if tender.Some? {
      var v := s.vouchers[i];
      var d := Drawer(v.tenant, v.store, cashier);
      PayIs(s.cash, d, i, v.kind, v.amount, tender.value, true, now);
      var pay := PayStep(s.cash, d, i, v.kind, v.amount, tender.value, true, now);
      if pay.Err? {
        assert PayError(s.cash, d, pay.error) && RefusedWith(s, Mutate(i, cashier, Refund(tender), checkedAt), now, pay.error);
      }
    }
  }

  /** What an accepted REFUND leaves: the face value paid out once, the row linked to that movement, one event. */
  lemma RefundEffect(s: System, i: nat, cashier: Uuid, tender: PayMethod, checkedAt: Time, now: Time)
    requires LiveAt(s, i, checkedAt)
    requires MayPay(s.cash, Drawer(s.vouchers[i].tenant, s.vouchers[i].store, cashier), s.vouchers[i].amount, tender, true)
    ensures var r := Mutate(i, cashier, Refund(Some(tender)), checkedAt);
            var v, next := s.vouchers[i], After(s, r, now);
            && Answer(s, r, now) == Reply.Ended(REFUNDED, None)
            && Pays(s.cash, next.cash, Drawer(v.tenant, v.store, cashier), i, v.kind, v.amount, tender, true, now)
            && OnlyRow(s, next, i, v.(status := REFUNDED, refundMovement := Some(|s.cash.movements|), refundedAt := Some(now), updatedAt := now),
                       Event(i, EventAction.Ended(REFUNDED), None, now), next.cash)
  {
    var v := s.vouchers[i];
    PayIs(s.cash, Drawer(v.tenant, v.store, cashier), i, v.kind, v.amount, tender, true, now);
  }

  /** EXPIRE_NOW ends a live voucher whatever time is left to it. */
  lemma ExpireNowLaw(s: System, i: nat, cashier: Uuid, checkedAt: Time, now: Time)
    requires LiveAt(s, i, checkedAt)
    ensures var r := Mutate(i, cashier, ExpireNow, checkedAt);
            && Answer(s, r, now) == Reply.Ended(EXPIRED, None)
            && OnlyRow(s, After(s, r, now), i, s.vouchers[i].(status := EXPIRED, expiredAt := Some(now), updatedAt := now),
                       Event(i, EventAction.Ended(EXPIRED), None, now), s.cash)
  {
  }

  // ----- issuing -----

  /** The next free number of a store: beyond every number given out, right after one of them or the first. */
  ghost predicate IsNext(vouchers: seq<Advance>, tenant: Uuid, store: Uuid, n: int)
  {
    && n >= 1
    && (forall v :: v in vouchers && v.tenant == tenant && v.store == store ==> v.number < n)
    && (n == 1 || exists v :: v in vouchers && v.tenant == tenant && v.store == store && v.number == n - 1)
  }

  lemma {:induction false} MaxIsThere(vouchers: seq<Advance>, tenant: Uuid, store: Uuid)
    ensures var m := MaxNumber(vouchers, tenant, store);
            m == 0 || exists v :: v in vouchers && v.tenant == tenant && v.store == store && v.number == m
  {
    if vouchers != [] {
      var n := |vouchers| - 1;
      MaxIsThere(vouchers[..n], tenant, store);
      var m := MaxNumber(vouchers, tenant, store);
      if v :| v in vouchers[..n] && v.tenant == tenant && v.store == store && v.number == m {
        assert v in vouchers;
      } else {
        assert m == 0 || vouchers[n].number == m;
      }
    }
  }

  lemma NextIs(s: System, d: Drawer)
    ensures IsNext(s.vouchers, d.tenant, d.store, NextNumber(s, d))
  {
    MaxIsThere(s.vouchers, d.tenant, d.store);
  }

  /** ISSUE: a positive amount, a barcode the tenant has not used yet, and a posting that may be made. */
  lemma IssueAccepted(s: System, d: Drawer, amount: Money, tender: PayMethod, kind: VoucherKind, n: nat, now: Time)
    requires IsNext(s.vouchers, d.tenant, d.store, n)
    ensures var r := Issue(d, amount, tender, kind);
            var taken := exists v :: v in s.vouchers && v.tenant == d.tenant && v.barcode == Barcode(d.store, n);
            && (Answer(s, r, now).Issued? <==> amount > 0 && !taken && MayPay(s.cash, d, amount, tender, false))
            && (amount <= 0 ==> RefusedWith(s, r, now, ValidationError))
            && (amount > 0 && taken ==> RefusedWith(s, r, now, IntegrityError))
            && (amount > 0 && !taken && !MayPay(s.cash, d, amount, tender, false) ==>
                  exists e :: PayError(s.cash, d, e) && RefusedWith(s, r, now, e))
  {
    NextIs(s, d);
    NextIsOne(s.vouchers, d.tenant, d.store, n, NextNumber(s, d));
    IssueAnswer(s, d, amount, tender, kind, now);
    PayIs(s.cash, d, |s.vouchers|, kind, amount, tender, false, now);
    var pay := PayStep(s.cash, d, |s.vouchers|, kind, amount, tender, false, now);
    if pay.Err? && IssueRefusal(s, d, amount).None? {
      assert PayError(s.cash, d, pay.error) && RefusedWith(s, Issue(d, amount, tender, kind), now, pay.error);
    }
  }

  lemma NextIsOne(vouchers: seq<Advance>, tenant: Uuid, store: Uuid, m: int, n: int)
    requires IsNext(vouchers, tenant, store, m) && IsNext(vouchers, tenant, store, n)
    ensures m == n
  {
  }

  /** The row of a new voucher: ACTIVE, sixty days to live, linked to the movement of its payment. */
  predicate NewVoucher(v: Advance, d: Drawer, n: nat, amount: Money, tender: PayMethod, kind: VoucherKind, movement: nat, now: Time)
  {
    && v.tenant == d.tenant && v.store == d.store && v.number == n && v.barcode == Barcode(d.store, n)
    && v.kind == kind && v.amount == amount && v.paidBy == tender && v.issueMovement == movement
    && v.issuedAt == now && v.expiresAt == now + 5_184_000_000_000 && v.updatedAt == now
    && v.status == ACTIVE && v.consumedSale.None? && v.refundMovement.None? && v.refundedAt.None? && v.expiredAt.None?
  }

  /** What an accepted ISSUE leaves: one row with the next number, its payment and its event; no row changes. */
  lemma IssueEffect(s: System, d: Drawer, amount: Money, tender: PayMethod, kind: VoucherKind, n: nat, now: Time)
    requires IsNext(s.vouchers, d.tenant, d.store, n) && Answer(s, Issue(d, amount, tender, kind), now).Issued?
    ensures var next, i := After(s, Issue(d, amount, tender, kind), now), |s.vouchers|;
            && Answer(s, Issue(d, amount, tender, kind), now) == Reply.Issued(n, Barcode(d.store, n))
            && |next.vouchers| == i + 1 && next.vouchers[..i] == s.vouchers
            && NewVoucher(next.vouchers[i], d, n, amount, tender, kind, |s.cash.movements|, now)
            && next.events == s.events + [Event(i, EventAction.ISSUED, None, now)]
            && Pays(s.cash, next.cash, d, i, kind, amount, tender, false, now)
  {
    NextIs(s, d);
    NextIsOne(s.vouchers, d.tenant, d.store, n, NextNumber(s, d));
    IssueAnswer(s, d, amount, tender, kind, now);
    PayIs(s.cash, d, |s.vouchers|, kind, amount, tender, false, now);
  }

  // ----- numbers and barcodes as text -----

  lemma {:induction false} DecimalIsHex(code: string)
    requires AllDigits(code)
    ensures HexText(code) && ParseNumber(code) == ValueOf(code, 10)
  {
    if code != "" {
      DecimalIsHex(code[..|code| - 1]);
    }
  }

  lemma {:induction false} PaddedValue(k: nat, text: string, base: nat)
    requires HexText(text)
    ensures HexText(Zeros(k) + text) && ValueOf(Zeros(k) + text, base) == ValueOf(text, base)
    decreases |text|, k
  {
    var whole := Zeros(k) + text;
    if text != "" {
      var n := |text| - 1;
      PaddedValue(k, text[..n], base);
      assert whole[..|whole| - 1] == Zeros(k) + text[..n];
    } else if k > 0 {
      ZerosEnd(k);
      PaddedValue(k - 1, "", base);
      assert whole == Zeros(k) && whole[..|whole| - 1] == Zeros(k - 1) + "";
    }
  }

  function Pow16(k: nat): nat
  {
    if k == 0 then 1 else 16 * Pow16(k - 1)
  }

  lemma {:induction false} HexIsShort(n: nat, k: nat)
    requires k >= 1 && n < Pow16(k)
    ensures |Digits(n, 16)| <= k
  {
    if n >= 16 {
      assert Pow16(1) == 16 * Pow16(0) == 16;
      HexIsShort(n / 16, k - 1);
    }
  }

  lemma EightDigits(n: nat)
    requires n < 0x1_0000_0000
    ensures |Digits(n, 16)| <= 8
  {
    assert Pow16(2) == 0x100 && Pow16(4) == 0x1_0000 && Pow16(6) == 0x100_0000 && Pow16(8) == 0x1_0000_0000;
    HexIsShort(n, 8);
  }

  /** Padded to a width: at least that long, of the same value, and longer only without a leading zero. */
  lemma PaddedDigits(n: nat, base: nat)
    requires 2 <= base <= 16
    ensures var text := PadTo(Digits(n, base), 8);
            |text| >= 8 && HexText(text) && ValueOf(text, base) == n && (|text| > 8 && n > 0 ==> text[0] != '0')
            && (|Digits(n, base)| <= 8 ==> |text| == 8)
  {
    DigitsValue(n, base);
    var text := Digits(n, base);
    if |text| < 8 {
      ZerosEnd(8 - |text|);
      PaddedValue(8 - |text|, text, base);
    }
  }

  /**
    A barcode is ADV, the first eight hexadecimal digits of the 128-bit store, and the number
    in decimal, filled with zeros to eight digits.
   */
  lemma BarcodeText(store: Uuid, n: nat) returns (p: string, q: string)
    ensures Barcode(store, n) == "ADV-" + p + "-" + q
    ensures |p| >= 8 && HexText(p) && ValueOf(p, 16) == store / 0x1_0000_0000_0000_0000_0000_0000
    ensures store < 0x1_0000_0000_0000_0000_0000_0000_0000_0000 ==> |p| == 8
    ensures |q| >= 8 && IsNumber(q) && HexText(q) && ValueOf(q, 10) == n && (|q| > 8 && n > 0 ==> q[0] != '0')
  {
    p, q := StorePrefix(store), PadTo(Digits(n, 10), 8);
    PaddedDigits(store / 0x1_0000_0000_0000_0000_0000_0000, 16);
    if store < 0x1_0000_0000_0000_0000_0000_0000_0000_0000 {
      EightDigits(store / 0x1_0000_0000_0000_0000_0000_0000);
    }
    PaddedDigits(n, 10);
    PaddedParses(n);
  }

  // ----- looking a voucher up -----

  /** The row has the code as its barcode, or an all-digit code is its number. */
  predicate Named(v: Advance, code: string)
  {
    v.barcode == code || (code != "" && AllDigits(code) && HexText(code) && v.number == ValueOf(code, 10))
  }

  ghost predicate FirstNamed(vouchers: seq<Advance>, code: string, i: nat)
  {
    i < |vouchers| && Named(vouchers[i], code) && forall j :: 0 <= j < i ==> !Named(vouchers[j], code)
  }

  lemma MatchIsNamed(v: Advance, code: string)
    ensures Matches(v, code) <==> Named(v, code)
  {
    if AllDigits(code) {
      DecimalIsHex(code);
    }
  }

  lemma {:induction false} MatchIsFirst(vouchers: seq<Advance>, code: string, n: nat, i: nat)
    requires n <= |vouchers| && forall j :: 0 <= j < n ==> !Named(vouchers[j], code)
    ensures FirstMatch(vouchers, code, n) == Some(i) <==> FirstNamed(vouchers, code, i)
    decreases |vouchers| - n
  {
    if n < |vouchers| {
      MatchIsNamed(vouchers[n], code);
      if !Named(vouchers[n], code) {
        MatchIsFirst(vouchers, code, n + 1, i);
      }
    }
  }

  /** What a row is at time t, whether or not its expiry has been written. */
  function SeenAt(v: Advance, t: Time): VoucherStatus
  {
    if v.status == ACTIVE && v.expiresAt <= t then EXPIRED else v.status
  }

  /** The row of a voucher whose expiry is written at time t, if it is due. */
  function Aged(v: Advance, t: Time): Advance
  {
    if SeenAt(v, t) == v.status then v else v.(status := EXPIRED, expiredAt := Some(t), updatedAt := t)
  }

  function ExpiryEvent(v: Advance, i: nat, t: Time): seq<Event>
  {
    if SeenAt(v, t) == v.status then [] else [Event(i, EventAction.Ended(EXPIRED), None, t)]
  }

  /** Row i is aged and the log says so; no other row and no money changes. */
  predicate OnlyAges(s: System, next: System, i: nat, t: Time, more: seq<Event>)
    requires i < |s.vouchers|
  {
    && next.cash == s.cash && |next.vouchers| == |s.vouchers| && next.vouchers[i] == Aged(s.vouchers[i], t)
    && (forall j :: 0 <= j < |s.vouchers| && j != i ==> next.vouchers[j] == s.vouchers[j])
    && next.events == s.events + ExpiryEvent(s.vouchers[i], i, t) + more
  }

  /** LOOKUP finds the first row named by the code, shows what it is when checked, ages it and logs VALIDATED. */
  lemma LookupLaw(s: System, code: string, i: nat, checkedAt: Time, now: Time)
    requires FirstNamed(s.vouchers, code, i)
    ensures var r := Lookup(code, checkedAt);
            && Answer(s, r, now) == Shown(i, SeenAt(s.vouchers[i], checkedAt))
            && OnlyAges(s, After(s, r, now), i, checkedAt, [Event(i, EventAction.VALIDATED, None, now)])
  {
    MatchIsFirst(s.vouchers, code, 0, i);
    AfterLookup(s, code, checkedAt, now);
  }

  /** A code that names no row is answered with NotFound and leaves no trace. */
  lemma LookupNothing(s: System, code: string, checkedAt: Time, now: Time)
    requires forall j :: 0 <= j < |s.vouchers| ==> !Named(s.vouchers[j], code)
    ensures After(s, Lookup(code, checkedAt), now) == s && Answer(s, Lookup(code, checkedAt), now) == Reply.NotFound
  {
    var found := FirstMatch(s.vouchers, code, 0);
    if found.Some? {
      MatchIsNamed(s.vouchers[found.value], code);
    }
    AfterLookup(s, code, checkedAt, now);
  }

  /** A number typed with any leading zeros names the vouchers of that number and no others. */
  lemma NumberNames(vouchers: seq<Advance>, v: Advance, n: nat, k: nat)
    requires Barcoded(vouchers) && v in vouchers
    ensures Named(v, Zeros(k) + Digits(n, 10)) <==> v.number == n
  {
    var code := Zeros(k) + Digits(n, 10);
    DigitsParse(n);
    ZerosVanish(k, Digits(n, 10));
    DecimalIsHex(code);
    assert v.barcode[0] == 'A';
  }

  /** So within its store a voucher is found by its number alone, as it is by its barcode. */
  lemma NumberFindsOwn(vouchers: seq<Advance>, i: nat, j: nat, k: nat)
    requires InSequence(vouchers) && Barcoded(vouchers) && i < |vouchers| && j < |vouchers|
    requires vouchers[j].tenant == vouchers[i].tenant && vouchers[j].store == vouchers[i].store
    ensures vouchers[i].number >= 1 && (Named(vouchers[j], Zeros(k) + Digits(vouchers[i].number, 10)) <==> i == j)
  {
    assert vouchers[i] in vouchers && vouchers[j] in vouchers;
    NumberNames(vouchers, vouchers[j], vouchers[i].number, k);
    if i < j {
      NumbersIncrease(vouchers, i, j);
    } else if j < i {
      NumbersIncrease(vouchers, j, i);
    }
  }

  /** GET shows what the row is now and ages it; an unknown voucher is refused. */
  lemma GetLaw(s: System, i: nat, now: Time)
    ensures i >= |s.vouchers| ==> RefusedWith(s, Get(i), now, Error.NotFound)
    ensures i < |s.vouchers| ==>
              Answer(s, Get(i), now) == Shown(i, SeenAt(s.vouchers[i], now)) && OnlyAges(s, After(s, Get(i), now), i, now, [])
  {
    AfterGet(s, i, now);
  }

  // ----- sweeps and listings -----

  predicate InStore(v: Advance, tenant: Uuid, store: Uuid)
  {
    v.tenant == tenant && v.store == store
  }

  predicate DueIn(v: Advance, tenant: Uuid, store: Uuid, now: Time)
  {
    InStore(v, tenant, store) && v.status == ACTIVE && v.expiresAt <= now
  }

  predicate InRowOrder(es: seq<Event>)
  {
    forall a, b :: 0 <= a < b < |es| ==> es[a].voucher < es[b].voucher
  }

  predicate Mentions(es: seq<Event>, i: nat)
  {
    exists k :: 0 <= k < |es| && es[k].voucher == i
  }

  /** One EXPIRED event for each due row among the first n, in table order, and nothing else. */
  ghost predicate LogsDue(es: seq<Event>, vouchers: seq<Advance>, tenant: Uuid, store: Uuid, now: Time, n: nat)
    requires n <= |vouchers|
  {
    && (forall k :: 0 <= k < |es| ==> es[k].action == EventAction.Ended(EXPIRED) && es[k].application == None && es[k].at == now)
    && InRowOrder(es)
    && forall i: nat :: Mentions(es, i) <==> i < n && DueIn(vouchers[i], tenant, store, now)
  }

  lemma {:induction false} DueAreLogged(vouchers: seq<Advance>, tenant: Uuid, store: Uuid, now: Time, n: nat)
    requires n <= |vouchers|
    ensures LogsDue(DueEvents(vouchers, tenant, store, n, now), vouchers, tenant, store, now, n)
  {
    if n > 0 {
      DueAreLogged(vouchers, tenant, store, now, n - 1);
      var rest, es := DueEvents(vouchers, tenant, store, n - 1, now), DueEvents(vouchers, tenant, store, n, now);
      forall k | 0 <= k < |rest| ensures rest[k].voucher < n - 1 {
        assert Mentions(rest, rest[k].voucher);
      }
      forall i: nat ensures Mentions(es, i) <==> i < n && DueIn(vouchers[i], tenant, store, now) {
        MentionsOneMore(rest, Event(n - 1, EventAction.Ended(EXPIRED), None, now), i);
      }
    }
  }

  lemma MentionsOneMore(es: seq<Event>, e: Event, i: nat)
    ensures Mentions(es + [e], i) <==> Mentions(es, i) || e.voucher == i
  {
    if e.voucher == i {
      assert (es + [e])[|es|].voucher == i;
    }
    if k :| 0 <= k < |es| && es[k].voucher == i {
      assert (es + [e])[k].voucher == i;
    }
  }

  /** Every row of the store is aged, no other row changes, and each expiry written is logged once. */
  ghost predicate AgesStore(s: System, next: System, tenant: Uuid, store: Uuid, now: Time)
  {
    && next.cash == s.cash && |next.vouchers| == |s.vouchers|
    && (forall i :: 0 <= i < |s.vouchers| ==>
          next.vouchers[i] == if InStore(s.vouchers[i], tenant, store) then Aged(s.vouchers[i], now) else s.vouchers[i])
    && s.events <= next.events && LogsDue(next.events[|s.events|..], s.vouchers, tenant, store, now, |s.vouchers|)
  }

  lemma SweepLaw(s: System, tenant: Uuid, store: Uuid, now: Time)
    ensures AgesStore(s, After(s, Sweep(tenant, store), now), tenant, store, now)
    ensures Answer(s, Sweep(tenant, store), now) == Accepted
  {
    SweepEffect(s, tenant, store, |s.vouchers|, now);
    SweepLogs(s, tenant, store, |s.vouchers|, now);
    DueAreLogged(s.vouchers, tenant, store, now, |s.vouchers|);
    var due := DueEvents(s.vouchers, tenant, store, |s.vouchers|, now);
    assert (s.events + due)[|s.events|..] == due;
  }

  /** What a filter asks of a row at the time of the call. */
  predicate Wanted(filter: Filter, v: Advance, now: Time)
  {
    && (filter.WithStatus? ==> SeenAt(v, now) == filter.status)
    && (filter.ExpiringIn? ==> SeenAt(v, now) == ACTIVE && now <= v.expiresAt && v.expiresAt <= now + filter.days * 86_400_000_000)
  }

  predicate LinesInOrder(lines: seq<Line>)
  {
    forall a, b :: 0 <= a < b < |lines| ==> lines[a].voucher < lines[b].voucher
  }

  /** One line for each wanted row of the store among the first n, showing what it is now. */
  ghost predicate Lists(lines: seq<Line>, vouchers: seq<Advance>, tenant: Uuid, store: Uuid, filter: Filter, now: Time, n: nat)
    requires n <= |vouchers|
  {
    && LinesInOrder(lines)
    && forall i: nat, status :: Line(i, status) in lines <==>
         i < n && InStore(vouchers[i], tenant, store) && Wanted(filter, vouchers[i], now) && status == SeenAt(vouchers[i], now)
  }

  lemma {:induction false} ViewedLists(vouchers: seq<Advance>, tenant: Uuid, store: Uuid, filter: Filter, now: Time, n: nat)
    requires n <= |vouchers|
    ensures Lists(Viewed(vouchers, tenant, store, filter, now, n), vouchers, tenant, store, filter, now, n)
  {
    if n > 0 {
      ViewedLists(vouchers, tenant, store, filter, now, n - 1);
      var rest := Viewed(vouchers, tenant, store, filter, now, n - 1);
      forall k | 0 <= k < |rest| ensures rest[k].voucher < n - 1 {
        assert Line(rest[k].voucher, rest[k].status) in rest;
      }
    }
  }

  /** A listing ages the store as a sweep does and then shows the wanted rows, each once, in table order. */
  lemma BrowseLaw(s: System, tenant: Uuid, store: Uuid, filter: Filter, now: Time)
    ensures var r := Browse(tenant, store, filter);
            && AgesStore(s, After(s, r, now), tenant, store, now)
            && Answer(s, r, now).Listed? && Lists(Answer(s, r, now).lines, s.vouchers, tenant, store, filter, now, |s.vouchers|)
  {
    SweepLaw(s, tenant, store, now);
    BrowseShowsView(s, tenant, store, filter, now);
    ViewedLists(s.vouchers, tenant, store, filter, now, |s.vouchers|);
  }

  /** The cash routers work on the money tables alone; a request in the name of a voucher does not come from them. */
  lemma CashLaw(s: System, request: CashModel.Request, now: Time)
    ensures var next, answer := After(s, Cash(request), now), Answer(s, Cash(request), now);
            && next.vouchers == s.vouchers && next.events == s.events
            && (if request.PayVoucherCash? || request.PostVoucher? || (request.TakeSaleCash? && request.ref.VoucherRef?)
                then RefusedWith(s, Cash(request), now, ValidationError)
                else var step := Step(s.cash, request, now);
                     && (step.Ok? ==> next.cash == step.value && answer == Accepted)
                     && (step.Err? ==> next.cash == s.cash && answer == Refused(step.error)))
  {
  }
}
