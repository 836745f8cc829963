/** What holds of every run of the cash and voucher requests together. */
module VoucherTheorems {
  import opened Common
  import opened CashModel
  import opened CashInvariants
  import opened Text
  import opened VoucherModel
  import opened VoucherInvariants

  // ----- runs -----

  datatype Timed = Timed(request: VoucherModel.Request, now: Time)

  function Run(s: System, steps: seq<Timed>): System
  {
    if steps == [] then s
    else After(Run(s, steps[..|steps| - 1]), steps[|steps| - 1].request, steps[|steps| - 1].now)
  }

  function Clock(start: Time, steps: seq<Timed>): Time
  {
    if steps == [] then start else steps[|steps| - 1].now
  }

  ghost predicate InOrder(start: Time, steps: seq<Timed>)
  {
    steps == []
    || (InOrder(start, steps[..|steps| - 1])
        && InTime(steps[|steps| - 1].request, Clock(start, steps[..|steps| - 1]), steps[|steps| - 1].now))
  }

  const START := System(EMPTY, [], [])

  lemma {:induction false} RunKeeps(s: System, start: Time, steps: seq<Timed>)
    requires SystemInv(s, start) && InOrder(start, steps)
    ensures SystemInv(Run(s, steps), Clock(start, steps))
    ensures s.cash.closes <= Run(s, steps).cash.closes
  {
    if steps != [] {
      var n := |steps| - 1;
      RunKeeps(s, start, steps[..n]);
      AfterKeeps(Run(s, steps[..n]), steps[n].request, Clock(start, steps[..n]), steps[n].now);
    }
  }

  lemma Reachable(start: Time, steps: seq<Timed>)
    requires InOrder(start, steps)
    ensures SystemInv(Run(START, steps), Clock(start, steps))
  {
    RunKeeps(START, start, steps);
  }

  /** A closed day stays frozen while vouchers are issued, refunded and swept as well. */
  lemma ClosedDayFrozen(s: System, start: Time, steps: seq<Timed>, record: DayClose)
    requires SystemInv(s, start) && InOrder(start, steps) && record in s.cash.closes && record.status == Closed
    ensures Rollup(Run(s, steps).cash.movements, record.day) == Rollup(s.cash.movements, record.day) == record.totals
  {
    RunKeeps(s, start, steps);
    assert record in Run(s, steps).cash.closes;
  }

  // ----- conservation -----

  /** All money taken in for vouchers is still active, was applied to sales, was paid back, or expired. */
  lemma Conservation(s: System)
    requires VInv(s)
    ensures Sum(s.cash.movements, PaidIn())
            == Sum(s.vouchers, InStatus(ACTIVE)) + Sum(s.events, Applied())
               + Sum(s.cash.movements, PaidOut()) + Sum(s.vouchers, InStatus(EXPIRED))
  {
    ByStatus(s.vouchers);
  }

  lemma {:induction false} ByStatus(vouchers: seq<Advance>)
    ensures Sum(vouchers, FaceValue())
            == Sum(vouchers, InStatus(ACTIVE)) + Sum(vouchers, InStatus(CONSUMED))
               + Sum(vouchers, InStatus(REFUNDED)) + Sum(vouchers, InStatus(EXPIRED))
  {
    if vouchers != [] {
      ByStatus(vouchers[..|vouchers| - 1]);
    }
  }

  // ----- the log -----

  function CountIssued(events: seq<Event>, i: nat): nat
  {
    if events == [] then 0
    else CountIssued(events[..|events| - 1], i)
         + (if events[|events| - 1].voucher == i && events[|events| - 1].action.ISSUED? then 1 else 0)
  }

  function CountEnded(events: seq<Event>, i: nat, status: VoucherStatus): nat
  {
    if events == [] then 0
    else CountEnded(events[..|events| - 1], i, status)
         + (if events[|events| - 1].voucher == i && events[|events| - 1].action == EventAction.Ended(status) then 1 else 0)
  }

  lemma {:induction false} ReplayCounts(events: seq<Event>, i: nat)
    ensures Replay(events, i) == Unborn ==>
              CountIssued(events, i) == 0 && forall status :: CountEnded(events, i, status) == 0
    ensures Replay(events, i).Live? ==>
              CountIssued(events, i) == 1
              && forall status :: CountEnded(events, i, status)
                                  == if status != ACTIVE && Replay(events, i) == Live(status) then 1 else 0
  {
    if events != [] {
      ReplayCounts(events[..|events| - 1], i);
    }
  }

  /** One ISSUED event; no terminal event while ACTIVE, afterwards exactly one, that of the status. */
  lemma LogMatchesStatus(s: System, i: nat)
    requires VInv(s) && i < |s.vouchers|
    ensures CountIssued(s.events, i) == 1
    ensures forall status :: CountEnded(s.events, i, status)
                             == if status != ACTIVE && s.vouchers[i].status == status then 1 else 0
  {
    assert LoggedAt(s.events, s.vouchers[i], i);
    ReplayCounts(s.events, i);
  }

  /** A terminal voucher keeps its status, its times and its links through every run. */
  lemma {:induction false} TerminalForEver(s: System, steps: seq<Timed>, i: nat)
    requires i < |s.vouchers|
    ensures i < |Run(s, steps).vouchers| && Settles(s.vouchers[i], Run(s, steps).vouchers[i])
  {
    if steps != [] {
      var n := |steps| - 1;
      TerminalForEver(s, steps[..n], i);
      StepSettles(Run(s, steps[..n]), steps[n].request, steps[n].now, i);
    }
  }

  // ----- numbers and barcodes -----

  lemma {:induction false} InSequenceAt(vouchers: seq<Advance>, i: nat)
    requires InSequence(vouchers) && i < |vouchers|
    ensures vouchers[i].number == CountIn(vouchers[..i], vouchers[i].tenant, vouchers[i].store) + 1
  {
    var n := |vouchers| - 1;
    if i < n {
      InSequenceAt(vouchers[..n], i);
      assert vouchers[..n][..i] == vouchers[..i];
    } else {
      assert vouchers[..n] == vouchers[..i];
    }
  }

  lemma {:induction false} CountGrows(vouchers: seq<Advance>, tenant: Uuid, store: Uuid, i: nat)
    requires i <= |vouchers|
    ensures CountIn(vouchers[..i], tenant, store) <= CountIn(vouchers, tenant, store)
    ensures i < |vouchers| && InScope(vouchers[i], tenant, store) ==>
              CountIn(vouchers[..i], tenant, store) < CountIn(vouchers, tenant, store)
  {
    var n := |vouchers| - 1;
    if i <= n {
      CountGrows(vouchers[..n], tenant, store, i);
      assert vouchers[..n][..i] == vouchers[..i];
    } else {
      assert vouchers[..i] == vouchers;
    }
  }

  /** Within a store a later voucher has a higher number, none of them beyond the store's count. */
  lemma NumbersIncrease(vouchers: seq<Advance>, i: nat, j: nat)
    requires InSequence(vouchers) && i < j < |vouchers| && InScope(vouchers[i], vouchers[j].tenant, vouchers[j].store)
    ensures 1 <= vouchers[i].number < vouchers[j].number
  {
    var before := vouchers[..j];
    InSequenceAt(vouchers, i);
    InSequenceAt(vouchers, j);
    assert before[..i] == vouchers[..i] && before[i] == vouchers[i];
    CountGrows(before, vouchers[j].tenant, vouchers[j].store, i);
  }

  ghost predicate HasNumber(vouchers: seq<Advance>, tenant: Uuid, store: Uuid, number: int)
  {
    exists v :: v in vouchers && InScope(v, tenant, store) && v.number == number
  }

  lemma HasNumberAppend(vouchers: seq<Advance>, v: Advance, tenant: Uuid, store: Uuid, number: int)
    ensures HasNumber(vouchers + [v], tenant, store, number)
            <==> HasNumber(vouchers, tenant, store, number) || (InScope(v, tenant, store) && v.number == number)
  {
    assert forall x :: x in vouchers + [v] <==> x in vouchers || x == v;
  }

  /** The numbers given out in a store are exactly 1..k, k being the number of its vouchers. */
  lemma {:induction false} NumbersAreExact(vouchers: seq<Advance>, tenant: Uuid, store: Uuid, number: int)
    requires InSequence(vouchers)
    ensures HasNumber(vouchers, tenant, store, number) <==> 1 <= number <= CountIn(vouchers, tenant, store)
  {
    if vouchers != [] {
      var init, last := vouchers[..|vouchers| - 1], vouchers[|vouchers| - 1];
      NumbersAreExact(init, tenant, store, number);
      HasNumberAppend(init, last, tenant, store, number);
      assert vouchers == init + [last];
    }
  }

  lemma {:induction false} DigitsParse(n: nat)
    ensures AllDigits(Digits(n, 10)) && ParseNumber(Digits(n, 10)) == n && Digits(n, 10) != ""
    decreases n
  {
    var text := Digits(n, 10);
    if n < 10 {
      assert text[..0] == "";
      DigitValue(n);
    } else {
      DigitsParse(n / 10);
      DigitValue(n % 10);
      assert text[..|text| - 1] == Digits(n / 10, 10);
    }
  }

  lemma DigitValue(d: nat)
    requires d < 10
    ensures '0' <= Digit(d) <= '9' && Digit(d) as int - '0' as int == d
  {
    assert "0123456789abcdef"[0] == '0';
  }

  lemma {:induction false} ZerosVanish(k: nat, text: string)
    requires AllDigits(text)
    ensures AllDigits(Zeros(k) + text) && ParseNumber(Zeros(k) + text) == ParseNumber(text)
  {
    if text == "" {
      if k > 0 {
        ZerosEnd(k);
        assert (Zeros(k) + text)[..k - 1] == Zeros(k - 1) + "";
        ZerosVanish(k - 1, "");
      }
    } else {
      var n := |text| - 1;
      ZerosVanish(k, text[..n]);
      assert (Zeros(k) + text)[..k + n] == Zeros(k) + text[..n] by {
        ZerosEnd(k);
      }
    }
  }

  lemma {:induction false} ZerosEnd(k: nat)
    ensures |Zeros(k)| == k && forall x :: 0 <= x < k ==> Zeros(k)[x] == '0'
    ensures k > 0 ==> Zeros(k)[..k - 1] == Zeros(k - 1)
  {
    if k > 0 {
      ZerosEnd(k - 1);
    }
  }

  lemma PaddedText(text: string, width: nat)
    requires IsNumber(text)
    ensures IsNumber(PadTo(text, width)) && ParseNumber(PadTo(text, width)) == ParseNumber(text)
  {
    if |text| < width {
      ZerosVanish(width - |text|, text);
    }
  }

  /** The zero-padded part reads back as the number it was made of, also past eight digits. */
  lemma PaddedParses(n: nat)
    ensures IsNumber(PadTo(Digits(n, 10), 8)) && ParseNumber(PadTo(Digits(n, 10), 8)) == n
  {
    DigitsParse(n);
    PaddedText(Digits(n, 10), 8);
  }

  /** Within a store different numbers give different barcodes. */
  lemma BarcodesDistinct(store: Uuid, m: nat, n: nat)
    ensures Barcode(store, m) == Barcode(store, n) <==> m == n
  {
    PaddedParses(m);
    PaddedParses(n);
    var head := "ADV-" + StorePrefix(store) + "-";
    assert Barcode(store, m) == head + PadTo(Digits(m, 10), 8);
    assert Barcode(store, n) == head + PadTo(Digits(n, 10), 8);
    assert Barcode(store, m)[|head|..] == PadTo(Digits(m, 10), 8);
    assert Barcode(store, n)[|head|..] == PadTo(Digits(n, 10), 8);
  }

  predicate NoDash(text: string)
  {
    forall i :: 0 <= i < |text| ==> text[i] != '-'
  }

  lemma {:induction false} DigitsNoDash(n: nat, base: nat)
    requires 2 <= base <= 16
    ensures NoDash(Digits(n, base))
    decreases n
  {
    DigitNoDash(n % base);
    if n >= base {
      DigitsNoDash(n / base, base);
    }
  }

  lemma DigitNoDash(d: nat)
    requires d < 16
    ensures Digit(d) != '-'
  {
  }

  lemma PrefixNoDash(store: Uuid)
    ensures NoDash(StorePrefix(store))
  {
    var text := Digits(store / 0x1_0000_0000_0000_0000_0000_0000, 16);
    DigitsNoDash(store / 0x1_0000_0000_0000_0000_0000_0000, 16);
    PaddedNoDash(text, 8);
  }

  lemma PaddedNoDash(text: string, width: nat)
    requires NoDash(text)
    ensures NoDash(PadTo(text, width))
  {
    if |text| < width {
      ZerosEnd(width - |text|);
    }
  }

  /** The first dash tells where the parts meet. */
  lemma DashSplits(a: string, b: string, c: string, e: string)
    requires NoDash(a) && NoDash(c) && a + "-" + b == c + "-" + e
    ensures a == c && b == e
  {
    var whole := a + "-" + b;
    assert whole[|a|] == '-' && whole[|c|] == '-';
    forall i | 0 <= i < |a| ensures whole[i] != '-' {
      assert whole[i] == a[i];
    }
    forall i | 0 <= i < |c| ensures whole[i] != '-' {
      assert whole[i] == c[i];
    }
    assert a == whole[..|a|] && c == whole[..|c|];
    assert b == whole[|a| + 1..] && e == whole[|c| + 1..];
  }

  /** Barcodes are equal exactly when the numbers and the first parts of the stores are. */
  lemma BarcodesEqual(s: Uuid, m: nat, t: Uuid, n: nat)
    ensures Barcode(s, m) == Barcode(t, n) <==> StorePrefix(s) == StorePrefix(t) && m == n
  {
    PrefixNoDash(s);
    PrefixNoDash(t);
    if Barcode(s, m) == Barcode(t, n) {
      var p, q := PadTo(Digits(m, 10), 8), PadTo(Digits(n, 10), 8);
      AfterHead(StorePrefix(s), p, StorePrefix(t), q);
      DashSplits(StorePrefix(s), p, StorePrefix(t), q);
      PaddedParses(m);
      PaddedParses(n);
    }
  }

  lemma AfterHead(a: string, b: string, c: string, e: string)
    requires "ADV-" + a + "-" + b == "ADV-" + c + "-" + e
    ensures a + "-" + b == c + "-" + e
  {
    assert ("ADV-" + a + "-" + b)[4..] == a + "-" + b;
    assert ("ADV-" + c + "-" + e)[4..] == c + "-" + e;
  }

  /** A voucher of another store of the tenant whose barcode is the next one of this store. */
  ghost predicate Clashes(s: System, d: Drawer, v: Advance)
  {
    v.tenant == d.tenant && v.store != d.store && StorePrefix(v.store) == StorePrefix(d.store) && v.number == NextNumber(s, d)
  }

  /**
    In every reachable state an issue of a positive amount is refused for its barcode if and only if another
    store of the tenant with the same first eight digits has a voucher with this store's next number.
   */
  lemma ClashIffSamePrefix(s: System, clock: Time, d: Drawer, amount: Money)
    requires SystemInv(s, clock) && amount > 0
    ensures IssueRefusal(s, d, amount) == Some(IntegrityError) <==> exists v :: v in s.vouchers && Clashes(s, d, v)
  {
    var next := NextNumber(s, d);
    forall v | v in s.vouchers ensures v.tenant == d.tenant && v.barcode == Barcode(d.store, next) <==> Clashes(s, d, v) {
      assert v.number >= 1 && v.barcode == Barcode(v.store, v.number);
      BarcodesEqual(v.store, v.number, d.store, next);
    }
  }

  /** Two stores of a tenant whose identifiers begin alike. */
  function FirstStore(tenant: Uuid, cashier: Uuid): Drawer
  {
    Drawer(tenant, 0, cashier)
  }

  function SecondStore(tenant: Uuid, cashier: Uuid): Drawer
  {
    Drawer(tenant, 1, cashier)
  }

  function FirstIssue(tenant: Uuid, cashier: Uuid): seq<Timed>
  {
    [Timed(Issue(FirstStore(tenant, cashier), 10, ByCard, GIFT_CARD), 0)]
  }

  lemma FirstIssueInOrder(tenant: Uuid, cashier: Uuid)
    ensures InOrder(0, FirstIssue(tenant, cashier)) && Clock(0, FirstIssue(tenant, cashier)) == 0
  {
    var steps := FirstIssue(tenant, cashier);
    assert steps[..0] == [];
    assert InOrder(0, steps[..0]) && Clock(0, steps[..0]) == 0;
    assert InTime(steps[0].request, 0, 0);
  }

  lemma FirstIssued(tenant: Uuid, cashier: Uuid)
    ensures var vouchers := Run(START, FirstIssue(tenant, cashier)).vouchers;
            |vouchers| == 1 && vouchers[0].tenant == tenant && vouchers[0].store == 0 && vouchers[0].number == 1
  {
    var d := FirstStore(tenant, cashier);
    assert FirstIssue(tenant, cashier)[..0] == [];
    assert NextNumber(START, d) == 1 && IssueRefusal(START, d, 10).None?;
    assert IssueStep(START, d, 10, ByCard, GIFT_CARD, 0).Ok?;
    IssueAdds(START, d, 10, ByCard, GIFT_CARD, 0);
  }

  lemma NoneOfSecondStore(s: System, tenant: Uuid, cashier: Uuid)
    requires |s.vouchers| == 1 && s.vouchers[0].store == 0
    ensures NextNumber(s, SecondStore(tenant, cashier)) == 1
  {
    var v := s.vouchers[0];
    assert s.vouchers[..0] == [] && v.store != 1;
    assert MaxNumber([], tenant, 1) == 0;
    assert MaxNumber(s.vouchers, tenant, 1) == 0;
  }

  lemma SamePrefix()
    ensures StorePrefix(0) == StorePrefix(1)
  {
    var unit := 0x1_0000_0000_0000_0000_0000_0000;
    assert 0 / unit == 1 / unit == 0;
  }

  /** The first voucher of the second store is refused once the first store has issued one. */
  lemma ClashHappens(tenant: Uuid, cashier: Uuid)
    ensures InOrder(0, FirstIssue(tenant, cashier))
    ensures IssueRefusal(Run(START, FirstIssue(tenant, cashier)), SecondStore(tenant, cashier), 10) == Some(IntegrityError)
  {
    var s := Run(START, FirstIssue(tenant, cashier));
    FirstIssueInOrder(tenant, cashier);
    Reachable(0, FirstIssue(tenant, cashier));
    FirstIssued(tenant, cashier);
    NoneOfSecondStore(s, tenant, cashier);
    SamePrefix();
    assert s.vouchers[0] in s.vouchers && Clashes(s, SecondStore(tenant, cashier), s.vouchers[0]);
    ClashIffSamePrefix(s, 0, SecondStore(tenant, cashier), 10);
  }

  /** Scanning a voucher's barcode finds, among the vouchers of its store, that voucher only. */
  lemma ScanFindsOwn(vouchers: seq<Advance>, i: nat, j: nat)
    requires InSequence(vouchers) && Barcoded(vouchers) && i < |vouchers| && j < |vouchers|
    requires vouchers[j].tenant == vouchers[i].tenant && vouchers[j].store == vouchers[i].store
    ensures Matches(vouchers[j], vouchers[i].barcode) <==> i == j
  {
    assert vouchers[i] in vouchers && vouchers[j] in vouchers;
    BarcodesDistinct(vouchers[i].store, vouchers[i].number, vouchers[j].number);
    assert vouchers[i].barcode[0] == 'A';
    if i < j {
      NumbersIncrease(vouchers, i, j);
    } else if j < i {
      NumbersIncrease(vouchers, j, i);
    }
  }

  // ----- expiry -----

  /** Step k of a run ended voucher i: it was ACTIVE before and is not any more. */
  ghost predicate EndsAt(steps: seq<Timed>, i: nat, k: nat)
  {
    && k < |steps| && i < |Run(START, steps[..k]).vouchers| && i < |Run(START, steps[..k + 1]).vouchers|
    && Run(START, steps[..k]).vouchers[i].status == ACTIVE && Run(START, steps[..k + 1]).vouchers[i].status != ACTIVE
  }

  predicate Spent(v: Advance)
  {
    v.status == CONSUMED || v.status == REFUNDED
  }

  /** The movement at m is the one a step appended, and pays voucher i back. */
  ghost predicate PaysBack(before: System, after: System, i: nat, amount: Money, m: nat)
  {
    && m == |before.cash.movements| && |after.cash.movements| == m + 1
    && after.cash.movements[m].ref == VoucherRef(i) && after.cash.movements[m].amount == amount
    && IsRefund(after.cash.movements[m].action)
  }

  /**
    An action on the voucher that checked before its expiry and stamped it with its second clock reading:
    a CONSUME, whose sale the row carries, or a REFUND, whose own movement the row carries.
   */
  ghost predicate Spends(before: System, t: Timed, i: nat, v: Advance)
  {
    && t.request.Mutate? && t.request.voucher == i && t.request.checkedAt < v.expiresAt && v.updatedAt == t.now
    && (v.status == CONSUMED ==> t.request.action.Consume? && v.consumedSale == t.request.action.sale)
    && (v.status == REFUNDED ==>
          && t.request.action.Refund? && v.refundedAt == Some(t.now)
          && v.refundMovement.Some? && PaysBack(before, After(before, t.request, t.now), i, v.amount, v.refundMovement.value))
  }

  lemma MutateSpends(s: System, i: nat, cashier: Uuid, action: VoucherAction, checkedAt: Time, now: Time)
    requires MutateStep(s, i, cashier, action, checkedAt, now).Ok? && Spent(MutateStep(s, i, cashier, action, checkedAt, now).value.vouchers[i])
    ensures Spends(s, Timed(Mutate(i, cashier, action, checkedAt), now), i, MutateStep(s, i, cashier, action, checkedAt, now).value.vouchers[i])
  {
    if action.Refund? {
      var v := s.vouchers[i];
      PayAppends(s.cash, Drawer(v.tenant, v.store, cashier), i, v.kind, v.amount, action.tender.value, true, now);
    }
  }

  /** A step that leaves a voucher consumed or refunded found it so, or is an action on it checked before its expiry. */
  lemma StepSpends(s: System, t: Timed, i: nat)
    requires i < |After(s, t.request, t.now).vouchers| && Spent(After(s, t.request, t.now).vouchers[i])
    ensures i < |s.vouchers|
    ensures var v := After(s, t.request, t.now).vouchers[i];
            s.vouchers[i] == v || (s.vouchers[i].status == ACTIVE && Spends(s, t, i, v))
  {
    var r := t.request;
    if r.Issue? {
      IssueAdds(s, r.drawer, r.amount, r.tender, r.kind, t.now);
    } else {
      StepSettles(s, r, t.now, if i < |s.vouchers| then i else 0);
      if r.Sweep? || r.Browse? {
        SweepEffect(s, r.tenant, r.store, |s.vouchers|, t.now);
      } else if r.Mutate? && r.voucher == i && MutateStep(s, i, r.cashier, r.action, r.checkedAt, t.now).Ok? {
        MutateSpends(s, i, r.cashier, r.action, r.checkedAt, t.now);
      }
    }
  }

  lemma RunPrefix(steps: seq<Timed>, k: nat)
    requires k < |steps|
    ensures Run(START, steps[..k + 1]) == After(Run(START, steps[..k]), steps[k].request, steps[k].now)
  {
    assert steps[..k + 1][..k] == steps[..k];
  }

  /** One step back: a voucher that was not there is not, one that is ACTIVE was, if it was there. */
  lemma StepBack(steps: seq<Timed>, i: nat, n: nat)
    requires n < |steps|
    ensures i >= |Run(START, steps[..n + 1]).vouchers| ==> i >= |Run(START, steps[..n]).vouchers|
    ensures i < |Run(START, steps[..n]).vouchers| ==> i < |Run(START, steps[..n + 1]).vouchers|
    ensures i < |Run(START, steps[..n]).vouchers| && Run(START, steps[..n + 1]).vouchers[i].status == ACTIVE ==>
              Run(START, steps[..n]).vouchers[i].status == ACTIVE
  {
    RunPrefix(steps, n);
    var before := Run(START, steps[..n]);
    if i < |before.vouchers| {
      StepSettles(before, steps[n].request, steps[n].now, i);
    }
  }

  lemma NotEndedLast(steps: seq<Timed>, i: nat, n: nat)
    requires 0 < n <= |steps|
    requires i < |Run(START, steps[..n]).vouchers| ==> Run(START, steps[..n]).vouchers[i].status == ACTIVE
    ensures !EndsAt(steps, i, n - 1)
  {
  }

  /** A voucher that is ACTIVE after n steps, or not there yet, was not ended by any of them. */
  lemma {:induction false} ActiveBefore(steps: seq<Timed>, i: nat, n: nat, j: nat)
    requires j < n <= |steps|
    requires i < |Run(START, steps[..n]).vouchers| ==> Run(START, steps[..n]).vouchers[i].status == ACTIVE
    ensures !EndsAt(steps, i, j)
  {
    if j == n - 1 {
      NotEndedLast(steps, i, n);
    } else {
      StepBack(steps, i, n - 1);
      ActiveBefore(steps, i, n - 1, j);
    }
  }

  /** Step k ended voucher i and no other step did. */
  ghost predicate OnlyEnd(steps: seq<Timed>, i: nat, k: nat)
  {
    EndsAt(steps, i, k) && forall j: nat :: EndsAt(steps, i, j) ==> j == k
  }

  lemma PrefixEnds(steps: seq<Timed>, i: nat, j: nat)
    requires j + 1 < |steps|
    ensures EndsAt(steps, i, j) <==> EndsAt(steps[..|steps| - 1], i, j)
  {
    assert steps[..|steps| - 1][..j] == steps[..j] && steps[..|steps| - 1][..j + 1] == steps[..j + 1];
  }

  /** A voucher that had ended before the last step is not ended by it. */
  lemma OnlyEndGrows(steps: seq<Timed>, i: nat, k: nat)
    requires steps != [] && OnlyEnd(steps[..|steps| - 1], i, k)
    requires i < |Run(START, steps[..|steps| - 1]).vouchers| && Run(START, steps[..|steps| - 1]).vouchers[i].status != ACTIVE
    ensures OnlyEnd(steps, i, k)
  {
    PrefixEnds(steps, i, k);
    forall j: nat | EndsAt(steps, i, j) ensures j == k {
      if j + 1 < |steps| {
        PrefixEnds(steps, i, j);
      }
    }
  }

  lemma OnlyEndLast(steps: seq<Timed>, i: nat)
    requires steps != [] && EndsAt(steps, i, |steps| - 1)
    ensures OnlyEnd(steps, i, |steps| - 1)
  {
    forall j: nat | j < |steps| - 1 ensures !EndsAt(steps, i, j) {
      ActiveBefore(steps, i, |steps| - 1, j);
    }
  }

  /**
    In every run, a consumed or refunded voucher was ended by exactly one step: an action on it whose
    expiry check came before its expiry and whose second clock reading is the time it is stamped with.
    A consumed one carries the sale of that request, a refunded one the movement that step posted.
   */
  lemma {:induction false} EndedByOneAction(steps: seq<Timed>, i: nat) returns (k: nat)
    requires i < |Run(START, steps).vouchers| && Spent(Run(START, steps).vouchers[i])
    ensures OnlyEnd(steps, i, k) && Spends(Run(START, steps[..k]), steps[k], i, Run(START, steps).vouchers[i])
    ensures Run(START, steps[..k + 1]).vouchers[i] == Run(START, steps).vouchers[i]
  {
    var n := |steps| - 1;
    assert steps != [];
    assert steps[..n + 1] == steps;
    StepSpends(Run(START, steps[..n]), steps[n], i);
    if Run(START, steps[..n]).vouchers[i] == Run(START, steps).vouchers[i] {
      k := EndedByOneAction(steps[..n], i);
      OnlyEndGrows(steps, i, k);
      assert steps[..n][..k] == steps[..k] && steps[..n][..k + 1] == steps[..k + 1];
    } else {
      k := n;
      OnlyEndLast(steps, i);
    }
  }

  /** In every run, a voucher that names a sale has been consumed. */
  lemma SaleOnlyIfConsumed(start: Time, steps: seq<Timed>, i: nat)
    requires InOrder(start, steps) && i < |Run(START, steps).vouchers| && Run(START, steps).vouchers[i].consumedSale.Some?
    ensures Run(START, steps).vouchers[i].status == CONSUMED
  {
    Reachable(start, steps);
    assert LoggedAt(Run(START, steps).events, Run(START, steps).vouchers[i], i);
  }

  /**
    In every run, a consumed or refunded voucher is stamped at or after its expiry if and only if some
    action on it checked the expiry before it passed, read the clock again after, and ended the voucher.
   */
  lemma LateStampIffBetweenReadings(steps: seq<Timed>, i: nat)
    requires i < |Run(START, steps).vouchers| && Spent(Run(START, steps).vouchers[i])
    ensures var v := Run(START, steps).vouchers[i];
            v.expiresAt <= v.updatedAt <==> exists k: nat :: EndsAt(steps, i, k) && Straddles(steps[k], i, v.expiresAt)
  {
    var v := Run(START, steps).vouchers[i];
    var k := EndedByOneAction(steps, i);
    assert v.expiresAt <= v.updatedAt <==> Straddles(steps[k], i, v.expiresAt);
  }

  /** An action on the voucher with the expiry between its two clock readings. */
  predicate Straddles(t: Timed, i: nat, expiresAt: Time)
  {
    t.request.Mutate? && t.request.voucher == i && t.request.checkedAt < expiresAt <= t.now
  }

  /** So without such an action no run consumes or refunds a voucher at or after its expiry. */
  lemma NeverAfterExpiry(steps: seq<Timed>, i: nat)
    requires i < |Run(START, steps).vouchers| && Spent(Run(START, steps).vouchers[i])
    requires forall t :: t in steps ==> !Straddles(t, i, Run(START, steps).vouchers[i].expiresAt)
    ensures Run(START, steps).vouchers[i].updatedAt < Run(START, steps).vouchers[i].expiresAt
  {
    var k := EndedByOneAction(steps, i);
    assert steps[k] in steps;
  }

  /** A voucher paid by card, consumed by an action that checks just before expiry and writes on it. */
  function LateRun(d: Drawer): seq<Timed>
  {
    [Timed(Issue(d, 10, ByCard, GIFT_CARD), 0),
     Timed(Mutate(0, d.cashier, Consume(Some(10), None, false), LIFETIME - 1), LIFETIME)]
  }

  lemma LateRunIssues(d: Drawer)
    ensures var s := Run(START, LateRun(d)[..1]);
            |s.vouchers| == 1 && s.vouchers[0].status == ACTIVE && s.vouchers[0].expiresAt == LIFETIME && s.vouchers[0].amount == 10
  {
    var issue := Issue(d, 10, ByCard, GIFT_CARD);
    assert LateRun(d)[..1] == [Timed(issue, 0)] && LateRun(d)[..1][..0] == [];
    assert NextNumber(START, d) == 1 && IssueRefusal(START, d, 10).None?;
    assert IssueStep(START, d, 10, ByCard, GIFT_CARD, 0).Ok?;
    IssueAdds(START, d, 10, ByCard, GIFT_CARD, 0);
  }

  /** A late stamp does happen. */
  lemma LateStampHappens(d: Drawer)
    ensures InOrder(0, LateRun(d))
    ensures var s := Run(START, LateRun(d));
            |s.vouchers| == 1 && s.vouchers[0].status == CONSUMED && s.vouchers[0].updatedAt == s.vouchers[0].expiresAt
  {
    LateRunIssues(d);
    var steps := LateRun(d);
    assert steps[..2] == steps && steps[..1] == [steps[0]] && steps[..1][..0] == [];
    RunPrefix(steps, 1);
    assert InOrder(0, []) && InOrder(0, steps[..1]);
  }

  /** Sweeping twice gives the statuses of the later sweep alone. */
  lemma SweepTwice(s: System, tenant: Uuid, store: Uuid, t1: Time, t2: Time, i: nat)
    requires t1 <= t2 && i < |s.vouchers|
    ensures SweepAll(SweepAll(s, tenant, store, t1), tenant, store, t2).vouchers[i].status
            == SweepAll(s, tenant, store, t2).vouchers[i].status
  {
    SweepEffect(s, tenant, store, |s.vouchers|, t1);
    SweepEffect(s, tenant, store, |s.vouchers|, t2);
    SweepEffect(SweepAll(s, tenant, store, t1), tenant, store, |s.vouchers|, t2);
  }

  /** Two rows nobody can tell apart from time t on, except by when an expiry was written. */
  ghost predicate Alike(v: Advance, w: Advance, t: Time)
  {
    && View(v, t) == View(w, t)
    && v.(status := ACTIVE, expiredAt := None, updatedAt := 0) == w.(status := ACTIVE, expiredAt := None, updatedAt := 0)
  }

  ghost predicate AlikeSystems(a: System, b: System, t: Time)
  {
    a.cash == b.cash && |a.vouchers| == |b.vouchers| && forall i :: 0 <= i < |a.vouchers| ==> Alike(a.vouchers[i], b.vouchers[i], t)
  }

  lemma {:induction false} SameMax(a: seq<Advance>, b: seq<Advance>, t: Time, tenant: Uuid, store: Uuid)
    requires |a| == |b| && forall i :: 0 <= i < |a| ==> Alike(a[i], b[i], t)
    ensures MaxNumber(a, tenant, store) == MaxNumber(b, tenant, store)
  {
    if a != [] {
      SameMax(a[..|a| - 1], b[..|b| - 1], t, tenant, store);
    }
  }

  lemma {:induction false} SameMatch(a: seq<Advance>, b: seq<Advance>, t: Time, code: string, i: nat)
    requires |a| == |b| && i <= |a| && forall j :: 0 <= j < |a| ==> Alike(a[j], b[j], t)
    ensures FirstMatch(a, code, i) == FirstMatch(b, code, i)
    decreases |a| - i
  {
    if i < |a| {
      SameMatch(a, b, t, code, i + 1);
    }
  }

  lemma SameBarcodes(a: seq<Advance>, b: seq<Advance>, t: Time, tenant: Uuid, barcode: string)
    requires |a| == |b| && forall j :: 0 <= j < |a| ==> Alike(a[j], b[j], t)
    ensures BarcodeTaken(a, tenant, barcode) <==> BarcodeTaken(b, tenant, barcode)
  {
    if v :| v in a && v.tenant == tenant && v.barcode == barcode {
      var j :| 0 <= j < |a| && a[j] == v;
      assert b[j] in b;
    }
    if v :| v in b && v.tenant == tenant && v.barcode == barcode {
      var j :| 0 <= j < |b| && b[j] == v;
      assert a[j] in a;
    }
  }

  lemma AlikeLater(a: System, b: System, clock: Time, now: Time)
    requires AlikeSystems(a, b, clock) && clock <= now
    ensures AlikeSystems(a, b, now)
  {
    forall i | 0 <= i < |a.vouchers| ensures Alike(a.vouchers[i], b.vouchers[i], now) {
      assert Alike(a.vouchers[i], b.vouchers[i], clock);
    }
  }

  lemma AddedAlike(a: System, b: System, row: Advance, cash: Db, eventsA: seq<Event>, eventsB: seq<Event>, now: Time)
    requires AlikeSystems(a, b, now)
    ensures AlikeSystems(System(cash, a.vouchers + [row], eventsA), System(cash, b.vouchers + [row], eventsB), now)
  {
    var vs, ws := a.vouchers + [row], b.vouchers + [row];
    forall i | 0 <= i < |vs| ensures Alike(vs[i], ws[i], now) {
      assert i < |a.vouchers| ==> Alike(a.vouchers[i], b.vouchers[i], now);
    }
  }

  lemma SameRefusal(a: System, b: System, d: Drawer, amount: Money, t: Time)
    requires AlikeSystems(a, b, t)
    ensures NextNumber(a, d) == NextNumber(b, d) && IssueRefusal(a, d, amount) == IssueRefusal(b, d, amount)
  {
    SameMax(a.vouchers, b.vouchers, t, d.tenant, d.store);
    SameBarcodes(a.vouchers, b.vouchers, t, d.tenant, Barcode(d.store, NextNumber(a, d)));
  }

  lemma BookAlike(a: System, b: System, d: Drawer, number: nat, amount: Money, tender: PayMethod, kind: VoucherKind, now: Time)
    requires AlikeSystems(a, b, now)
    ensures var ra, rb := BookIssue(a, d, number, amount, tender, kind, now), BookIssue(b, d, number, amount, tender, kind, now);
            AlikeSystems(ApplyResult(a, ra), ApplyResult(b, rb), now) && Failure(ra) == Failure(rb)
  {
    var posted := PayStep(a.cash, d, |a.vouchers|, kind, amount, tender, false, now);
    if posted.Ok? {
      var e := Event(|a.vouchers|, EventAction.ISSUED, None, now);
      AddedAlike(a, b, NewRow(d, number, amount, tender, kind, |a.cash.movements|, now), posted.value, a.events + [e], b.events + [e], now);
    }
  }

  /** An issue is refused for a reason the tables give, or answered with the number and barcode of its row. */
  lemma IssueAnswer(s: System, d: Drawer, amount: Money, tender: PayMethod, kind: VoucherKind, now: Time)
    ensures var r := Issue(d, amount, tender, kind);
            var booked := BookIssue(s, d, NextNumber(s, d), amount, tender, kind, now);
            match IssueRefusal(s, d, amount)
            case Some(e) => After(s, r, now) == s && Answer(s, r, now) == Refused(e)
            case None =>
              After(s, r, now) == ApplyResult(s, booked)
              && Answer(s, r, now) == (match Failure(booked)
                                       case Some(e) => Refused(e)
                                       case None => Reply.Issued(NextNumber(s, d), Barcode(d.store, NextNumber(s, d))))
  {
  }

  lemma IssueAlike(a: System, b: System, d: Drawer, amount: Money, tender: PayMethod, kind: VoucherKind, clock: Time, now: Time)
    requires AlikeSystems(a, b, clock) && clock <= now
    ensures var r := Issue(d, amount, tender, kind);
            AlikeSystems(After(a, r, now), After(b, r, now), now) && Answer(a, r, now) == Answer(b, r, now)
  {
    AlikeLater(a, b, clock, now);
    SameRefusal(a, b, d, amount, now);
    BookAlike(a, b, d, NextNumber(a, d), amount, tender, kind, now);
    IssueAnswer(a, d, amount, tender, kind, now);
    IssueAnswer(b, d, amount, tender, kind, now);
  }

  /** Alike rows in the same place keep systems alike. */
  lemma RowAlike(a: System, b: System, i: nat, v: Advance, w: Advance, cash: Db, ea: seq<Event>, eb: seq<Event>, now: Time)
    requires AlikeSystems(a, b, now) && i < |a.vouchers| && Alike(v, w, now)
    ensures AlikeSystems(System(cash, a.vouchers[i := v], ea), System(cash, b.vouchers[i := w], eb), now)
  {
    var vs, ws := a.vouchers[i := v], b.vouchers[i := w];
    forall j | 0 <= j < |vs| ensures Alike(vs[j], ws[j], now) {
      assert Alike(a.vouchers[j], b.vouchers[j], now);
    }
  }

  /** The results of an action on voucher i in two systems: the same refusal, or alike with the same ending. */
  ghost predicate SameEnd(a: System, b: System, ra: Result<System>, rb: Result<System>, i: nat, now: Time)
  {
    && Failure(ra) == Failure(rb)
    && (ra.Ok? ==>
          && AlikeSystems(ra.value, rb.value, now) && i < |ra.value.vouchers| && |a.events| < |ra.value.events| && |b.events| < |rb.value.events|
          && ra.value.vouchers[i].status == rb.value.vouchers[i].status
          && ra.value.events[|a.events|].application == rb.value.events[|b.events|].application)
  }

  lemma RefundAlike(a: System, b: System, i: nat, cashier: Uuid, tender: Option<PayMethod>, now: Time)
    requires AlikeSystems(a, b, now) && i < |a.vouchers| && Alike(a.vouchers[i], b.vouchers[i], now)
    ensures SameEnd(a, b, RefundStep(a, i, cashier, tender, now), RefundStep(b, i, cashier, tender, now), i, now)
  {
    var ra, rb := RefundStep(a, i, cashier, tender, now), RefundStep(b, i, cashier, tender, now);
    if ra.Ok? {
      RowAlike(a, b, i, ra.value.vouchers[i], rb.value.vouchers[i], ra.value.cash, ra.value.events, rb.value.events, now);
    }
  }

  lemma ConsumeAlike(a: System, b: System, i: nat, saleTotal: Option<Money>, sale: Option<Uuid>, saleKnown: bool, now: Time)
    requires AlikeSystems(a, b, now) && i < |a.vouchers| && Alike(a.vouchers[i], b.vouchers[i], now)
    ensures SameEnd(a, b, ConsumeStep(a, i, saleTotal, sale, saleKnown, now), ConsumeStep(b, i, saleTotal, sale, saleKnown, now), i, now)
  {
    var ra, rb := ConsumeStep(a, i, saleTotal, sale, saleKnown, now), ConsumeStep(b, i, saleTotal, sale, saleKnown, now);
    if ra.Ok? {
      RowAlike(a, b, i, ra.value.vouchers[i], rb.value.vouchers[i], a.cash, ra.value.events, rb.value.events, now);
    }
  }

  lemma MutateAlike(a: System, b: System, i: nat, cashier: Uuid, action: VoucherAction, checkedAt: Time, clock: Time, now: Time)
    requires AlikeSystems(a, b, clock) && clock <= checkedAt <= now
    ensures var r := Mutate(i, cashier, action, checkedAt);
            AlikeSystems(After(a, r, now), After(b, r, now), now) && Answer(a, r, now) == Answer(b, r, now)
  {
    AlikeLater(a, b, clock, now);
    if i < |a.vouchers| {
      EndsAlike(a, b, i, cashier, action, checkedAt, clock, now);
    }
  }

  lemma EndsAlike(a: System, b: System, i: nat, cashier: Uuid, action: VoucherAction, checkedAt: Time, clock: Time, now: Time)
    requires AlikeSystems(a, b, clock) && clock <= checkedAt <= now && AlikeSystems(a, b, now) && i < |a.vouchers|
    ensures SameEnd(a, b, MutateStep(a, i, cashier, action, checkedAt, now), MutateStep(b, i, cashier, action, checkedAt, now), i, now)
  {
    assert Alike(a.vouchers[i], b.vouchers[i], clock);
    assert Alike(a.vouchers[i], b.vouchers[i], now);
    assert View(a.vouchers[i], checkedAt) == View(b.vouchers[i], checkedAt);
    if View(a.vouchers[i], checkedAt) == ACTIVE {
      match action
      case Refund(tender) => RefundAlike(a, b, i, cashier, tender, now);
      case Consume(saleTotal, sale, saleKnown) => ConsumeAlike(a, b, i, saleTotal, sale, saleKnown, now);
      case ExpireNow =>
        var e := Event(i, EventAction.Ended(EXPIRED), None, now);
        RowAlike(a, b, i, ExpireRow(a.vouchers[i], now), ExpireRow(b.vouchers[i], now), a.cash, a.events + [e], b.events + [e], now);
    }
  }

  /** Writing down a due expiry in both keeps them alike. */
  lemma ExpireAlike(a: System, b: System, i: nat, now: Time)
    requires AlikeSystems(a, b, now) && i < |a.vouchers|
    ensures AlikeSystems(ExpireIfNeeded(a, i, now), ExpireIfNeeded(b, i, now), now)
  {
    var a', b' := ExpireIfNeeded(a, i, now), ExpireIfNeeded(b, i, now);
    forall j | 0 <= j < |a'.vouchers| ensures Alike(a'.vouchers[j], b'.vouchers[j], now) {
      assert Alike(a.vouchers[j], b.vouchers[j], now);
    }
  }

  lemma LoggedAlike(a: System, b: System, e: Event, now: Time)
    requires AlikeSystems(a, b, now)
    ensures AlikeSystems(a.(events := a.events + [e]), b.(events := b.events + [e]), now)
  {
  }

  lemma LookupAlike(a: System, b: System, code: string, checkedAt: Time, clock: Time, now: Time)
    requires AlikeSystems(a, b, clock) && clock <= checkedAt <= now
    ensures var r := Lookup(code, checkedAt);
            AlikeSystems(After(a, r, now), After(b, r, now), now) && Answer(a, r, now) == Answer(b, r, now)
  {
    SameMatch(a.vouchers, b.vouchers, clock, code, 0);
    AlikeLater(a, b, clock, checkedAt);
    var found := FirstMatch(a.vouchers, code, 0);
    if found.None? {
      AlikeLater(a, b, checkedAt, now);
    } else {
      var i := found.value;
      assert Alike(a.vouchers[i], b.vouchers[i], checkedAt);
      ExpireAlike(a, b, i, checkedAt);
      var a', b' := ExpireIfNeeded(a, i, checkedAt), ExpireIfNeeded(b, i, checkedAt);
      AlikeLater(a', b', checkedAt, now);
      LoggedAlike(a', b', Event(i, EventAction.VALIDATED, None, now), now);
    }
  }

  lemma GetAlike(a: System, b: System, i: nat, clock: Time, now: Time)
    requires AlikeSystems(a, b, clock) && clock <= now
    ensures AlikeSystems(After(a, Get(i), now), After(b, Get(i), now), now) && Answer(a, Get(i), now) == Answer(b, Get(i), now)
  {
    AlikeLater(a, b, clock, now);
    if i < |a.vouchers| {
      assert Alike(a.vouchers[i], b.vouchers[i], now);
      ExpireAlike(a, b, i, now);
    }
  }

  /** What a listing shows: the rows of the store by what they are at that time. */
  function Viewed(vouchers: seq<Advance>, tenant: Uuid, store: Uuid, filter: Filter, now: Time, n: nat): seq<Line>
    requires n <= |vouchers|
  {
    if n == 0 then [] else
    var rest := Viewed(vouchers, tenant, store, filter, now, n - 1);
    var v := vouchers[n - 1];
    if InScope(v, tenant, store) && Passes(filter, View(v, now), v.expiresAt, now) then rest + [Line(n - 1, View(v, now))] else rest
  }

  lemma {:induction false} SweptIsViewed(vouchers: seq<Advance>, swept: seq<Advance>, tenant: Uuid, store: Uuid, filter: Filter, now: Time, n: nat)
    requires n <= |vouchers| == |swept|
    requires forall i :: 0 <= i < |vouchers| ==>
               swept[i] == if InScope(vouchers[i], tenant, store) && Due(vouchers[i], now) then ExpireRow(vouchers[i], now) else vouchers[i]
    ensures Listing(swept, tenant, store, filter, now, n) == Viewed(vouchers, tenant, store, filter, now, n)
  {
    if n > 0 {
      SweptIsViewed(vouchers, swept, tenant, store, filter, now, n - 1);
    }
  }

  /** A listing filters and shows every row of the store by its status at the time of the call, whoever swept before. */
  lemma BrowseShowsView(s: System, tenant: Uuid, store: Uuid, filter: Filter, now: Time)
    ensures Answer(s, Browse(tenant, store, filter), now) == Listed(Viewed(s.vouchers, tenant, store, filter, now, |s.vouchers|))
  {
    SweepEffect(s, tenant, store, |s.vouchers|, now);
    SweptIsViewed(s.vouchers, SweepAll(s, tenant, store, now).vouchers, tenant, store, filter, now, |s.vouchers|);
  }

  lemma {:induction false} ViewedAlike(a: seq<Advance>, b: seq<Advance>, tenant: Uuid, store: Uuid, filter: Filter, now: Time, n: nat)
    requires n <= |a| == |b| && forall i :: 0 <= i < |a| ==> Alike(a[i], b[i], now)
    ensures Viewed(a, tenant, store, filter, now, n) == Viewed(b, tenant, store, filter, now, n)
  {
    if n > 0 {
      ViewedAlike(a, b, tenant, store, filter, now, n - 1);
      assert Alike(a[n - 1], b[n - 1], now);
    }
  }

  lemma BrowseAlike(a: System, b: System, tenant: Uuid, store: Uuid, filter: Filter, clock: Time, now: Time)
    requires AlikeSystems(a, b, clock) && clock <= now
    ensures var r := Browse(tenant, store, filter);
            AlikeSystems(After(a, r, now), After(b, r, now), now) && Answer(a, r, now) == Answer(b, r, now)
  {
    AlikeLater(a, b, clock, now);
    BrowseShowsView(a, tenant, store, filter, now);
    BrowseShowsView(b, tenant, store, filter, now);
    ViewedAlike(a.vouchers, b.vouchers, tenant, store, filter, now, |a.vouchers|);
    SweepAlike(a, b, tenant, store, clock, now);
    AlikeSwapped(SweepAll(a, tenant, store, now), b, now);
    SweepAlike(b, SweepAll(a, tenant, store, now), tenant, store, now, now);
    AlikeSwapped(SweepAll(b, tenant, store, now), SweepAll(a, tenant, store, now), now);
  }

  lemma AlikeSwapped(a: System, b: System, t: Time)
    requires AlikeSystems(a, b, t)
    ensures AlikeSystems(b, a, t)
  {
    forall i | 0 <= i < |b.vouchers| ensures Alike(b.vouchers[i], a.vouchers[i], t) {
      assert Alike(a.vouchers[i], b.vouchers[i], t);
    }
  }

  /** Served the same request, alike systems answer alike and stay alike. */
  lemma StepAlike(a: System, b: System, r: VoucherModel.Request, clock: Time, now: Time)
    requires AlikeSystems(a, b, clock) && InTime(r, clock, now) && !r.Sweep?
    ensures AlikeSystems(After(a, r, now), After(b, r, now), now)
    ensures Answer(a, r, now) == Answer(b, r, now)
  {
    match r
    case Cash(request) =>
    case Issue(d, amount, tender, kind) => IssueAlike(a, b, d, amount, tender, kind, clock, now);
    case Mutate(i, cashier, action, checkedAt) => MutateAlike(a, b, i, cashier, action, checkedAt, clock, now);
    case Lookup(code, checkedAt) => LookupAlike(a, b, code, checkedAt, clock, now);
    case Get(i) => GetAlike(a, b, i, clock, now);
    case Browse(tenant, store, filter) => BrowseAlike(a, b, tenant, store, filter, clock, now);
  }

  /** A sweep of one of them does not tell them apart. */
  lemma SweepAlike(a: System, b: System, tenant: Uuid, store: Uuid, clock: Time, now: Time)
    requires AlikeSystems(a, b, clock) && clock <= now
    ensures AlikeSystems(SweepAll(a, tenant, store, now), b, now)
  {
    var a' := SweepAll(a, tenant, store, now);
    SweepEffect(a, tenant, store, |a.vouchers|, now);
    forall i | 0 <= i < |a'.vouchers| ensures Alike(a'.vouchers[i], b.vouchers[i], now) {
      assert Alike(a.vouchers[i], b.vouchers[i], clock);
    }
  }

  /** The steps of a run without the calls of the sweep endpoint. */
  function WithoutSweeps(steps: seq<Timed>): seq<Timed>
  {
    if steps == [] then [] else
    var rest := WithoutSweeps(steps[..|steps| - 1]);
    if steps[|steps| - 1].request.Sweep? then rest else rest + [steps[|steps| - 1]]
  }

  /** What the callers of a run were told, the sweep endpoint aside. */
  function Answers(s: System, steps: seq<Timed>): seq<Reply>
  {
    if steps == [] then [] else
    var n := |steps| - 1;
    var rest := Answers(s, steps[..n]);
    if steps[n].request.Sweep? then rest else rest + [Answer(Run(s, steps[..n]), steps[n].request, steps[n].now)]
  }

  /**
    Lazy and swept expiry cannot be told apart: leaving out every sweep of a run changes no
    answer, no movement and no session, and every voucher reads the same at the end.
   */
  lemma {:induction false} SweepsAreInvisible(s: System, start: Time, steps: seq<Timed>)
    requires InOrder(start, steps)
    ensures Answers(s, steps) == Answers(s, WithoutSweeps(steps))
    ensures AlikeSystems(Run(s, steps), Run(s, WithoutSweeps(steps)), Clock(start, steps))
  {
    if steps != [] {
      var n := |steps| - 1;
      var init := steps[..n];
      SweepsAreInvisible(s, start, init);
      var a, b := Run(s, init), Run(s, WithoutSweeps(init));
      var r, now := steps[n].request, steps[n].now;
      if r.Sweep? {
        SweepAlike(a, b, r.tenant, r.store, Clock(start, init), now);
      } else {
        StepAlike(a, b, r, Clock(start, init), now);
        var lean := WithoutSweeps(init);
        assert (lean + [steps[n]])[..|lean|] == lean;
      }
    }
  }
}
