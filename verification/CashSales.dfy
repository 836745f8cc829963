/** The payments part of a cut quote: one row per paid sale, accumulated in a loop. */
module CashSales {
  import opened Common
  import opened CashModel

  /** SELECT sale, count(payment), sum per kind of payment ... GROUP BY sale. */
  datatype SaleRow = SaleRow(count: nat, cash: Money, card: Money, transfer: Money)

  /** The join with payments drops sales that have none. */
  function SaleRows(sales: seq<Sale>, d: Drawer, lo: Time, hi: Time): seq<SaleRow>
  {
    if sales == [] then [] else
    var rest := SaleRows(sales[..|sales| - 1], d, lo, hi);
    var s := sales[|sales| - 1];
    if SaleInWindow(s, d, lo, hi) && s.payments != [] then
      rest + [SaleRow(|s.payments|, Sum(s.payments, Paid(CASH)), Sum(s.payments, Paid(CARD)), Sum(s.payments, Paid(TRANSFER)))]
    else rest
  }

  function RowShare(tender: Tender, mixedOnly: bool): SaleRow -> int
  {
    (row: SaleRow) =>
      if mixedOnly && row.count <= 1 then 0
      else match tender case CASH => row.cash case CARD => row.card case TRANSFER => row.transfer case OtherTender => 0
  }

  lemma {:induction false} RowsAreSales(sales: seq<Sale>, d: Drawer, lo: Time, hi: Time, tender: Tender, mixedOnly: bool)
    requires tender != OtherTender
    ensures Sum(SaleRows(sales, d, lo, hi), RowShare(tender, mixedOnly)) == Sum(sales, SaleWeight(d, lo, hi, tender, mixedOnly))
  {
    if sales != [] {
      var init, s := sales[..|sales| - 1], sales[|sales| - 1];
      RowsAreSales(init, d, lo, hi, tender, mixedOnly);
      if SaleInWindow(s, d, lo, hi) && s.payments != [] {
        SumAppend(SaleRows(init, d, lo, hi),
                  SaleRow(|s.payments|, Sum(s.payments, Paid(CASH)), Sum(s.payments, Paid(CARD)), Sum(s.payments, Paid(TRANSFER))),
                  RowShare(tender, mixedOnly));
      }
    }
  }

  method AddUp(rows: seq<SaleRow>) returns (t: SalesTotals)
    ensures t == SalesTotals(
                   Sum(rows, RowShare(CASH, false)), Sum(rows, RowShare(CARD, false)), Sum(rows, RowShare(TRANSFER, false)),
                   Sum(rows, RowShare(CASH, true)), Sum(rows, RowShare(CARD, true)), Sum(rows, RowShare(TRANSFER, true)))
  {
    var cash, card, transfer, mixedCash, mixedCard, mixedTransfer := 0, 0, 0, 0, 0, 0;
    for n := 0 to |rows|
      invariant cash == Sum(rows[..n], RowShare(CASH, false)) && mixedCash == Sum(rows[..n], RowShare(CASH, true))
      invariant card == Sum(rows[..n], RowShare(CARD, false)) && mixedCard == Sum(rows[..n], RowShare(CARD, true))
      invariant transfer == Sum(rows[..n], RowShare(TRANSFER, false))
      invariant mixedTransfer == Sum(rows[..n], RowShare(TRANSFER, true))
    {
      assert rows[..n + 1][..n] == rows[..n];
      var row := rows[n];
      cash, card, transfer := cash + row.cash, card + row.card, transfer + row.transfer;
      if row.count > 1 {
        mixedCash, mixedCard, mixedTransfer := mixedCash + row.cash, mixedCard + row.card, mixedTransfer + row.transfer;
      }
    }
    assert rows[..|rows|] == rows;
    t := SalesTotals(cash, card, transfer, mixedCash, mixedCard, mixedTransfer);
  }

  /** The loop computes, kind by kind, the payments of the paid sales in the window. */
  method SalesLoop(sales: seq<Sale>, d: Drawer, lo: Time, hi: Time) returns (t: SalesTotals)
    ensures t == SalesIn(sales, d, lo, hi)
  {
    t := AddUp(SaleRows(sales, d, lo, hi));
    RowsAreSales(sales, d, lo, hi, CASH, false);
    RowsAreSales(sales, d, lo, hi, CARD, false);
    RowsAreSales(sales, d, lo, hi, TRANSFER, false);
    RowsAreSales(sales, d, lo, hi, CASH, true);
    RowsAreSales(sales, d, lo, hi, CARD, true);
    RowsAreSales(sales, d, lo, hi, TRANSFER, true);
  }
}
