/** `check_duplicate_epc`: stock items of a tenant grouped by their normalised EPC. */
module DuplicateEpc {
  import opened Common
  import opened Text

  datatype Row = Row(id: nat, epc: string)

  datatype Finding = Finding(epc: string, ids: seq<nat>)

  predicate IsHex(c: char)
  {
    '0' <= c <= '9' || 'a' <= c <= 'f' || 'A' <= c <= 'F'
  }

  function UpperHex(c: char): char
  {
    if 'a' <= c <= 'f' then c - 'a' + 'A' else c
  }

  /** Every character that is no hexadecimal digit dropped, the others upper-cased. */
  function Cleaned(epc: string): string
  {
    if epc == "" then ""
    else if IsHex(epc[0]) then [UpperHex(epc[0])] + Cleaned(epc[1..])
    else Cleaned(epc[1..])
  }

  function NormalizeEpc(epc: string): Option<string>
  {
    if |Cleaned(epc)| == 24 then Some(Cleaned(epc)) else None
  }

  lemma {:induction false} CleanedTwice(epc: string)
    ensures Cleaned(Cleaned(epc)) == Cleaned(epc)
  {
    if epc != "" {
      CleanedTwice(epc[1..]);
      if IsHex(epc[0]) {
        assert Cleaned(epc)[1..] == Cleaned(epc[1..]);
      }
    }
  }

  /** A normalised EPC is its own normal form. */
  lemma NormalizedTwice(epc: string)
    requires NormalizeEpc(epc).Some?
    ensures NormalizeEpc(NormalizeEpc(epc).value) == NormalizeEpc(epc)
  {
    CleanedTwice(epc);
  }

  /** Cleaning goes character by character. */
  lemma {:induction false} CleanedParts(a: string, b: string)
    ensures Cleaned(a + b) == Cleaned(a) + Cleaned(b)
  {
    if a == "" {
      assert a + b == b;
    } else {
      CleanedParts(a[1..], b);
      assert (a + b)[1..] == a[1..] + b;
    }
  }

  /** One character: a hexadecimal digit is kept in upper case, any other is dropped. */
  lemma CleanedOne(c: char)
    ensures if '0' <= c <= '9' || 'A' <= c <= 'F' then Cleaned([c]) == [c]
            else if 'a' <= c <= 'f' then |Cleaned([c])| == 1 && 'A' <= Cleaned([c])[0] <= 'F' && SameLetter(c, Cleaned([c])[0])
            else Cleaned([c]) == ""
  {
    assert [c][1..] == "";
  }

  /** Letter case does not matter: codes that differ in nothing else have one normal form. */
  lemma {:induction false} CaseFolds(a: string, b: string)
    requires SameLetters(a, b)
    ensures Cleaned(a) == Cleaned(b) && NormalizeEpc(a) == NormalizeEpc(b)
  {
    if a != "" {
      assert SameLetter(a[0], b[0]);
      CaseFolds(a[1..], b[1..]);
    }
  }

  /** Nor does anything put between the digits. */
  lemma SeparatorsDrop(a: string, c: char, b: string)
    requires !('0' <= c <= '9' || 'a' <= c <= 'f' || 'A' <= c <= 'F')
    ensures NormalizeEpc(a + [c] + b) == NormalizeEpc(a + b)
  {
    CleanedParts(a + [c], b);
    CleanedParts(a, [c]);
    CleanedParts(a, b);
    CleanedOne(c);
    assert Cleaned(a) + "" == Cleaned(a);
  }

  predicate UpperDigits(s: string)
  {
    forall i :: 0 <= i < |s| ==> '0' <= s[i] <= '9' || 'A' <= s[i] <= 'F'
  }

  lemma {:induction false} CleanedIsUpper(epc: string)
    ensures UpperDigits(Cleaned(epc)) && (UpperDigits(epc) ==> Cleaned(epc) == epc)
  {
    if epc != "" {
      CleanedIsUpper(epc[1..]);
      assert epc == [epc[0]] + epc[1..];
    }
  }

  /** The normal forms are the codes of twenty-four upper-case digits, each of them its own; other counts have none. */
  lemma NormalForms(epc: string)
    ensures NormalizeEpc(epc).Some? ==> |NormalizeEpc(epc).value| == 24 && UpperDigits(NormalizeEpc(epc).value)
    ensures UpperDigits(epc) ==> NormalizeEpc(epc) == if |epc| == 24 then Some(epc) else None
  {
    CleanedIsUpper(epc);
  }

  // ----- grouping -----

  /** The items with this normalised EPC, in row order. */
  function IdsOf(rows: seq<Row>, epc: string): seq<nat>
  {
    if rows == [] then [] else
    var n := |rows| - 1;
    IdsOf(rows[..n], epc) + if NormalizeEpc(rows[n].epc) == Some(epc) then [rows[n].id] else []
  }

  /** The rows at these positions are the ones that normalise to this EPC, in order. */
  ghost predicate AreRowsOf(rows: seq<Row>, epc: string, ids: seq<nat>, at: seq<nat>)
  {
    && |at| == |ids|
    && (forall k :: 0 <= k < |at| ==> at[k] < |rows| && ids[k] == rows[at[k]].id)
    && (forall k, l :: 0 <= k < l < |at| ==> at[k] < at[l])
    && (forall i: nat :: i < |rows| ==> (i in at <==> NormalizeEpc(rows[i].epc) == Some(epc)))
  }

  lemma RowHits(rows: seq<Row>, row: Row, epc: string, ids: seq<nat>, at: seq<nat>)
    requires AreRowsOf(rows, epc, ids, at) && NormalizeEpc(row.epc) == Some(epc)
    ensures AreRowsOf(rows + [row], epc, ids + [row.id], at + [|rows|])
  {
    var all, more := rows + [row], at + [|rows|];
    forall i: nat | i < |all| ensures i in more <==> NormalizeEpc(all[i].epc) == Some(epc) {
      assert i < |rows| ==> all[i] == rows[i];
      assert i in more <==> i in at || i == |rows|;
    }
  }

  lemma RowMisses(rows: seq<Row>, row: Row, epc: string, ids: seq<nat>, at: seq<nat>)
    requires AreRowsOf(rows, epc, ids, at) && NormalizeEpc(row.epc) != Some(epc)
    ensures AreRowsOf(rows + [row], epc, ids, at)
  {
    var all := rows + [row];
    forall i: nat | i < |all| ensures i in at <==> NormalizeEpc(all[i].epc) == Some(epc) {
      if i < |rows| {
        assert all[i] == rows[i];
      } else {
        assert forall k :: 0 <= k < |at| ==> at[k] != i;
      }
    }
  }

  /** The items of an EPC are the identifiers of exactly the rows that normalise to it, in row order. */
  lemma {:induction false} IdsAre(rows: seq<Row>, epc: string) returns (at: seq<nat>)
    ensures AreRowsOf(rows, epc, IdsOf(rows, epc), at)
  {
    at := [];
    if rows != [] {
      var n := |rows| - 1;
      at := IdsAre(rows[..n], epc);
      assert rows == rows[..n] + [rows[n]];
      IdsOfMore(rows[..n], rows[n], epc);
      if NormalizeEpc(rows[n].epc) == Some(epc) {
        RowHits(rows[..n], rows[n], epc, IdsOf(rows[..n], epc), at);
        at := at + [n];
      } else {
        RowMisses(rows[..n], rows[n], epc, IdsOf(rows[..n], epc), at);
      }
    }
  }

  /** The index lists every EPC that occurs once, in order of first occurrence, with its items. */
  ghost predicate Indexes(rows: seq<Row>, order: seq<string>, index: map<string, seq<nat>>)
  {
    && (forall epc :: epc in index <==> epc in order)
    && (forall i, j :: 0 <= i < j < |order| ==> order[i] != order[j])
    && (forall epc :: epc in index ==> index[epc] == IdsOf(rows, epc))
    && (forall epc :: epc !in index ==> IdsOf(rows, epc) == [])
  }

  lemma IdsOfMore(rows: seq<Row>, row: Row, epc: string)
    ensures IdsOf(rows + [row], epc) == IdsOf(rows, epc) + if NormalizeEpc(row.epc) == Some(epc) then [row.id] else []
  {
    assert (rows + [row])[..|rows|] == rows;
  }

  /** `index.setdefault(epc, []).append(id)`. */
  lemma IndexOne(rows: seq<Row>, row: Row, order: seq<string>, index: map<string, seq<nat>>)
    requires Indexes(rows, order, index) && NormalizeEpc(row.epc).Some?
    ensures var epc := NormalizeEpc(row.epc).value;
            var ids := if epc in index then index[epc] else [];
            Indexes(rows + [row], if epc in index then order else order + [epc], index[epc := ids + [row.id]])
  {
    forall epc ensures IdsOf(rows + [row], epc) == IdsOf(rows, epc) + if NormalizeEpc(row.epc) == Some(epc) then [row.id] else [] {
      IdsOfMore(rows, row, epc);
    }
  }

  lemma IndexNone(rows: seq<Row>, row: Row, order: seq<string>, index: map<string, seq<nat>>)
    requires Indexes(rows, order, index) && NormalizeEpc(row.epc).None?
    ensures Indexes(rows + [row], order, index)
  {
    forall epc ensures IdsOf(rows + [row], epc) == IdsOf(rows, epc) {
      IdsOfMore(rows, row, epc);
    }
  }

  method BuildIndex(rows: seq<Row>) returns (order: seq<string>, index: map<string, seq<nat>>)
    ensures Indexes(rows, order, index)
  {
    order, index := [], map[];
    for i := 0 to |rows|
      invariant Indexes(rows[..i], order, index)
    {
      assert rows[..i + 1] == rows[..i] + [rows[i]];
      var normalized := NormalizeEpc(rows[i].epc);
      if normalized.None? {
        IndexNone(rows[..i], rows[i], order, index);
      } else {
        IndexOne(rows[..i], rows[i], order, index);
        var epc := normalized.value;
        if epc in index {
          index := index[epc := index[epc] + [rows[i].id]];
        } else {
          order := order + [epc];
          index := index[epc := [] + [rows[i].id]];
        }
      }
    }
    assert rows[..|rows|] == rows;
  }

  /** The findings for these EPCs, in order. */
  function Report(rows: seq<Row>, order: seq<string>): seq<Finding>
  {
    if order == [] then [] else
    var n := |order| - 1;
    var ids := IdsOf(rows, order[n]);
    Report(rows, order[..n]) + if |ids| > 1 then [Finding(order[n], ids)] else []
  }

  predicate Reported(findings: seq<Finding>, epc: string)
  {
    exists k :: 0 <= k < |findings| && findings[k].epc == epc
  }

  predicate OnePerEpc(findings: seq<Finding>)
  {
    forall k, l :: 0 <= k < l < |findings| ==> findings[k].epc != findings[l].epc
  }

  lemma {:induction false} ReportMembers(rows: seq<Row>, order: seq<string>)
    ensures forall f :: f in Report(rows, order) ==> f.epc in order && |f.ids| > 1 && f.ids == IdsOf(rows, f.epc)
  {
    if order != [] {
      ReportMembers(rows, order[..|order| - 1]);
    }
  }

  lemma {:induction false} ReportCovers(rows: seq<Row>, order: seq<string>, epc: string)
    requires epc in order && |IdsOf(rows, epc)| > 1
    ensures Reported(Report(rows, order), epc)
  {
    var n := |order| - 1;
    var before := Report(rows, order[..n]);
    if order[n] == epc {
      assert Report(rows, order)[|before|].epc == epc;
    } else {
      assert order == order[..n] + [order[n]];
      ReportCovers(rows, order[..n], epc);
      var k :| 0 <= k < |before| && before[k].epc == epc;
      assert Report(rows, order)[k] == before[k];
    }
  }

  lemma {:induction false} ReportDistinct(rows: seq<Row>, order: seq<string>)
    requires forall i, j :: 0 <= i < j < |order| ==> order[i] != order[j]
    ensures OnePerEpc(Report(rows, order))
  {
    if order != [] {
      var n := |order| - 1;
      ReportDistinct(rows, order[..n]);
      ReportMembers(rows, order[..n]);
      var before := Report(rows, order[..n]);
      forall k | 0 <= k < |before| ensures before[k].epc != order[n] {
        assert before[k] in before;
      }
    }
  }

  /** One finding for every normalised EPC that more than one item carries, listing exactly those items. */
  method CheckDuplicateEpc(rows: seq<Row>) returns (findings: seq<Finding>)
    ensures forall f :: f in findings ==> |f.ids| > 1 && f.ids == IdsOf(rows, f.epc)
    ensures forall epc :: |IdsOf(rows, epc)| > 1 ==> Reported(findings, epc)
    ensures OnePerEpc(findings)
  {
    var order, index := BuildIndex(rows);
    findings := [];
    for i := 0 to |order|
      invariant findings == Report(rows, order[..i])
    {
      assert order[..i + 1][..i] == order[..i];
      assert index[order[i]] == IdsOf(rows, order[i]);
      if |index[order[i]]| > 1 {
        findings := findings + [Finding(order[i], index[order[i]])];
      }
    }
    assert order[..|order|] == order;
    ReportMembers(rows, order);
    ReportDistinct(rows, order);
    forall epc | |IdsOf(rows, epc)| > 1 ensures Reported(findings, epc) {
      assert epc in index;
      ReportCovers(rows, order, epc);
    }
  }

  ghost predicate Clash(rows: seq<Row>, i: nat, j: nat)
    requires i < j < |rows|
  {
    NormalizeEpc(rows[i].epc).Some? && NormalizeEpc(rows[i].epc) == NormalizeEpc(rows[j].epc)
  }

  /** An EPC has items exactly when some row normalises to it. */
  lemma {:induction false} Occurs(rows: seq<Row>, epc: string)
    ensures IdsOf(rows, epc) != [] <==> exists i :: 0 <= i < |rows| && NormalizeEpc(rows[i].epc) == Some(epc)
  {
    if rows != [] {
      var n := |rows| - 1;
      Occurs(rows[..n], epc);
      assert forall i :: 0 <= i < n ==> rows[..n][i] == rows[i];
    }
  }

  /** Two rows that normalise to this EPC. */
  ghost predicate ClashOn(rows: seq<Row>, epc: string)
  {
    exists i, j :: 0 <= i < j < |rows| && Clash(rows, i, j) && NormalizeEpc(rows[i].epc) == Some(epc)
  }

  lemma ClashOnMore(before: seq<Row>, row: Row, epc: string)
    ensures ClashOn(before + [row], epc)
            <==> ClashOn(before, epc)
                 || (NormalizeEpc(row.epc) == Some(epc) && exists i :: 0 <= i < |before| && NormalizeEpc(before[i].epc) == Some(epc))
  {
    var rows, n := before + [row], |before|;
    if ClashOn(before, epc) {
      var i, j :| 0 <= i < j < |before| && Clash(before, i, j) && NormalizeEpc(before[i].epc) == Some(epc);
      assert Clash(rows, i, j);
    }
    if i :| 0 <= i < |before| && NormalizeEpc(before[i].epc) == Some(epc) && NormalizeEpc(row.epc) == Some(epc) {
      assert Clash(rows, i, n);
    }
    if ClashOn(rows, epc) {
      var i, j :| 0 <= i < j < |rows| && Clash(rows, i, j) && NormalizeEpc(rows[i].epc) == Some(epc);
      assert j < n ==> Clash(before, i, j);
    }
  }

  /** An EPC has several items exactly when two rows clash on it. */
  lemma {:induction false} SeveralIffClash(rows: seq<Row>, epc: string)
    ensures |IdsOf(rows, epc)| > 1 <==> ClashOn(rows, epc)
  {
    if rows != [] {
      var n := |rows| - 1;
      SeveralIffClash(rows[..n], epc);
      Occurs(rows[..n], epc);
      ClashOnMore(rows[..n], rows[n], epc);
      assert rows == rows[..n] + [rows[n]];
    }
  }

  /** The check is silent exactly when no two items share a normalised EPC. */
  lemma SilentIffNoClash(rows: seq<Row>, findings: seq<Finding>)
    requires forall f :: f in findings ==> |f.ids| > 1 && f.ids == IdsOf(rows, f.epc)
    requires forall epc :: |IdsOf(rows, epc)| > 1 ==> Reported(findings, epc)
    ensures findings == [] <==> forall i, j :: 0 <= i < j < |rows| ==> !Clash(rows, i, j)
  {
    if findings != [] {
      assert findings[0] in findings;
      SeveralIffClash(rows, findings[0].epc);
      var i, j :| 0 <= i < j < |rows| && Clash(rows, i, j);
    }
    if i, j :| 0 <= i < j < |rows| && Clash(rows, i, j) {
      var epc := NormalizeEpc(rows[i].epc).value;
      SeveralIffClash(rows, epc);
      assert ClashOn(rows, epc);
    }
  }
}
