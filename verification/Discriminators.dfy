/** `_normalize_pos_action_discriminators`: one mapping of action names to schema references, upper-cased and sorted. */
module Discriminators {
  import opened Common
  import opened Json
  import opened Text
  import OpenApi

  /** The ValueErrors of the loop, for the entry that raises them. */
  datatype Fault = InvalidRef(ref: Value) | MissingSchema(name: string) | ConflictingRefs(action: string)

  datatype Outcome = Normalized(mapping: Fields) | Raised(fault: Fault)

  function UpperChar(c: char): char
  {
    if 'a' <= c <= 'z' then c - 'a' + 'A' else c
  }

  /** `action.upper()` on ASCII letters. */
  function Upper(s: string): (r: string)
    ensures |r| == |s|
  {
    if s == "" then "" else [UpperChar(s[0])] + Upper(s[1..])
  }

  lemma {:induction false} UpperTwice(s: string)
    ensures Upper(Upper(s)) == Upper(s)
  {
    if s != "" {
      UpperTwice(s[1..]);
      assert Upper(s)[1..] == Upper(s[1..]);
    }
  }

  predicate NoLower(s: string)
  {
    forall i :: 0 <= i < |s| ==> !('a' <= s[i] <= 'z')
  }

  /** The upper-case text differs from the text in letter case alone and has no lower-case letter. */
  lemma {:induction false} UpperLetters(s: string)
    ensures SameLetters(s, Upper(s)) && NoLower(Upper(s))
  {
    if s != "" {
      UpperLetters(s[1..]);
      var rest := Upper(s[1..]);
      assert Upper(s) == [UpperChar(s[0])] + rest;
      forall i | 0 <= i < |s| ensures SameLetter(s[i], Upper(s)[i]) && !('a' <= Upper(s)[i] <= 'z') {
        assert i > 0 ==> s[i] == s[1..][i - 1] && Upper(s)[i] == rest[i - 1];
      }
    }
  }

  /** Two actions are one after upper-casing exactly when they differ at most in letter case. */
  lemma UpperFoldsCase(a: string, b: string)
    ensures Upper(a) == Upper(b) <==> SameLetters(a, b)
  {
    UpperLetters(a);
    UpperLetters(b);
    if SameLetters(a, b) {
      forall i | 0 <= i < |a| ensures Upper(a)[i] == Upper(b)[i] {
        assert SameLetter(a[i], b[i]) && SameLetter(a[i], Upper(a)[i]) && SameLetter(b[i], Upper(b)[i]);
      }
    }
    if Upper(a) == Upper(b) {
      forall i | 0 <= i < |a| ensures SameLetter(a[i], b[i]) {
        assert SameLetter(a[i], Upper(a)[i]) && SameLetter(b[i], Upper(b)[i]);
      }
    }
  }

  /** `ref.rsplit("/", 1)[-1]`. */
  function LastPart(s: string): string
  {
    if '/' !in s then s else LastPart(s[1..])
  }

  /** The last part has no slash and stands at the end, after a slash or alone. */
  lemma {:induction false} LastPartIs(s: string)
    ensures '/' !in LastPart(s) && |LastPart(s)| <= |s|
    ensures var k := |s| - |LastPart(s)|; s[k..] == LastPart(s) && (k > 0 ==> s[k - 1] == '/')
  {
    if '/' in s {
      LastPartIs(s[1..]);
      var k := |s| - |LastPart(s)|;
      if k == 1 {
        assert s == [s[0]] + s[1..];
      } else {
        assert s[1..][k - 2] == s[k - 1];
      }
    }
  }

  // ----- acceptance -----

  predicate IsSchemaRef(v: Value)
  {
    v.Str? && OpenApi.SCHEMAS <= v.s
  }

  predicate Served(schemas: Fields, v: Value)
  {
    IsSchemaRef(v) && Find(schemas, LastPart(v.s)).Some?
  }

  /** Two entries of the same action, letter case aside, refer to the same schema. */
  ghost predicate Agrees(mapping: Fields, i: nat)
    requires i < |mapping|
  {
    forall j :: 0 <= j < i && Upper(mapping[j].key) == Upper(mapping[i].key) ==> mapping[j].value == mapping[i].value
  }

  ghost predicate EntryFits(mapping: Fields, schemas: Fields, i: nat)
    requires i < |mapping|
  {
    Served(schemas, mapping[i].value) && Agrees(mapping, i)
  }

  /** The error of an entry that does not fit. */
  function FaultOf(e: Entry, schemas: Fields): Fault
  {
    if !IsSchemaRef(e.value) then InvalidRef(e.value)
    else if Find(schemas, LastPart(e.value.s)).None? then MissingSchema(LastPart(e.value.s))
    else ConflictingRefs(Upper(e.key))
  }

  /** The upper-cased actions and their references. */
  ghost predicate Maps(mapping: Fields, key: string, ref: Value)
  {
    exists i :: 0 <= i < |mapping| && Upper(mapping[i].key) == key && mapping[i].value == ref
  }

  predicate HasKey(fields: Fields, key: string)
  {
    exists i :: 0 <= i < |fields| && fields[i].key == key
  }

  /** Which error an entry raises: no text under #/components/schemas/, a name that is no schema, or another reference. */
  lemma FaultIs(e: Entry, schemas: Fields)
    ensures !(e.value.Str? && "#/components/schemas/" <= e.value.s) ==> FaultOf(e, schemas) == InvalidRef(e.value)
    ensures e.value.Str? && "#/components/schemas/" <= e.value.s && !HasKey(schemas, LastPart(e.value.s)) ==>
              FaultOf(e, schemas) == MissingSchema(LastPart(e.value.s))
    ensures e.value.Str? && "#/components/schemas/" <= e.value.s && HasKey(schemas, LastPart(e.value.s)) ==>
              FaultOf(e, schemas) == ConflictingRefs(Upper(e.key))
  {
    assert OpenApi.SCHEMAS == "#/components/schemas/";
  }

  // ----- sorting by key -----

  /** Order of strings by code points. */
  predicate Before(a: string, b: string)
  {
    b != "" && (a == "" || a[0] < b[0] || (a[0] == b[0] && Before(a[1..], b[1..])))
  }

  /** a and b agree up to k, and there a ends or has the lesser character. */
  predicate DifferAt(a: string, b: string, k: nat)
  {
    k <= |a| && k < |b| && a[..k] == b[..k] && (k == |a| || a[k] < b[k])
  }

  /** The order is the lexicographic one. */
  lemma {:induction false} BeforeIsLexicographic(a: string, b: string)
    ensures Before(a, b) <==> exists k: nat :: DifferAt(a, b, k)
  {
    if b != "" && a != "" && a[0] == b[0] {
      BeforeIsLexicographic(a[1..], b[1..]);
      if k: nat :| DifferAt(a[1..], b[1..], k) {
        assert a[..k + 1] == [a[0]] + a[1..][..k] && b[..k + 1] == [b[0]] + b[1..][..k];
        assert DifferAt(a, b, k + 1);
      }
      if k: nat :| DifferAt(a, b, k) {
        assert k > 0;
        assert a[1..][..k - 1] == a[..k][1..] && b[1..][..k - 1] == b[..k][1..];
        assert DifferAt(a[1..], b[1..], k - 1);
      }
    } else {
      if Before(a, b) {
        assert DifferAt(a, b, 0);
      }
      if k: nat :| DifferAt(a, b, k) {
        assert k > 0 ==> a[..k][0] == b[..k][0];
      }
    }
  }

  lemma {:induction false} BeforeTotal(a: string, b: string)
    ensures Before(a, b) || Before(b, a) || a == b
  {
    if a != "" && b != "" && a[0] == b[0] {
      BeforeTotal(a[1..], b[1..]);
      assert a == [a[0]] + a[1..] && b == [b[0]] + b[1..];
    }
  }

  lemma {:induction false} BeforeTransitive(a: string, b: string, c: string)
    requires Before(a, b) && Before(b, c)
    ensures Before(a, c)
  {
    if a != "" && a[0] == b[0] == c[0] {
      BeforeTransitive(a[1..], b[1..], c[1..]);
    }
  }

  predicate Ascending(fields: Fields)
  {
    forall i, j :: 0 <= i < j < |fields| ==> Before(fields[i].key, fields[j].key)
  }

  function Insert(e: Entry, fields: Fields): (r: Fields)
    ensures forall x :: x in r <==> x == e || x in fields
  {
    if fields == [] || Before(e.key, fields[0].key) then [e] + fields
    else
      var rest := Insert(e, fields[1..]);
      assert fields == [fields[0]] + fields[1..];
      [fields[0]] + rest
  }

  /** `sorted`, by key. */
  function Sorted(fields: Fields): (r: Fields)
    ensures forall x :: x in r <==> x in fields
  {
    if fields == [] then []
    else
      assert fields == [fields[0]] + fields[1..];
      Insert(fields[0], Sorted(fields[1..]))
  }

  predicate Distinct(fields: Fields)
  {
    forall i, j :: 0 <= i < j < |fields| ==> fields[i].key != fields[j].key
  }

  lemma {:induction false} InsertAscending(e: Entry, fields: Fields)
    requires Ascending(fields) && forall x :: x in fields ==> x.key != e.key
    ensures Ascending(Insert(e, fields))
  {
    if fields == [] {
    } else if Before(e.key, fields[0].key) {
      forall j | 0 < j < |fields| ensures Before(e.key, fields[j].key) {
        BeforeTransitive(e.key, fields[0].key, fields[j].key);
      }
    } else {
      BeforeTotal(e.key, fields[0].key);
      assert fields[0] in fields && forall x :: x in fields[1..] ==> x in fields;
      InsertAscending(e, fields[1..]);
      var rest := Insert(e, fields[1..]);
      forall j | 0 <= j < |rest| ensures Before(fields[0].key, rest[j].key) {
        assert rest[j] in rest;
      }
    }
  }

  lemma {:induction false} SortedAscending(fields: Fields)
    requires Distinct(fields)
    ensures Ascending(Sorted(fields))
  {
    if fields != [] {
      SortedAscending(fields[1..]);
      InsertAscending(fields[0], Sorted(fields[1..]));
    }
  }

  lemma BeforeNotSame(a: string)
    ensures !Before(a, a)
  {
    if a != "" {
      BeforeNotSame(a[1..]);
    }
  }

  /** With distinct keys a lookup finds exactly the entries that are there. */
  lemma {:induction false} FindIsMember(fields: Fields, key: string, value: Value)
    requires Distinct(fields)
    ensures Find(fields, key) == Some(value) <==> Entry(key, value) in fields
  {
    if fields != [] {
      FindIsMember(fields[1..], key, value);
      assert fields == [fields[0]] + fields[1..];
    }
  }

  lemma {:induction false} PutDistinct(fields: Fields, key: string, value: Value)
    requires Distinct(fields)
    ensures Distinct(Put(fields, key, value))
    ensures forall x :: x in Put(fields, key, value) ==> x in fields || x == Entry(key, value)
  {
    if fields == [] {
    } else if fields[0].key == key {
      assert forall i :: 0 < i < |fields| ==> Put(fields, key, value)[i] == fields[i];
    } else {
      PutDistinct(fields[1..], key, value);
      var rest := Put(fields[1..], key, value);
      forall j | 0 <= j < |rest| ensures rest[j].key != fields[0].key {
        assert rest[j] in rest;
      }
    }
  }

  /** Sorting a dictionary keeps what every key maps to. */
  lemma SortedFinds(fields: Fields, key: string, value: Value)
    requires Distinct(fields)
    ensures Find(Sorted(fields), key) == Some(value) <==> Find(fields, key) == Some(value)
  {
    SortedAscending(fields);
    var sorted := Sorted(fields);
    forall i, j | 0 <= i < j < |sorted| ensures sorted[i].key != sorted[j].key {
      BeforeNotSame(sorted[i].key);
    }
    FindIsMember(fields, key, value);
    FindIsMember(sorted, key, value);
  }

  // ----- the loop -----

  /** The dictionary built from the first `n` entries. */
  ghost predicate Collected(mapping: Fields, n: nat, normalized: Fields)
    requires n <= |mapping|
  {
    && Distinct(normalized)
    && forall key, ref :: Find(normalized, key) == Some(ref) <==> Maps(mapping[..n], key, ref)
  }

  lemma CollectOne(mapping: Fields, n: nat, normalized: Fields)
    requires n < |mapping| && Collected(mapping, n, normalized)
    requires var key := Upper(mapping[n].key); Find(normalized, key) in [None, Some(mapping[n].value)]
    ensures Collected(mapping, n + 1, Put(normalized, Upper(mapping[n].key), mapping[n].value))
  {
    var own, value := Upper(mapping[n].key), mapping[n].value;
    PutDistinct(normalized, own, value);
    var after := Put(normalized, own, value);
    forall key, ref ensures Find(after, key) == Some(ref) <==> Maps(mapping[..n + 1], key, ref) {
      PutFinds(normalized, own, value, key);
      MapsOneMore(mapping, n, key, ref);
      assert Find(normalized, key) == Some(ref) <==> Maps(mapping[..n], key, ref);
    }
  }

  lemma MapsOneMore(mapping: Fields, n: nat, key: string, ref: Value)
    requires n < |mapping|
    ensures Maps(mapping[..n + 1], key, ref) <==> Maps(mapping[..n], key, ref) || (Upper(mapping[n].key) == key && mapping[n].value == ref)
  {
    var before, after := mapping[..n], mapping[..n + 1];
    if Maps(before, key, ref) {
      var i :| 0 <= i < |before| && Upper(before[i].key) == key && before[i].value == ref;
      assert after[i] == before[i];
    }
    if Upper(mapping[n].key) == key && mapping[n].value == ref {
      assert after[n] == mapping[n];
    }
    if Maps(after, key, ref) {
      var i :| 0 <= i < |after| && Upper(after[i].key) == key && after[i].value == ref;
      assert i < n ==> before[i] == after[i];
    }
  }

  /** What was collected for the action of the next entry tells whether the entry agrees with the earlier ones. */
  lemma AgreesIffCollected(mapping: Fields, n: nat, normalized: Fields)
    requires n < |mapping| && Collected(mapping, n, normalized)
    ensures Agrees(mapping, n) <==> Find(normalized, Upper(mapping[n].key)) in [None, Some(mapping[n].value)]
  {
    var key := Upper(mapping[n].key);
    var before := mapping[..n];
    match Find(normalized, key)
    case Some(ref) =>
      assert Maps(before, key, ref);
      var i :| 0 <= i < |before| && Upper(before[i].key) == key && before[i].value == ref;
      assert before[i] == mapping[i];
      if ref == mapping[n].value {
        forall j | 0 <= j < n && Upper(mapping[j].key) == key ensures mapping[j].value == mapping[n].value {
          assert before[j] == mapping[j];
          assert Maps(before, key, mapping[j].value);
          assert Find(normalized, key) == Some(mapping[j].value);
        }
      }
    case None =>
      forall j | 0 <= j < n ensures Upper(mapping[j].key) != key {
        assert before[j] == mapping[j];
        assert Maps(before, Upper(mapping[j].key), mapping[j].value);
      }
  }

  /**
    The first entry that is no reference to a known schema, or that contradicts an earlier entry of its
    action, raises; otherwise the new mapping holds exactly the upper-cased actions, in ascending order.
   */
  method Normalize(mapping: Fields, schemas: Fields) returns (r: Outcome)
    ensures r.Normalized? <==> forall i :: 0 <= i < |mapping| ==> EntryFits(mapping, schemas, i)
    ensures r.Normalized? ==> Ascending(r.mapping)
    ensures r.Normalized? ==> forall key, ref :: Find(r.mapping, key) == Some(ref) <==> Maps(mapping, key, ref)
    ensures r.Raised? ==> exists i :: 0 <= i < |mapping| && !EntryFits(mapping, schemas, i) && r.fault == FaultOf(mapping[i], schemas)
                                      && forall j :: 0 <= j < i ==> EntryFits(mapping, schemas, j)
  {
    var normalized: Fields := [];
    for n := 0 to |mapping|
      invariant forall j :: 0 <= j < n ==> EntryFits(mapping, schemas, j)
      invariant Collected(mapping, n, normalized)
    {
      var action, ref := Upper(mapping[n].key), mapping[n].value;
      AgreesIffCollected(mapping, n, normalized);
      if !IsSchemaRef(ref) {
        assert !EntryFits(mapping, schemas, n);
        return Raised(InvalidRef(ref));
      }
      var name := LastPart(ref.s);
      if Find(schemas, name).None? {
        assert !EntryFits(mapping, schemas, n);
        return Raised(MissingSchema(name));
      }
      var existing := Find(normalized, action);
      assert EntryFits(mapping, schemas, n) <==> existing in [None, Some(ref)];
      if existing.Some? && existing != Some(ref) {
        return Raised(ConflictingRefs(action));
      }
      CollectOne(mapping, n, normalized);
      normalized := Put(normalized, action, ref);
    }
    assert mapping[..|mapping|] == mapping;
    SortedAscending(normalized);
    forall key, ref ensures Find(Sorted(normalized), key) == Some(ref) <==> Maps(mapping, key, ref) {
      SortedFinds(normalized, key, ref);
    }
    return Normalized(Sorted(normalized));
  }

  lemma AscendingDistinct(fields: Fields)
    requires Ascending(fields)
    ensures Distinct(fields)
  {
    forall i, j | 0 <= i < j < |fields| ensures fields[i].key != fields[j].key {
      BeforeNotSame(fields[i].key);
    }
  }

  /** Every entry of a normalised mapping comes from an accepted entry of the original. */
  lemma NormalizedEntry(mapping: Fields, schemas: Fields, normalized: Fields, i: nat)
    requires forall j :: 0 <= j < |mapping| ==> EntryFits(mapping, schemas, j)
    requires Distinct(normalized) && i < |normalized|
    requires var e := normalized[i]; Find(normalized, e.key) == Some(e.value) <==> Maps(mapping, e.key, e.value)
    ensures Upper(normalized[i].key) == normalized[i].key && Served(schemas, normalized[i].value)
  {
    var e := normalized[i];
    FindIsMember(normalized, e.key, e.value);
    var k :| 0 <= k < |mapping| && Upper(mapping[k].key) == e.key && mapping[k].value == e.value;
    UpperTwice(mapping[k].key);
    assert EntryFits(mapping, schemas, k);
  }

  lemma MapsUpper(fields: Fields, key: string, ref: Value)
    requires Distinct(fields) && forall i :: 0 <= i < |fields| ==> Upper(fields[i].key) == fields[i].key
    ensures Maps(fields, key, ref) <==> Find(fields, key) == Some(ref)
  {
    FindIsMember(fields, key, ref);
    if Maps(fields, key, ref) {
      var i :| 0 <= i < |fields| && Upper(fields[i].key) == key && fields[i].value == ref;
      assert fields[i] == Entry(key, ref);
    }
    if Entry(key, ref) in fields {
      var i :| 0 <= i < |fields| && fields[i] == Entry(key, ref);
      assert Upper(fields[i].key) == key;
    }
  }

  /** A normalised mapping is accepted again and names the same references. */
  lemma NormalizedAgain(mapping: Fields, schemas: Fields, normalized: Fields)
    requires forall i :: 0 <= i < |mapping| ==> EntryFits(mapping, schemas, i)
    requires Ascending(normalized)
    requires forall key, ref :: Find(normalized, key) == Some(ref) <==> Maps(mapping, key, ref)
    ensures forall i :: 0 <= i < |normalized| ==> EntryFits(normalized, schemas, i)
    ensures forall key, ref :: Maps(normalized, key, ref) <==> Maps(mapping, key, ref)
  {
    AscendingDistinct(normalized);
    forall i | 0 <= i < |normalized|
      ensures Upper(normalized[i].key) == normalized[i].key && Served(schemas, normalized[i].value)
    {
      NormalizedEntry(mapping, schemas, normalized, i);
    }
    forall i | 0 <= i < |normalized| ensures EntryFits(normalized, schemas, i) {
      assert Agrees(normalized, i);
    }
    forall key, ref ensures Maps(normalized, key, ref) <==> Maps(mapping, key, ref) {
      MapsUpper(normalized, key, ref);
    }
  }
}
