/**
  Which places of a generated document hardening rewrites, and the exact condition on the
  generated document under which the hardened one passes the reference check.
 */
module OpenApiEdits {
  import opened Common
  import opened Json
  import opened OpenApi
  import opened OpenApiClosure
  import opened OpenApiTheorems
  import opened RefWalk

  /** What becomes of a node: kept with everything below it, rewritten, or decided child by child. */
  datatype Edit = Same | Gone | Node(children: seq<Edit>)

  /** The place at the path is not rewritten. */
  predicate Kept(edit: Edit, path: Path)
    decreases |path|
  {
    match edit
    case Same => true
    case Gone => false
    case Node(children) => path == [] || (path[0] < |children| && Kept(children[path[0]], path[1..]))
  }

  predicate Refers(v: Value)
  {
    HTTP_VALIDATION_REF in Refs(v)
  }

  ghost predicate KeptReference(v: Value, edit: Edit, path: Path)
  {
    ReferredAt(v, path) && Kept(edit, path)
  }

  /** The new value refers to HTTPValidationError exactly when a kept place of the old one did. */
  ghost predicate Follows(v: Value, w: Value, edit: Edit)
  {
    Refers(w) <==> exists path :: KeptReference(v, edit, path)
  }

  lemma ReferredIsRef(v: Value, path: Path)
    requires ReferredAt(v, path)
    ensures Refers(v)
  {
    PlaceInRefs(v, path);
  }

  lemma SameFollows(v: Value)
    ensures Follows(v, v, Same)
  {
    if Refers(v) {
      var path := Referred(v);
      assert KeptReference(v, Same, path);
    }
    if path :| KeptReference(v, Same, path) {
      ReferredIsRef(v, path);
    }
  }

  /** The first entry of a key: the one a dictionary has. */
  predicate FirstAt(fields: Fields, key: string, i: nat)
  {
    i < |fields| && fields[i].key == key && forall j :: 0 <= j < i ==> fields[j].key != key
  }

  /** The entries rewritten one by one; those added do not refer to the component. */
  ghost predicate Revises(fields: Fields, after: Fields, f: Entry -> Value, edits: seq<Edit>)
  {
    && |edits| == |fields| <= |after|
    && RefOf(Obj(after)) == RefOf(Obj(fields))
    && (forall i {:trigger after[i]} :: 0 <= i < |fields| ==> after[i].key == fields[i].key && Follows(fields[i].value, f(after[i]), edits[i]))
    && (forall i {:trigger after[i]} :: |fields| <= i < |after| ==> !Refers(f(after[i])))
  }

  lemma {:induction false} MapAt(fields: Fields, f: Entry -> Value, i: nat)
    requires i < |fields|
    ensures Map(fields, f)[i] == Entry(fields[i].key, f(fields[i]))
  {
    if i > 0 {
      MapAt(fields[1..], f, i - 1);
    }
  }

  lemma MappedRefers(fields: Fields, f: Entry -> Value)
    requires Transparent(f)
    ensures Refers(Obj(Map(fields, f)))
            <==> RefOf(Obj(fields)) == Some(HTTP_VALIDATION_REF) || exists i :: 0 <= i < |fields| && Refers(f(fields[i]))
  {
    MapNode(fields, f);
    RefsOfFieldsMember(Map(fields, f), HTTP_VALIDATION_REF);
    forall i | 0 <= i < |fields| ensures Map(fields, f)[i].value == f(fields[i]) {
      MapAt(fields, f, i);
    }
  }

  lemma ReferredInside(fields: Fields, path: Path)
    ensures ReferredAt(Obj(fields), path)
            <==> if path == [] then RefOf(Obj(fields)) == Some(HTTP_VALIDATION_REF)
                 else path[0] < |fields| && ReferredAt(fields[path[0]].value, path[1..])
  {
  }

  lemma KeptInside(fields: Fields, edits: seq<Edit>, i: nat)
    requires i < |fields| == |edits|
    ensures (exists path :: KeptReference(fields[i].value, edits[i], path))
            <==> exists path :: KeptReference(Obj(fields), Node(edits), path) && path != [] && path[0] == i
  {
    if path :| KeptReference(fields[i].value, edits[i], path) {
      ReferredBelow(fields, i, path);
      assert ([i] + path)[1..] == path;
      assert KeptReference(Obj(fields), Node(edits), [i] + path);
    }
    if path :| KeptReference(Obj(fields), Node(edits), path) && path != [] && path[0] == i {
      ReferredInside(fields, path);
      assert KeptReference(fields[i].value, edits[i], path[1..]);
    }
  }

  lemma KeptRoot(fields: Fields, edits: seq<Edit>)
    ensures KeptReference(Obj(fields), Node(edits), []) <==> RefOf(Obj(fields)) == Some(HTTP_VALIDATION_REF)
  {
    ReferredInside(fields, []);
  }

  lemma RevisesNode(fields: Fields, after: Fields, f: Entry -> Value, edits: seq<Edit>)
    requires Revises(fields, after, f, edits) && Transparent(f)
    ensures Follows(Obj(fields), Obj(Map(after, f)), Node(edits))
  {
    MappedRefers(after, f);
    KeptRoot(fields, edits);
    if i :| 0 <= i < |after| && Refers(f(after[i])) {
      assert Follows(fields[i].value, f(after[i]), edits[i]);
      KeptInside(fields, edits, i);
    }
    if path :| KeptReference(Obj(fields), Node(edits), path) && path != [] {
      var i := path[0];
      ReferredInside(fields, path);
      KeptInside(fields, edits, i);
      assert Follows(fields[i].value, f(after[i]), edits[i]);
    }
  }

  // ----- dictionary operations -----

  lemma {:induction false} FirstFound(fields: Fields, key: string, i: nat)
    requires FirstAt(fields, key, i)
    ensures Find(fields, key) == Some(fields[i].value)
  {
    if i > 0 {
      assert FirstAt(fields[1..], key, i - 1);
      FirstFound(fields[1..], key, i - 1);
    }
  }

  /** A key that is found has a first entry. */
  lemma {:induction false} FoundFirst(fields: Fields, key: string) returns (i: nat)
    requires Find(fields, key).Some?
    ensures FirstAt(fields, key, i)
  {
    if fields[0].key == key {
      i := 0;
    } else {
      var j := FoundFirst(fields[1..], key);
      i := j + 1;
    }
  }

  lemma {:induction false} PutAt(fields: Fields, key: string, value: Value, i: nat)
    requires i < |Put(fields, key, value)|
    ensures |fields| <= |Put(fields, key, value)| <= |fields| + 1
    ensures i < |fields| ==> Put(fields, key, value)[i] == if FirstAt(fields, key, i) then Entry(key, value) else fields[i]
    ensures i >= |fields| ==> Put(fields, key, value)[i] == Entry(key, value) && Find(fields, key).None?
  {
    if fields != [] && fields[0].key != key {
      if i > 0 {
        PutAt(fields[1..], key, value, i - 1);
        assert FirstAt(fields, key, i) <==> FirstAt(fields[1..], key, i - 1);
      } else if |fields[1..]| > 0 {
        PutAt(fields[1..], key, value, 0);
      }
    }
  }

  lemma {:induction false} PutLength(fields: Fields, key: string, value: Value)
    ensures |fields| <= |Put(fields, key, value)|
  {
    if fields != [] && fields[0].key != key {
      PutLength(fields[1..], key, value);
    }
  }

  /** The first entry of a key is rewritten. */
  function Rewrite(fields: Fields, edits: seq<Edit>, key: string, edit: Edit): (r: seq<Edit>)
    requires |edits| == |fields|
    ensures |r| == |fields|
  {
    seq(|fields|, i requires 0 <= i < |fields| => if FirstAt(fields, key, i) then edit else edits[i])
  }

  lemma SameFirst(fields: Fields, after: Fields, key: string, i: nat)
    requires i < |fields| <= |after| && forall j :: 0 <= j < |fields| ==> after[j].key == fields[j].key
    ensures FirstAt(after, key, i) <==> FirstAt(fields, key, i)
  {
  }

  /** A first entry past the old ones, or no entry at all: the key was not there. */
  lemma AddedKey(fields: Fields, after: Fields, key: string, i: nat)
    requires |fields| <= i && |fields| <= |after| && forall j :: 0 <= j < |fields| ==> after[j].key == fields[j].key
    requires if i < |after| then FirstAt(after, key, i) else Find(after, key).None?
    ensures Find(fields, key).None?
  {
    forall j | 0 <= j < |fields| ensures fields[j].key != key {
      assert after[j].key == fields[j].key;
    }
  }

  /** What a put does to an entry that was there, and to one that was not. */
  lemma PutOld(fields: Fields, after: Fields, f: Entry -> Value, edits: seq<Edit>, key: string, value: Value, edit: Edit, i: nat)
    requires Revises(fields, after, f, edits) && i < |fields|
    requires FirstAt(fields, key, i) ==> Follows(fields[i].value, f(Entry(key, value)), edit)
    ensures i < |Put(after, key, value)|
    ensures Put(after, key, value)[i].key == fields[i].key
    ensures Follows(fields[i].value, f(Put(after, key, value)[i]), Rewrite(fields, edits, key, edit)[i])
  {
    PutLength(after, key, value);
    PutAt(after, key, value, i);
    SameFirst(fields, after, key, i);
    assert after[i].key == fields[i].key;
  }

  lemma PutNew(fields: Fields, after: Fields, f: Entry -> Value, edits: seq<Edit>, key: string, value: Value, i: nat)
    requires Revises(fields, after, f, edits) && |fields| <= i < |Put(after, key, value)|
    requires Find(fields, key).None? ==> !Refers(f(Entry(key, value)))
    ensures !Refers(f(Put(after, key, value)[i]))
  {
    PutAt(after, key, value, i);
    assert forall j :: 0 <= j < |fields| ==> after[j].key == fields[j].key;
    if i >= |after| || FirstAt(after, key, i) {
      AddedKey(fields, after, key, i);
    }
  }

  lemma RevisesPut(fields: Fields, after: Fields, f: Entry -> Value, edits: seq<Edit>, key: string, value: Value, edit: Edit)
    requires Revises(fields, after, f, edits) && key != REF
    requires forall i: nat :: FirstAt(fields, key, i) ==> Follows(fields[i].value, f(Entry(key, value)), edit)
    requires Find(fields, key).None? ==> !Refers(f(Entry(key, value)))
    ensures Revises(fields, Put(after, key, value), f, Rewrite(fields, edits, key, edit))
  {
    var put := Put(after, key, value);
    var revised := Rewrite(fields, edits, key, edit);
    PutLength(after, key, value);
    PutFinds(after, key, value, REF);
    forall i | 0 <= i < |fields| ensures put[i].key == fields[i].key && Follows(fields[i].value, f(put[i]), revised[i]) {
      PutOld(fields, after, f, edits, key, value, edit, i);
    }
    forall i | |fields| <= i < |put| ensures !Refers(f(put[i])) {
      PutNew(fields, after, f, edits, key, value, i);
    }
  }

  lemma RevisesSetDefault(fields: Fields, after: Fields, f: Entry -> Value, edits: seq<Edit>, key: string, value: Value)
    requires Revises(fields, after, f, edits) && key != REF && !Refers(f(Entry(key, value)))
    ensures Revises(fields, SetDefault(after, key, value), f, edits)
  {
    if Find(after, key).None? {
      AddedKey(fields, after, key, |after|);
      RevisesPut(fields, after, f, edits, key, value, Same);
      assert Rewrite(fields, edits, key, Same) == edits;
    }
  }

  // ----- the last loop -----

  /** A schema replaced in a 422 JSON response goes with all below it; what leads there is decided child by child. */
  function Substituted(k: nat, e: Entry): Edit
    requires k < 7
  {
    if !AtPlace(k, e) then Same
    else if k == 0 then (if RefOf(e.value) == Some(HTTP_VALIDATION_REF) then Gone else Same)
    else if e.value.Obj? then Node(SubstitutedAll(k - 1, e.value.fields))
    else Same
  }

  function SubstitutedAll(k: nat, fields: Fields): (r: seq<Edit>)
    requires k < 7
    ensures |r| == |fields|
  {
    seq(|fields|, i requires 0 <= i < |fields| => Substituted(k, fields[i]))
  }

  lemma SchemaFollows(e: Entry)
    ensures Follows(e.value, Level(0)(e), Substituted(0, e))
  {
    RefNodeRefs(VALIDATION_ERROR_REF);
    assert |VALIDATION_ERROR_REF| != |HTTP_VALIDATION_REF|;
    SameFollows(e.value);
  }

  /** Where the substitution looks no further the value stays. */
  lemma SubstitutedStep(k: nat, e: Entry)
    requires 0 < k < 7
    ensures AtPlace(k, e) && e.value.Obj? ==>
              Level(k)(e) == Obj(Map(e.value.fields, Level(k - 1))) && Substituted(k, e) == Node(SubstitutedAll(k - 1, e.value.fields))
    ensures !(AtPlace(k, e) && e.value.Obj?) ==> Level(k)(e) == e.value && Substituted(k, e) == Same
  {
    LevelStep(k, e);
  }

  lemma {:induction false} SubstitutedFollows(k: nat, e: Entry)
    requires k < 7
    ensures Follows(e.value, Level(k)(e), Substituted(k, e))
    decreases k, 2
  {
    if k == 0 {
      SchemaFollows(e);
    } else {
      SubstitutedStep(k, e);
      if AtPlace(k, e) && e.value.Obj? {
        SubstitutedBelow(k - 1, e.value.fields);
      } else {
        SameFollows(e.value);
      }
    }
  }

  lemma {:induction false} SubstitutedBelow(k: nat, fields: Fields)
    requires k < 7
    ensures Follows(Obj(fields), Obj(Map(fields, Level(k))), Node(SubstitutedAll(k, fields)))
    decreases k, 4
  {
    SubstitutedRevises(k, fields);
    LevelTransparent(k);
    RevisesNode(fields, fields, Level(k), SubstitutedAll(k, fields));
  }

  lemma {:induction false} SubstitutedRevises(k: nat, fields: Fields)
    requires k < 7
    ensures Revises(fields, fields, Level(k), SubstitutedAll(k, fields))
    decreases k, 3
  {
    forall i | 0 <= i < |fields| ensures Follows(fields[i].value, Level(k)(fields[i]), SubstitutedAll(k, fields)[i]) {
      SubstitutedFollows(k, fields[i]);
    }
  }

  // ----- a filled 404 or 409 response -----

  function AllSame(fields: Fields): (r: seq<Edit>)
    ensures |r| == |fields|
  {
    seq(|fields|, i => Same)
  }

  /** Its description and its content are written anew. */
  function FilledEdit(fields: Fields): Edit
  {
    Node(Rewrite(fields, Rewrite(fields, AllSame(fields), "description", Gone), "content", Gone))
  }

  function FilledContent(description: string, ref: string): Value
  {
    JsonContent(ref, [Entry("message", Str(description))])
  }

  function FilledValue(fields: Fields, description: string, ref: string): Value
  {
    Obj(Put(Put(fields, "description", Str(description)), "content", FilledContent(description, ref)))
  }

  lemma FilledContentRefs(description: string, ref: string)
    ensures Refs(FilledContent(description, ref)) == {ref}
  {
    OneField("message", Str(description));
    JsonContentRefs(ref, [Entry("message", Str(description))]);
  }

  lemma SameRevises(fields: Fields)
    ensures Revises(fields, fields, OpenApiClosure.Same(), AllSame(fields))
  {
    forall i | 0 <= i < |fields| ensures Follows(fields[i].value, fields[i].value, AllSame(fields)[i]) {
      SameFollows(fields[i].value);
    }
  }

  lemma FilledFollows(fields: Fields, description: string, ref: string)
    requires ref != HTTP_VALIDATION_REF
    ensures Follows(Obj(fields), FilledValue(fields, description, ref), FilledEdit(fields))
  {
    var f := OpenApiClosure.Same();
    var described := Put(fields, "description", Str(description));
    var content := FilledContent(description, ref);
    FilledContentRefs(description, ref);
    SameRevises(fields);
    RevisesPut(fields, fields, f, AllSame(fields), "description", Str(description), Gone);
    var edits := Rewrite(fields, AllSame(fields), "description", Gone);
    RevisesPut(fields, described, f, edits, "content", content, Gone);
    var filled := Put(described, "content", content);
    RevisesNode(fields, filled, f, Rewrite(fields, edits, "content", Gone));
    MapSame(filled);
  }

  lemma FilledNoWorse(fields: Fields, description: string, ref: string)
    requires ref != HTTP_VALIDATION_REF && !Refers(Obj(fields))
    ensures !Refers(FilledValue(fields, description, ref))
  {
    var described := Put(fields, "description", Str(description));
    FilledContentRefs(description, ref);
    RefsOfPut(fields, "description", Str(description));
    RefsOfPut(described, "content", FilledContent(description, ref));
    PutFinds(fields, "description", Str(description), REF);
    PutFinds(described, "content", FilledContent(description, ref), REF);
  }

  // ----- the responses of an operation -----

  /** The first entry of the code, if it is a mapping, is filled. */
  function Filled(fields: Fields, edits: seq<Edit>, code: string): (r: seq<Edit>)
    requires |edits| == |fields|
    ensures |r| == |fields|
  {
    seq(|fields|, i requires 0 <= i < |fields| =>
      if FirstAt(fields, code, i) && fields[i].value.Obj? then FilledEdit(fields[i].value.fields) else edits[i])
  }

  /** Entries of the code are still as they were. */
  ghost predicate Untouched(fields: Fields, after: Fields, code: string)
  {
    |fields| <= |after| && forall i {:trigger after[i]} :: 0 <= i < |fields| && fields[i].key == code ==> after[i] == fields[i]
  }

  lemma PutUntouched(fields: Fields, after: Fields, key: string, value: Value, code: string)
    requires Untouched(fields, after, code) && key != code
    ensures Untouched(fields, Put(after, key, value), code)
  {
    PutLength(after, key, value);
    forall i | 0 <= i < |fields| && fields[i].key == code ensures Put(after, key, value)[i] == fields[i] {
      PutAt(after, key, value, i);
      assert after[i] == fields[i];
    }
  }

  lemma SetDefaultUntouched(fields: Fields, after: Fields, key: string, value: Value, code: string)
    requires Untouched(fields, after, code)
    ensures Untouched(fields, SetDefault(after, key, value), code)
  {
    if Find(after, key).None? {
      PutLength(after, key, value);
      forall i | 0 <= i < |fields| && fields[i].key == code ensures Put(after, key, value)[i] == fields[i] {
        PutAt(after, key, value, i);
        assert after[i] == fields[i];
      }
    }
  }

  lemma FillUntouched(fields: Fields, after: Fields, key: string, description: string, ref: string, code: string)
    requires Untouched(fields, after, code) && key != code
    ensures Untouched(fields, Fill(after, key, description, ref), code)
  {
    match Find(after, key)
    case Some(Obj(g)) => PutUntouched(fields, after, key, FilledValue(g, description, ref), code);
    case _ =>
  }

  lemma OtherCode(e: Entry)
    requires e.key != "422"
    ensures Level(3)(e) == e.value
  {
  }

  /** An old entry of the code is the one a lookup finds. */
  lemma UntouchedFound(fields: Fields, after: Fields, f: Entry -> Value, edits: seq<Edit>, code: string) returns (i: nat)
    requires Revises(fields, after, f, edits) && Untouched(fields, after, code) && Find(fields, code).Some?
    ensures FirstAt(fields, code, i) && Find(after, code) == Some(fields[i].value)
  {
    i := FoundFirst(fields, code);
    assert after[i] == fields[i];
    assert forall j :: 0 <= j < |fields| ==> after[j].key == fields[j].key;
    SameFirst(fields, after, code, i);
    FirstFound(after, code, i);
  }

  /** An added entry of the code does not refer to the component. */
  lemma AddedFound(fields: Fields, after: Fields, edits: seq<Edit>, code: string)
    requires Revises(fields, after, Level(3), edits) && code != "422"
    requires Find(fields, code).None? && Find(after, code).Some?
    ensures !Refers(Find(after, code).value)
  {
    var j := FoundFirst(after, code);
    FirstFound(after, code, j);
    forall x | 0 <= x < |fields| ensures after[x].key != code {
      assert after[x].key == fields[x].key;
    }
    OtherCode(after[j]);
  }

  lemma FillsOld(fields: Fields, after: Fields, edits: seq<Edit>, code: string, description: string, ref: string, i: nat)
    requires Revises(fields, after, Level(3), edits) && code != "422" && code != REF && ref != HTTP_VALIDATION_REF
    requires FirstAt(fields, code, i) && fields[i].value.Obj?
    ensures Revises(fields, Put(after, code, FilledValue(fields[i].value.fields, description, ref)), Level(3), Filled(fields, edits, code))
  {
    var g := fields[i].value.fields;
    var value := FilledValue(g, description, ref);
    FilledFollows(g, description, ref);
    OtherCode(Entry(code, value));
    RevisesPut(fields, after, Level(3), edits, code, value, FilledEdit(g));
    FirstFilled(fields, edits, code, i);
  }

  lemma FirstFilled(fields: Fields, edits: seq<Edit>, code: string, i: nat)
    requires |edits| == |fields| && FirstAt(fields, code, i) && fields[i].value.Obj?
    ensures Rewrite(fields, edits, code, FilledEdit(fields[i].value.fields)) == Filled(fields, edits, code)
  {
    assert forall j: nat :: FirstAt(fields, code, j) ==> j == i;
  }

  lemma FillsAdded(fields: Fields, after: Fields, edits: seq<Edit>, code: string, description: string, ref: string)
    requires Revises(fields, after, Level(3), edits) && code != "422" && code != REF && ref != HTTP_VALIDATION_REF
    requires Find(fields, code).None? && Find(after, code).Some? && Find(after, code).value.Obj?
    ensures Revises(fields, Put(after, code, FilledValue(Find(after, code).value.fields, description, ref)), Level(3), edits)
  {
    var g := Find(after, code).value.fields;
    AddedFound(fields, after, edits, code);
    FilledNoWorse(g, description, ref);
    OtherCode(Entry(code, FilledValue(g, description, ref)));
    RevisesPut(fields, after, Level(3), edits, code, FilledValue(g, description, ref), Gone);
    assert Rewrite(fields, edits, code, Gone) == edits;
  }

  lemma NothingFilled(fields: Fields, edits: seq<Edit>, code: string)
    requires |edits| == |fields| && forall i: nat :: FirstAt(fields, code, i) ==> !fields[i].value.Obj?
    ensures Filled(fields, edits, code) == edits
  {
  }

  lemma FillIs(after: Fields, code: string, description: string, ref: string)
    ensures Fill(after, code, description, ref)
            == if Find(after, code).Some? && Find(after, code).value.Obj?
               then Put(after, code, FilledValue(Find(after, code).value.fields, description, ref)) else after
  {
  }

  lemma RevisesFill(fields: Fields, after: Fields, edits: seq<Edit>, code: string, description: string, ref: string)
    requires Revises(fields, after, Level(3), edits) && Untouched(fields, after, code)
    requires code != "422" && code != REF && ref != HTTP_VALIDATION_REF
    ensures Revises(fields, Fill(after, code, description, ref), Level(3), Filled(fields, edits, code))
  {
    FillIs(after, code, description, ref);
    if Find(fields, code).Some? {
      var i := UntouchedFound(fields, after, Level(3), edits, code);
      if fields[i].value.Obj? {
        FillsOld(fields, after, edits, code, description, ref, i);
      } else {
        NothingFilled(fields, edits, code);
      }
    } else {
      NothingFilled(fields, edits, code);
      if Find(after, code).Some? && Find(after, code).value.Obj? {
        FillsAdded(fields, after, edits, code, description, ref);
      }
    }
  }

  lemma OtherRefs()
    ensures VALIDATION_ERROR_REF != HTTP_VALIDATION_REF && NOT_FOUND_ERROR_REF != HTTP_VALIDATION_REF
    ensures CONFLICT_ERROR_REF != HTTP_VALIDATION_REF
    ensures UNAUTHORIZED_REF != HTTP_VALIDATION_REF && FORBIDDEN_REF != HTTP_VALIDATION_REF
  {
    NotInjected();
  }

  lemma InvalidRefersElsewhere()
    ensures !Refers(Level(3)(Entry("422", INVALID_RESPONSE)))
  {
    OtherRefs();
    JsonResponseRefs("Validation error", VALIDATION_ERROR_REF);
    LevelAdds(3, Entry("422", INVALID_RESPONSE));
  }

  lemma DescribedRefersNowhere(code: string, description: string)
    requires code != "422"
    ensures !Refers(Level(3)(Entry(code, Obj([Entry("description", Str(description))]))))
  {
    DescriptionRefs(description);
    OtherCode(Entry(code, Obj([Entry("description", Str(description))])));
  }

  lemma AuthErrorRefersElsewhere(code: string, ref: string)
    requires code != "422" && ref != HTTP_VALIDATION_REF
    ensures !Refers(Level(3)(Entry(code, RefNode(ref))))
  {
    RefNodeRefs(ref);
    OtherCode(Entry(code, RefNode(ref)));
  }

  /** The 422 response is replaced, 404 and 409 are filled. */
  function AdminEdits(fields: Fields, edits: seq<Edit>): (r: seq<Edit>)
    requires |edits| == |fields|
    ensures |r| == |fields|
  {
    Filled(fields, Filled(fields, Rewrite(fields, edits, "422", Gone), "404"), "409")
  }

  lemma InvalidRevises(fields: Fields, after: Fields, edits: seq<Edit>)
    requires Revises(fields, after, Level(3), edits)
    ensures Revises(fields, Put(after, "422", INVALID_RESPONSE), Level(3), Rewrite(fields, edits, "422", Gone))
  {
    InvalidRefersElsewhere();
    RevisesPut(fields, after, Level(3), edits, "422", INVALID_RESPONSE, Gone);
  }

  lemma DefaultsRevise(path: string, verb: string, fields: Fields, r1: Fields, edits: seq<Edit>) returns (r3: Fields)
    requires Revises(fields, r1, Level(3), edits) && Untouched(fields, r1, "404") && Untouched(fields, r1, "409")
    ensures Revises(fields, r3, Level(3), edits) && Untouched(fields, r3, "404") && Untouched(fields, r3, "409")
    ensures var missing := Obj([Entry("description", Str(NotFoundDescription(path)))]);
            var conflict := Obj([Entry("description", Str("Resource conflict"))]);
            var r2 := if NeedsNotFound(path, verb) then SetDefault(r1, "404", missing) else r1;
            r3 == if Mutates(verb) then SetDefault(r2, "409", conflict) else r2
  {
    var missing := Obj([Entry("description", Str(NotFoundDescription(path)))]);
    var conflict := Obj([Entry("description", Str("Resource conflict"))]);
    DescribedRefersNowhere("404", NotFoundDescription(path));
    DescribedRefersNowhere("409", "Resource conflict");
    var r2 := r1;
    if NeedsNotFound(path, verb) {
      r2 := SetDefault(r1, "404", missing);
      RevisesSetDefault(fields, r1, Level(3), edits, "404", missing);
      SetDefaultUntouched(fields, r1, "404", missing, "404");
      SetDefaultUntouched(fields, r1, "404", missing, "409");
    }
    r3 := r2;
    if Mutates(verb) {
      r3 := SetDefault(r2, "409", conflict);
      RevisesSetDefault(fields, r2, Level(3), edits, "409", conflict);
      SetDefaultUntouched(fields, r2, "409", conflict, "404");
      SetDefaultUntouched(fields, r2, "409", conflict, "409");
    }
  }

  lemma FillsRevise(path: string, fields: Fields, r3: Fields, edits: seq<Edit>)
    requires Revises(fields, r3, Level(3), edits) && Untouched(fields, r3, "404") && Untouched(fields, r3, "409")
    ensures Revises(fields, Fill(Fill(r3, "404", NotFoundDescription(path), NOT_FOUND_ERROR_REF), "409", "Resource conflict", CONFLICT_ERROR_REF),
                    Level(3), Filled(fields, Filled(fields, edits, "404"), "409"))
  {
    OtherRefs();
    RevisesFill(fields, r3, edits, "404", NotFoundDescription(path), NOT_FOUND_ERROR_REF);
    FillUntouched(fields, r3, "404", NotFoundDescription(path), NOT_FOUND_ERROR_REF, "409");
    RevisesFill(fields, Fill(r3, "404", NotFoundDescription(path), NOT_FOUND_ERROR_REF), Filled(fields, edits, "404"),
                "409", "Resource conflict", CONFLICT_ERROR_REF);
  }

  lemma AdminRevises(path: string, verb: string, fields: Fields, after: Fields, edits: seq<Edit>)
    requires Revises(fields, after, Level(3), edits) && Untouched(fields, after, "404") && Untouched(fields, after, "409")
    ensures Revises(fields, AdminResponses(path, verb, after), Level(3), AdminEdits(fields, edits))
  {
    InvalidRevises(fields, after, edits);
    PutUntouched(fields, after, "422", INVALID_RESPONSE, "404");
    PutUntouched(fields, after, "422", INVALID_RESPONSE, "409");
    var r3 := DefaultsRevise(path, verb, fields, Put(after, "422", INVALID_RESPONSE), Rewrite(fields, edits, "422", Gone));
    FillsRevise(path, fields, r3, Rewrite(fields, edits, "422", Gone));
  }

  /** The responses an operation ends up with, if a phase touches them. */
  function NewResponses(path: string, verb: string, op: Fields): Fields
  {
    var r1 := if IsAuthForm(path, verb) then Put(Responses(op), "422", INVALID_RESPONSE) else Responses(op);
    var r2 := if IsAdmin(path) then AdminResponses(path, verb, r1) else r1;
    if IsPublic(path) || !Secured(op) then r2 else WithAuthErrors(r2)
  }

  /** The last loop looks at every response; the phases before it replace 422 and fill 404 and 409. */
  function ResponsesEdits(path: string, verb: string, fields: Fields): (r: seq<Edit>)
    ensures |r| == |fields|
  {
    var e0 := SubstitutedAll(3, fields);
    var e1 := if IsAuthForm(path, verb) then Rewrite(fields, e0, "422", Gone) else e0;
    if IsAdmin(path) then AdminEdits(fields, e1) else e1
  }

  lemma AuthErrorsRevise(fields: Fields, after: Fields, edits: seq<Edit>)
    requires Revises(fields, after, Level(3), edits)
    ensures Revises(fields, WithAuthErrors(after), Level(3), edits)
  {
    OtherRefs();
    AuthErrorRefersElsewhere("401", UNAUTHORIZED_REF);
    AuthErrorRefersElsewhere("403", FORBIDDEN_REF);
    RevisesSetDefault(fields, after, Level(3), edits, "401", RefNode(UNAUTHORIZED_REF));
    RevisesSetDefault(fields, SetDefault(after, "401", RefNode(UNAUTHORIZED_REF)), Level(3), edits, "403", RefNode(FORBIDDEN_REF));
  }

  lemma ResponsesRevise(path: string, verb: string, op: Fields)
    ensures Revises(Responses(op), NewResponses(path, verb, op), Level(3), ResponsesEdits(path, verb, Responses(op)))
  {
    var fields := Responses(op);
    var e0 := SubstitutedAll(3, fields);
    SubstitutedRevises(3, fields);
    var r1, e1 := fields, e0;
    if IsAuthForm(path, verb) {
      r1, e1 := Put(fields, "422", INVALID_RESPONSE), Rewrite(fields, e0, "422", Gone);
      InvalidRevises(fields, fields, e0);
      PutUntouched(fields, fields, "422", INVALID_RESPONSE, "404");
      PutUntouched(fields, fields, "422", INVALID_RESPONSE, "409");
    }
    var r2, e2 := r1, e1;
    if IsAdmin(path) {
      r2, e2 := AdminResponses(path, verb, r1), AdminEdits(fields, e1);
      AdminRevises(path, verb, fields, r1, e1);
    }
    AuthErrorsRevise(fields, r2, e2);
  }

  // ----- one operation -----

  predicate TouchesResponses(path: string, verb: string, op: Fields)
  {
    IsAuthForm(path, verb) || IsAdmin(path) || (!IsPublic(path) && Secured(op))
  }

  lemma {:induction false} PutPut(fields: Fields, key: string, v: Value, w: Value)
    ensures Put(Put(fields, key, v), key, w) == Put(fields, key, w)
  {
    if fields != [] && fields[0].key != key {
      PutPut(fields[1..], key, v, w);
    }
  }

  /** Storing the responses and reading them back; nothing else is changed. */
  lemma StoredResponses(op: Fields, responses: Fields)
    ensures var stored := Put(op, "responses", Obj(responses));
            Responses(stored) == responses && Secured(stored) == Secured(op) && Parameters(stored) == Parameters(op)
            && forall again :: Put(stored, "responses", Obj(again)) == Put(op, "responses", Obj(again))
  {
    PutFinds(op, "responses", Obj(responses), "responses");
    PutFinds(op, "responses", Obj(responses), "security");
    PutFinds(op, "responses", Obj(responses), "parameters");
    forall again ensures Put(Put(op, "responses", Obj(responses)), "responses", Obj(again)) == Put(op, "responses", Obj(again)) {
      PutPut(op, "responses", Obj(responses), Obj(again));
    }
  }

  /** The first two phases store the responses once. */
  lemma ResponsesStored(path: string, verb: string, op: Fields)
    ensures AuthResponses(path, ErrorResponses(path, verb, op))
            == if TouchesResponses(path, verb, op) then Put(op, "responses", Obj(NewResponses(path, verb, op))) else op
  {
    var r1 := if IsAuthForm(path, verb) then Put(Responses(op), "422", INVALID_RESPONSE) else Responses(op);
    var r2 := if IsAdmin(path) then AdminResponses(path, verb, r1) else r1;
    StoredResponses(op, r1);
    StoredResponses(op, r2);
  }

  predicate TouchesParameters(path: string, verb: string, op: Fields)
  {
    NeedsIdempotencyKey(path, verb, Parameters(op)) || IsStoreCreate(path, verb)
  }

  function WithKey(path: string, verb: string, parameters: seq<Value>): seq<Value>
  {
    if NeedsIdempotencyKey(path, verb, parameters) then parameters + [IDEMPOTENCY_KEY_PARAMETER] else parameters
  }

  function NewParameters(path: string, verb: string, parameters: seq<Value>): seq<Value>
  {
    var keyed := WithKey(path, verb, parameters);
    if IsStoreCreate(path, verb) then WithoutTenant(Dedupe(keyed)) else keyed
  }

  lemma ParametersStored(path: string, verb: string, op: Fields)
    ensures StoreCreateParameters(path, verb, IdempotencyHeader(path, verb, op))
            == if TouchesParameters(path, verb, op) then Put(op, "parameters", Arr(NewParameters(path, verb, Parameters(op)))) else op
  {
    var keyed := Parameters(op) + [IDEMPOTENCY_KEY_PARAMETER];
    PutFinds(op, "parameters", Arr(keyed), "parameters");
    PutPut(op, "parameters", Arr(keyed), Arr(WithoutTenant(Dedupe(keyed))));
  }

  predicate KeepsParameter(parameters: seq<Value>, j: nat)
    requires j < |parameters|
  {
    OpenApiHardener.IsFirst(parameters, j) && !IsParameter(parameters[j], "query", "tenant_id")
  }

  /** Of the parameters of store creation those repeated and the tenant query are dropped; a `parameters` that is no list is replaced. */
  function ParametersEdit(path: string, verb: string, v: Value): Edit
  {
    if !v.Arr? then Gone
    else if IsStoreCreate(path, verb) then Node(ParameterEdits(v.items))
    else Same
  }

  lemma ItemsRefer(items: seq<Value>)
    ensures Refers(Arr(items)) <==> exists i :: 0 <= i < |items| && Refers(items[i])
  {
    RefsOfItemsMember(items, HTTP_VALIDATION_REF);
  }

  lemma {:induction false} WithoutTenantMembers(parameters: seq<Value>, p: Value)
    ensures p in WithoutTenant(parameters) <==> p in parameters && !IsParameter(p, "query", "tenant_id")
  {
    if parameters != [] {
      WithoutTenantMembers(parameters[..|parameters| - 1], p);
    }
  }

  lemma DedupeMember(parameters: seq<Value>, p: Value)
    ensures p in Dedupe(parameters) <==> exists j :: 0 <= j < |parameters| && OpenApiHardener.IsFirst(parameters, j) && parameters[j] == p
  {
    var at := OpenApiHardener.DedupeKeepsFirsts(parameters);
    if j :| 0 <= j < |parameters| && OpenApiHardener.IsFirst(parameters, j) && parameters[j] == p {
      var k :| 0 <= k < |at| && at[k] == j;
      assert Dedupe(parameters)[k] == p;
    }
    if p in Dedupe(parameters) {
      var k :| 0 <= k < |Dedupe(parameters)| && Dedupe(parameters)[k] == p;
      assert at[k] in at;
    }
  }

  lemma FirstKeyed(path: string, verb: string, parameters: seq<Value>, j: nat)
    requires j < |parameters|
    ensures j < |WithKey(path, verb, parameters)| && WithKey(path, verb, parameters)[j] == parameters[j]
    ensures OpenApiHardener.IsFirst(WithKey(path, verb, parameters), j) <==> OpenApiHardener.IsFirst(parameters, j)
  {
    var keyed := WithKey(path, verb, parameters);
    assert forall x :: 0 <= x <= j ==> keyed[x] == parameters[x];
  }

  lemma StoreParametersRefer(path: string, verb: string, parameters: seq<Value>)
    requires IsStoreCreate(path, verb)
    ensures Refers(Arr(NewParameters(path, verb, parameters)))
            <==> exists j :: 0 <= j < |parameters| && KeepsParameter(parameters, j) && Refers(parameters[j])
  {
    var keyed := WithKey(path, verb, parameters);
    var kept := NewParameters(path, verb, parameters);
    ItemsRefer(kept);
    if i :| 0 <= i < |kept| && Refers(kept[i]) {
      assert kept[i] in kept;
      WithoutTenantMembers(Dedupe(keyed), kept[i]);
      DedupeMember(keyed, kept[i]);
      var j :| 0 <= j < |keyed| && OpenApiHardener.IsFirst(keyed, j) && keyed[j] == kept[i];
      if j >= |parameters| {
        IdempotencyKeyRefs();
      } else {
        FirstKeyed(path, verb, parameters, j);
        assert KeepsParameter(parameters, j);
      }
    }
    if j :| 0 <= j < |parameters| && KeepsParameter(parameters, j) && Refers(parameters[j]) {
      FirstKeyed(path, verb, parameters, j);
      DedupeMember(keyed, parameters[j]);
      WithoutTenantMembers(Dedupe(keyed), parameters[j]);
      var i :| 0 <= i < |kept| && kept[i] == parameters[j];
    }
  }

  lemma ReferredInItem(items: seq<Value>, path: Path)
    ensures ReferredAt(Arr(items), path) <==> path != [] && path[0] < |items| && ReferredAt(items[path[0]], path[1..])
  {
  }

  lemma ItemKept(items: seq<Value>, edits: seq<Edit>, j: nat) returns (path: Path)
    requires j < |items| == |edits| && edits[j].Same? && Refers(items[j])
    ensures KeptReference(Arr(items), Node(edits), path)
  {
    var below := Referred(items[j]);
    path := [j] + below;
    assert path[1..] == below;
    ReferredInItem(items, path);
  }

  lemma KeptItem(items: seq<Value>, edits: seq<Edit>, path: Path)
    requires |items| == |edits| && KeptReference(Arr(items), Node(edits), path)
    ensures path != [] && path[0] < |items| && !edits[path[0]].Gone? && Refers(items[path[0]])
  {
    ReferredInItem(items, path);
    ReferredIsRef(items[path[0]], path[1..]);
    assert Kept(edits[path[0]], path[1..]);
  }

  function ParameterEdits(items: seq<Value>): (r: seq<Edit>)
    ensures |r| == |items| && forall j :: 0 <= j < |items| ==> r[j] == if KeepsParameter(items, j) then Same else Gone
  {
    seq(|items|, j requires 0 <= j < |items| => if KeepsParameter(items, j) then Same else Gone)
  }

  lemma StoreParametersFollow(path: string, verb: string, items: seq<Value>)
    requires IsStoreCreate(path, verb)
    ensures Follows(Arr(items), Arr(NewParameters(path, verb, items)), Node(ParameterEdits(items)))
  {
    var edits := ParameterEdits(items);
    StoreParametersRefer(path, verb, items);
    if j :| 0 <= j < |items| && KeepsParameter(items, j) && Refers(items[j]) {
      var kept := ItemKept(items, edits, j);
    }
    if kept :| KeptReference(Arr(items), Node(edits), kept) {
      KeptItem(items, edits, kept);
      assert KeepsParameter(items, kept[0]);
    }
  }

  lemma KeyedFollow(path: string, verb: string, items: seq<Value>)
    ensures Follows(Arr(items), Arr(WithKey(path, verb, items)), Same)
  {
    var keyed := WithKey(path, verb, items);
    SameFollows(Arr(items));
    ItemsRefer(items);
    ItemsRefer(keyed);
    IdempotencyKeyRefs();
    assert forall i :: 0 <= i < |items| ==> keyed[i] == items[i];
  }

  lemma NoParametersRefer(path: string, verb: string)
    ensures !Refers(Arr(NewParameters(path, verb, [])))
  {
    if IsStoreCreate(path, verb) {
      StoreParametersRefer(path, verb, []);
    } else {
      KeyedFollow(path, verb, []);
      ItemsRefer([]);
      SameFollows(Arr([]));
    }
  }

  lemma ParametersFollow(path: string, verb: string, op: Fields, i: nat)
    requires FirstAt(op, "parameters", i)
    ensures Follows(op[i].value, Arr(NewParameters(path, verb, Parameters(op))), ParametersEdit(path, verb, op[i].value))
  {
    FirstFound(op, "parameters", i);
    if op[i].value.Arr? {
      if IsStoreCreate(path, verb) {
        StoreParametersFollow(path, verb, op[i].value.items);
      } else {
        KeyedFollow(path, verb, op[i].value.items);
      }
    } else {
      NoParametersRefer(path, verb);
    }
  }

  /** A `responses` that is no mapping is replaced. */
  function ResponsesEdit(path: string, verb: string, v: Value): Edit
  {
    if v.Obj? then Node(ResponsesEdits(path, verb, v.fields)) else Gone
  }

  /** What hardening does to one operation, entry by entry. */
  function OperationEdits(path: string, verb: string, op: Fields): (r: seq<Edit>)
    ensures |r| == |op|
  {
    var e0 := SubstitutedAll(4, op);
    var e1 := if TouchesResponses(path, verb, op) then EditFirst(op, e0, "responses", v => ResponsesEdit(path, verb, v)) else e0;
    if TouchesParameters(path, verb, op) then EditFirst(op, e1, "parameters", v => ParametersEdit(path, verb, v)) else e1
  }

  function EditFirst(fields: Fields, edits: seq<Edit>, key: string, edit: Value -> Edit): (r: seq<Edit>)
    requires |edits| == |fields|
    ensures |r| == |fields|
  {
    seq(|fields|, i requires 0 <= i < |fields| => if FirstAt(fields, key, i) then edit(fields[i].value) else edits[i])
  }

  lemma RevisesFirst(fields: Fields, after: Fields, f: Entry -> Value, edits: seq<Edit>, key: string, value: Value, edit: Value -> Edit)
    requires Revises(fields, after, f, edits) && key != REF
    requires forall i: nat :: FirstAt(fields, key, i) ==> Follows(fields[i].value, f(Entry(key, value)), edit(fields[i].value))
    requires Find(fields, key).None? ==> !Refers(f(Entry(key, value)))
    ensures Revises(fields, Put(after, key, value), f, EditFirst(fields, edits, key, edit))
  {
    if Find(fields, key).Some? {
      var i := FoundFirst(fields, key);
      RevisesPut(fields, after, f, edits, key, value, edit(fields[i].value));
      assert Rewrite(fields, edits, key, edit(fields[i].value)) == EditFirst(fields, edits, key, edit);
    } else {
      RevisesPut(fields, after, f, edits, key, value, Gone);
      assert Rewrite(fields, edits, key, Gone) == EditFirst(fields, edits, key, edit);
    }
  }

  lemma StoredLevel(responses: Fields)
    ensures Level(4)(Entry("responses", Obj(responses))) == Obj(Map(responses, Level(3)))
  {
  }

  lemma OtherKey(e: Entry)
    requires e.key != "responses"
    ensures Level(4)(e) == e.value
  {
  }

  lemma ResponsesFollow(path: string, verb: string, op: Fields, i: nat)
    requires FirstAt(op, "responses", i)
    ensures Follows(op[i].value, Obj(Map(NewResponses(path, verb, op), Level(3))), ResponsesEdit(path, verb, op[i].value))
  {
    FirstFound(op, "responses", i);
    ResponsesRevise(path, verb, op);
    LevelTransparent(3);
    RevisesNode(Responses(op), NewResponses(path, verb, op), Level(3), ResponsesEdits(path, verb, Responses(op)));
    if !op[i].value.Obj? {
      EmptyRefersNowhere(path, verb);
    }
  }

  /** From no responses at all no reference comes. */
  lemma EmptyRefersNowhere(path: string, verb: string)
    ensures forall path': Path :: !KeptReference(Obj([]), Node(ResponsesEdits(path, verb, [])), path')
  {
    forall path': Path ensures !KeptReference(Obj([]), Node(ResponsesEdits(path, verb, [])), path') {
      ReferredInside([], path');
    }
  }

  lemma NewResponsesAbsent(path: string, verb: string, op: Fields)
    requires Find(op, "responses").None?
    ensures !Refers(Obj(Map(NewResponses(path, verb, op), Level(3))))
  {
    ResponsesRevise(path, verb, op);
    LevelTransparent(3);
    RevisesNode([], NewResponses(path, verb, op), Level(3), ResponsesEdits(path, verb, []));
    EmptyRefersNowhere(path, verb);
  }

  lemma ResponsesPhase(path: string, verb: string, op: Fields)
    ensures Revises(op, Put(op, "responses", Obj(NewResponses(path, verb, op))), Level(4),
                    EditFirst(op, SubstitutedAll(4, op), "responses", v => ResponsesEdit(path, verb, v)))
  {
    var responses := NewResponses(path, verb, op);
    SubstitutedRevises(4, op);
    StoredLevel(responses);
    assert "responses"[0] == 'r' && REF[0] == '$';
    forall i: nat | FirstAt(op, "responses", i)
      ensures Follows(op[i].value, Obj(Map(responses, Level(3))), ResponsesEdit(path, verb, op[i].value)) {
      ResponsesFollow(path, verb, op, i);
    }
    if Find(op, "responses").None? {
      NewResponsesAbsent(path, verb, op);
    }
    RevisesFirst(op, op, Level(4), SubstitutedAll(4, op), "responses", Obj(responses), v => ResponsesEdit(path, verb, v));
  }

  lemma ParametersPhase(path: string, verb: string, op: Fields, after: Fields, edits: seq<Edit>)
    requires Revises(op, after, Level(4), edits)
    ensures Revises(op, Put(after, "parameters", Arr(NewParameters(path, verb, Parameters(op)))), Level(4),
                    EditFirst(op, edits, "parameters", v => ParametersEdit(path, verb, v)))
  {
    var value := Arr(NewParameters(path, verb, Parameters(op)));
    OtherKey(Entry("parameters", value));
    assert "parameters"[0] == 'p' && REF[0] == '$';
    forall i: nat | FirstAt(op, "parameters", i) ensures Follows(op[i].value, value, ParametersEdit(path, verb, op[i].value)) {
      ParametersFollow(path, verb, op, i);
    }
    if Find(op, "parameters").None? {
      NoParametersRefer(path, verb);
    }
    RevisesFirst(op, after, Level(4), edits, "parameters", value, v => ParametersEdit(path, verb, v));
  }

  lemma OperationRevises(path: string, verb: string, op: Fields)
    ensures Revises(op, HardenOperation(path, verb, op), Level(4), OperationEdits(path, verb, op))
  {
    var stored := AuthResponses(path, ErrorResponses(path, verb, op));
    ResponsesStored(path, verb, op);
    ParametersStored(path, verb, stored);
    StoredResponses(op, NewResponses(path, verb, op));
    SubstitutedRevises(4, op);
    ResponsesPhase(path, verb, op);
    var e0 := SubstitutedAll(4, op);
    var e1 := if TouchesResponses(path, verb, op) then EditFirst(op, e0, "responses", v => ResponsesEdit(path, verb, v)) else e0;
    ParametersPhase(path, verb, op, stored, e1);
  }

  // ----- the document -----

  function EntryEdit(path: string, e: Entry): Edit
  {
    if IsVerb(e.key) && e.value.Obj? then Node(OperationEdits(path, e.key, e.value.fields)) else Substituted(5, e)
  }

  function EntriesEdits(path: string, fields: Fields): (r: seq<Edit>)
    ensures |r| == |fields|
  {
    seq(|fields|, i requires 0 <= i < |fields| => EntryEdit(path, fields[i]))
  }

  function ItemEdit(e: Entry): Edit
  {
    if e.value.Obj? then Node(EntriesEdits(e.key, e.value.fields)) else Same
  }

  lemma EntryFollows(path: string, e: Entry)
    ensures Follows(e.value, HardenedEntry(path)(e), EntryEdit(path, e))
  {
    if IsVerb(e.key) && e.value.Obj? {
      var op := e.value.fields;
      OperationRevises(path, e.key, op);
      LevelTransparent(4);
      RevisesNode(op, HardenOperation(path, e.key, op), Level(4), OperationEdits(path, e.key, op));
      assert HardenEntry(path)(e) == Obj(HardenOperation(path, e.key, op));
      assert HardenedEntry(path)(e) == Obj(Map(HardenOperation(path, e.key, op), Level(4)));
    } else {
      assert HardenEntry(path)(e) == e.value;
      assert HardenedEntry(path)(e) == Level(5)(e);
      SubstitutedFollows(5, e);
    }
  }

  lemma HardenedTransparent(path: string)
    ensures Transparent(HardenedEntry(path)) && Transparent(HardenedItem())
  {
    RefIsNoVerb();
    forall v ensures HardenedEntry(path)(Entry(REF, v)) == v || (v.Obj? && HardenedEntry(path)(Entry(REF, v)).Obj?) {
      assert HardenEntry(path)(Entry(REF, v)) == v;
    }
    forall v ensures HardenedItem()(Entry(REF, v)) == v || (v.Obj? && HardenedItem()(Entry(REF, v)).Obj?) {
      var w := HardenItem()(Entry(REF, v));
      assert if v.Obj? then w.Obj? else w == v;
      assert HardenedItem()(Entry(REF, v)) == SubstituteItem()(Entry(REF, w));
    }
  }

  lemma EntriesFollow(path: string, fields: Fields)
    ensures Follows(Obj(fields), Obj(Map(fields, HardenedEntry(path))), Node(EntriesEdits(path, fields)))
  {
    forall i | 0 <= i < |fields| ensures Follows(fields[i].value, HardenedEntry(path)(fields[i]), EntriesEdits(path, fields)[i]) {
      EntryFollows(path, fields[i]);
    }
    HardenedTransparent(path);
    RevisesNode(fields, fields, HardenedEntry(path), EntriesEdits(path, fields));
  }

  lemma ItemFollows(e: Entry)
    ensures Follows(e.value, HardenedItem()(e), ItemEdit(e))
  {
    if e.value.Obj? {
      var fields := e.value.fields;
      EntriesFollow(e.key, fields);
      MapMap(fields, HardenEntry(e.key), SubstituteOperation(), HardenedEntry(e.key));
      assert HardenItem()(e) == Obj(Map(fields, HardenEntry(e.key)));
    } else {
      assert HardenItem()(e) == e.value;
      SameFollows(e.value);
    }
  }

  function PathsEdits(paths: Fields): (r: seq<Edit>)
    ensures |r| == |paths|
  {
    seq(|paths|, i requires 0 <= i < |paths| => ItemEdit(paths[i]))
  }

  lemma PathsFollow(d: Doc)
    ensures Follows(Obj(d.paths), Obj(Harden(d).paths), Node(PathsEdits(d.paths)))
  {
    forall i | 0 <= i < |d.paths| ensures Follows(d.paths[i].value, HardenedItem()(d.paths[i]), PathsEdits(d.paths)[i]) {
      ItemFollows(d.paths[i]);
    }
    HardenedTransparent("");
    RevisesNode(d.paths, d.paths, HardenedItem(), PathsEdits(d.paths));
    MapMap(d.paths, HardenItem(), SubstituteItem(), HardenedItem());
  }

  /** An entry the injected ones overwrite: the first of its key. */
  predicate Overwritten(fields: Fields, entries: Fields, i: nat)
    requires i < |fields|
  {
    HasKey(entries, fields[i].key) && FirstAt(fields, fields[i].key, i)
  }

  function InjectedEdits(fields: Fields, entries: Fields, edits: seq<Edit>): (r: seq<Edit>)
    requires |edits| == |fields|
    ensures |r| == |fields|
  {
    seq(|fields|, i requires 0 <= i < |fields| => if Overwritten(fields, entries, i) then Gone else edits[i])
  }

  lemma OneMoreEntry(fields: Fields, entries: Fields, edits: seq<Edit>, n: nat)
    requires |edits| == |fields| && |entries| == n + 1
    ensures Rewrite(fields, InjectedEdits(fields, entries[..n], edits), entries[n].key, Gone) == InjectedEdits(fields, entries, edits)
  {
    forall i | 0 <= i < |fields|
      ensures HasKey(entries, fields[i].key) <==> HasKey(entries[..n], fields[i].key) || entries[n].key == fields[i].key {
      FindAppend(entries[..n], [entries[n]], fields[i].key);
      assert entries == entries[..n] + [entries[n]];
      assert [entries[n]][1..] == [];
    }
  }

  lemma {:induction false} PutAllRevises(fields: Fields, entries: Fields, f: Entry -> Value, edits: seq<Edit>)
    requires Revises(fields, fields, f, edits)
    requires forall i :: 0 <= i < |entries| ==> entries[i].key != REF && !Refers(f(entries[i]))
    ensures Revises(fields, PutAll(fields, entries), f, InjectedEdits(fields, entries, edits))
  {
    if entries == [] {
      assert InjectedEdits(fields, entries, edits) == edits;
    } else {
      var n := |entries| - 1;
      PutAllRevises(fields, entries[..n], f, edits);
      assert Entry(entries[n].key, entries[n].value) == entries[n];
      RevisesPut(fields, PutAll(fields, entries[..n]), f, InjectedEdits(fields, entries[..n], edits),
                 entries[n].key, entries[n].value, Gone);
      OneMoreEntry(fields, entries, edits, n);
    }
  }

  /** A dropped entry refers to nothing. */
  function Blank(key: string): Entry -> Value
  {
    (e: Entry) => if e.key == key then Null else e.value
  }

  lemma {:induction false} DropIsBlank(fields: Fields, key: string)
    ensures RefsOfFields(Drop(fields, key)) == RefsOfFields(Map(fields, Blank(key)))
  {
    if fields != [] {
      DropIsBlank(fields[1..], key);
      assert Map(fields, Blank(key))[1..] == Map(fields[1..], Blank(key));
      if fields[0].key != key {
        assert Drop(fields, key)[1..] == Drop(fields[1..], key);
      }
    }
  }

  lemma OwnOrBelow(fields: Fields)
    ensures Refers(Obj(fields)) <==> RefOf(Obj(fields)) == Some(HTTP_VALIDATION_REF) || HTTP_VALIDATION_REF in RefsOfFields(fields)
  {
  }

  lemma DropRefers(fields: Fields, key: string)
    requires key != REF
    ensures Refers(Obj(Drop(fields, key))) <==> Refers(Obj(Map(fields, Blank(key))))
  {
    DropIsBlank(fields, key);
    DropFinds(fields, key, REF);
    MapFinds(fields, Blank(key), REF);
    assert Find(Drop(fields, key), REF) == Find(Map(fields, Blank(key)), REF);
    OwnOrBelow(Drop(fields, key));
    OwnOrBelow(Map(fields, Blank(key)));
  }

  function Blanked(fields: Fields, key: string): (r: seq<Edit>)
    ensures |r| == |fields|
  {
    seq(|fields|, i requires 0 <= i < |fields| => if fields[i].key == key then Gone else Same)
  }

  lemma BlankRevises(fields: Fields, key: string)
    ensures Revises(fields, fields, Blank(key), Blanked(fields, key))
  {
    forall i | 0 <= i < |fields| ensures Follows(fields[i].value, Blank(key)(fields[i]), Blanked(fields, key)[i]) {
      SameFollows(fields[i].value);
    }
  }

  /** The error schemas are written over those of the same names, and HTTPValidationError goes. */
  function SchemasEdits(schemas: Fields): (r: seq<Edit>)
    ensures |r| == |schemas|
  {
    InjectedEdits(schemas, ERROR_SCHEMAS, Blanked(schemas, HTTP_VALIDATION_ERROR))
  }

  /** The error responses are written over those of the same names. */
  function ComponentResponsesEdits(responses: Fields): (r: seq<Edit>)
    ensures |r| == |responses|
  {
    InjectedEdits(responses, ERROR_RESPONSES, AllSame(responses))
  }

  lemma EntryRefers(entries: Fields, i: nat)
    requires i < |entries| && HTTP_VALIDATION_REF !in RefsOfFields(entries)
    ensures !Refers(entries[i].value)
  {
    RefsOfFieldsMember(entries, HTTP_VALIDATION_REF);
  }

  lemma InjectedReferElsewhere()
    ensures HTTP_VALIDATION_REF !in RefsOfFields(ERROR_SCHEMAS) && HTTP_VALIDATION_REF !in RefsOfFields(ERROR_RESPONSES)
  {
    InjectedRefs();
    NotInjected();
  }

  lemma SchemasInjected(schemas: Fields, entries: Fields, key: string)
    requires key != REF && HTTP_VALIDATION_REF !in RefsOfFields(entries)
    requires forall i :: 0 <= i < |entries| ==> entries[i].key != REF
    ensures Follows(Obj(schemas), Obj(Drop(PutAll(schemas, entries), key)), Node(InjectedEdits(schemas, entries, Blanked(schemas, key))))
  {
    forall i | 0 <= i < |entries| ensures !Refers(Blank(key)(entries[i])) {
      EntryRefers(entries, i);
    }
    BlankRevises(schemas, key);
    PutAllRevises(schemas, entries, Blank(key), Blanked(schemas, key));
    RevisesNode(schemas, PutAll(schemas, entries), Blank(key), InjectedEdits(schemas, entries, Blanked(schemas, key)));
    DropRefers(PutAll(schemas, entries), key);
  }

  lemma ResponsesInjected(responses: Fields, entries: Fields)
    requires HTTP_VALIDATION_REF !in RefsOfFields(entries)
    requires forall i :: 0 <= i < |entries| ==> entries[i].key != REF
    ensures Follows(Obj(responses), Obj(PutAll(responses, entries)), Node(InjectedEdits(responses, entries, AllSame(responses))))
  {
    var f := OpenApiClosure.Same();
    forall i | 0 <= i < |entries| ensures !Refers(f(entries[i])) {
      EntryRefers(entries, i);
    }
    SameRevises(responses);
    PutAllRevises(responses, entries, f, AllSame(responses));
    RevisesNode(responses, PutAll(responses, entries), f, InjectedEdits(responses, entries, AllSame(responses)));
    MapSame(PutAll(responses, entries));
  }

  lemma SectionsOwn(first: Entry, second: Entry, rest: Fields)
    requires first.key != REF && second.key != REF
    ensures RefOf(Obj([first, second] + rest)) == RefOf(Obj(rest))
  {
    FindAppend([first, second], rest, REF);
    assert [first, second][1..] == [second] && [second][1..] == [];
  }

  /** Two rewritten sections in front of untouched ones. */
  lemma SectionsFollow(first: Entry, second: Entry, v: Value, w: Value, rest: Fields, e1: Edit, e2: Edit)
    requires first.key != REF && second.key != REF
    requires Follows(first.value, v, e1) && Follows(second.value, w, e2)
    ensures Follows(Obj([first, second] + rest), Obj([Entry(first.key, v), Entry(second.key, w)] + rest), Node([e1, e2] + AllSame(rest)))
  {
    var fields, after := [first, second] + rest, [Entry(first.key, v), Entry(second.key, w)] + rest;
    var f := OpenApiClosure.Same();
    SectionsOwn(first, second, rest);
    SectionsOwn(Entry(first.key, v), Entry(second.key, w), rest);
    assert Revises(fields, after, f, [e1, e2] + AllSame(rest)) by {
      forall i | 0 <= i < |fields|
        ensures after[i].key == fields[i].key && Follows(fields[i].value, f(after[i]), ([e1, e2] + AllSame(rest))[i]) {
        SectionFollows(first, second, v, w, rest, e1, e2, i);
      }
    }
    RevisesNode(fields, after, f, [e1, e2] + AllSame(rest));
    MapSame(after);
  }

  lemma SectionFollows(first: Entry, second: Entry, v: Value, w: Value, rest: Fields, e1: Edit, e2: Edit, i: nat)
    requires i < |rest| + 2 && Follows(first.value, v, e1) && Follows(second.value, w, e2)
    ensures var x, y := ([first, second] + rest)[i], ([Entry(first.key, v), Entry(second.key, w)] + rest)[i];
            y.key == x.key && Follows(x.value, y.value, ([e1, e2] + AllSame(rest))[i])
  {
    if i >= 2 {
      SameFollows(rest[i - 2].value);
    }
  }

  function ComponentsEdit(d: Doc): Edit
  {
    Node([Node(SchemasEdits(d.schemas)), Node(ComponentResponsesEdits(d.responses))] + AllSame(d.components))
  }

  /** All that hardening rewrites in a generated document. */
  function DocumentEdit(d: Doc): Edit
  {
    Node([Node(PathsEdits(d.paths)), ComponentsEdit(d)] + AllSame(d.rest))
  }

  lemma ComponentsFollow(d: Doc)
    ensures Follows(Components(d), Components(Harden(d)), ComponentsEdit(d))
  {
    assert "schemas"[0] == 's' && "responses"[0] == 'r' && REF[0] == '$' && HTTP_VALIDATION_ERROR[0] == 'H';
    InjectedReferElsewhere();
    InjectedKeys();
    SchemasInjected(d.schemas, ERROR_SCHEMAS, HTTP_VALIDATION_ERROR);
    ResponsesInjected(d.responses, ERROR_RESPONSES);
    var h := Harden(d);
    SectionsFollow(Entry("schemas", Obj(d.schemas)), Entry("responses", Obj(d.responses)), Obj(h.schemas), Obj(h.responses), d.components,
                   Node(SchemasEdits(d.schemas)), Node(ComponentResponsesEdits(d.responses)));
  }

  /** The hardened document refers to HTTPValidationError exactly when a place that no phase rewrites does. */
  lemma DocumentFollows(d: Doc)
    ensures Follows(ToJson(d), ToJson(Harden(d)), DocumentEdit(d))
  {
    assert "paths"[0] == 'p' && "components"[0] == 'c' && REF[0] == '$';
    PathsFollow(d);
    ComponentsFollow(d);
    var h := Harden(d);
    SectionsFollow(Entry("paths", Obj(d.paths)), Entry("components", Components(d)), Obj(h.paths), Components(h), d.rest,
                   Node(PathsEdits(d.paths)), ComponentsEdit(d));
  }

  /**
    The hardened form of a closed document passes the reference check if and only if every place
    of the document that refers to HTTPValidationError is one that hardening rewrites.
   */
  lemma ClosedIffAllRewritten(d: Doc)
    requires Closed(d)
    ensures Report(ToJson(Harden(d)), ToJson(Harden(d)), "") == []
            <==> forall path: Path :: ReferredAt(ToJson(d), path) ==> !Kept(DocumentEdit(d), path)
  {
    DocumentFollows(d);
    ClosedIffRemovedUnused(d);
    if path: Path :| ReferredAt(ToJson(d), path) && Kept(DocumentEdit(d), path) {
      assert KeptReference(ToJson(d), DocumentEdit(d), path);
    }
  }

  // ----- a closed document that hardening leaves open -----

  /** A shared request body refers to HTTPValidationError. */
  function SharedBody(): Doc
  {
    Doc([], [Entry(HTTP_VALIDATION_ERROR, OBJECT_SCHEMA)], [],
        [Entry("requestBodies", Obj([Entry("invalid", RefNode(HTTP_VALIDATION_REF))]))], [])
  }

  lemma SharedBodyRefs()
    ensures Refs(ToJson(SharedBody())) == {HTTP_VALIDATION_REF}
  {
    var d := SharedBody();
    DocRefsAreRefs(d);
    RefNodeRefs(HTTP_VALIDATION_REF);
    assert "invalid"[0] == 'i' && "requestBodies"[0] == 'r' && "type"[0] == 't' && HTTP_VALIDATION_ERROR[0] == 'H' && REF[0] == '$';
    OneField("type", Str("object"));
    OneField(HTTP_VALIDATION_ERROR, OBJECT_SCHEMA);
    OneField("invalid", RefNode(HTTP_VALIDATION_REF));
    OneField("requestBodies", Obj([Entry("invalid", RefNode(HTTP_VALIDATION_REF))]));
    OwnOrBelow(d.components);
    assert Refs(Obj(d.components)) == {HTTP_VALIDATION_REF};
    assert RefOf(Obj(d.components)).None?;
  }

  lemma SharedBodyClosed()
    ensures Closed(SharedBody())
  {
    SharedBodyRefs();
    HttpValidationPlain();
    NamesSchema(SharedBody(), HTTP_VALIDATION_ERROR);
  }

  lemma SharedBodyPlace()
    ensures var d := SharedBody(); KeptReference(ToJson(d), DocumentEdit(d), [1, 2, 0])
  {
    var d := SharedBody();
    RefNodeRefs(HTTP_VALIDATION_REF);
    assert ReferredAt(RefNode(HTTP_VALIDATION_REF), []);
    ReferredBelow([Entry("invalid", RefNode(HTTP_VALIDATION_REF))], 0, []);
    assert [0] + [] == [0] && [2] + [0] == [2, 0] && [1] + [2, 0] == [1, 2, 0];
    ReferredBelow(Components(d).fields, 2, [0]);
    ReferredBelow(ToJson(d).fields, 1, [2, 0]);
    assert [1, 2, 0][1..] == [2, 0] && [2, 0][1..] == [0];
    assert Kept(ComponentsEdit(d), [2, 0]);
  }

  lemma KeptPlaceFails(d: Doc, path: Path)
    requires Closed(d) && KeptReference(ToJson(d), DocumentEdit(d), path)
    ensures Report(ToJson(Harden(d)), ToJson(Harden(d)), "") != []
  {
    ClosedIffAllRewritten(d);
  }

  /** Without the condition a closed document need not stay closed. */
  lemma SharedBodyFails()
    ensures Closed(SharedBody()) && Report(ToJson(Harden(SharedBody())), ToJson(Harden(SharedBody())), "") != []
  {
    SharedBodyClosed();
    SharedBodyPlace();
    KeptPlaceFails(SharedBody(), [1, 2, 0]);
  }
}
