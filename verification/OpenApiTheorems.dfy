/** Where a reference to HTTPValidationError may stand so that hardening keeps every reference resolvable. */
module OpenApiTheorems {
  import opened Common
  import opened Json
  import opened OpenApi
  import opened OpenApiClosure
  import opened RefWalk
  import OpenApiHardener

  // ----- the places the last loop looks at -----

  /** The entry is `k` steps above the schema of a 422 JSON response and the path leads to that schema. */
  ghost predicate Is422Schema(k: nat, e: Entry, path: Path)
  {
    && AtPlace(k, e)
    && if k == 0 then path == [] else
       && e.value.Obj? && path != [] && path[0] < |e.value.fields|
       && Is422Schema(k - 1, e.value.fields[path[0]], path[1..])
  }

  /** The path ends in the schema of a 422 JSON response of some operation of the document's paths, its first section. */
  ghost predicate In422(d: Doc, path: Path)
  {
    |path| >= 2 && path[0] == 0 && path[1] < |d.paths| && Is422Schema(6, d.paths[path[1]], path[2..])
  }

  /** HTTPValidationError is referred to from nowhere else, at any depth. */
  ghost predicate OnlyIn422(d: Doc)
  {
    forall path: Path :: ReferredAt(ToJson(d), path) ==> In422(d, path)
  }

  ghost predicate ReferredAt(node: Value, path: Path)
  {
    NodeAt(node, path).Some? && RefOf(NodeAt(node, path).value) == Some(HTTP_VALIDATION_REF)
  }

  // ----- the last loop, level by level -----

  lemma {:induction false} AmongMapped(fields: Fields, f: Entry -> Value, ref: string) returns (i: nat)
    requires ref in RefsOfFields(Map(fields, f))
    ensures i < |fields| && ref in Refs(f(fields[i]))
  {
    assert Map(fields, f)[1..] == Map(fields[1..], f);
    if ref in Refs(f(fields[0])) {
      i := 0;
    } else {
      var j := AmongMapped(fields[1..], f, ref);
      i := j + 1;
    }
  }

  lemma ReferredBelow(fields: Fields, i: nat, path: Path)
    requires i < |fields| && ReferredAt(fields[i].value, path)
    ensures ReferredAt(Obj(fields), [i] + path)
  {
    assert ([i] + path)[1..] == path;
  }

  lemma Referred(node: Value) returns (path: Path)
    requires HTTP_VALIDATION_REF in Refs(node)
    ensures ReferredAt(node, path)
  {
    path := PlacedRef(node, HTTP_VALIDATION_REF);
  }

  lemma SchemaSurvivor(e: Entry) returns (path: Path)
    requires HTTP_VALIDATION_REF in Refs(SubstituteSchema()(e))
    ensures ReferredAt(e.value, path) && !Is422Schema(0, e, path)
  {
    RefNodeRefs(VALIDATION_ERROR_REF);
    assert |VALIDATION_ERROR_REF| != |HTTP_VALIDATION_REF|;
    path := Referred(e.value);
  }

  /** A reference that survives the substitution stood at a place the substitution does not look at. */
  lemma {:induction false} Survivor(k: nat, e: Entry) returns (path: Path)
    requires k < 7 && HTTP_VALIDATION_REF in Refs(Level(k)(e))
    ensures ReferredAt(e.value, path) && !Is422Schema(k, e, path)
    decreases k, 1
  {
    if k == 0 {
      path := SchemaSurvivor(e);
    } else {
      LevelStep(k, e);
      if AtPlace(k, e) && e.value.Obj? {
        path := SurvivorBelow(k, e.value.fields);
      } else {
        path := Referred(e.value);
      }
    }
  }

  lemma MappedOwnOrBelow(fields: Fields, f: Entry -> Value)
    requires Transparent(f) && HTTP_VALIDATION_REF in Refs(Obj(Map(fields, f)))
    ensures RefOf(Obj(fields)) == Some(HTTP_VALIDATION_REF) || HTTP_VALIDATION_REF in RefsOfFields(Map(fields, f))
  {
    MapNode(fields, f);
  }

  lemma {:induction false} SurvivorBelow(k: nat, fields: Fields) returns (path: Path)
    requires 0 < k <= 7 && HTTP_VALIDATION_REF in Refs(Obj(Map(fields, Level(k - 1))))
    ensures ReferredAt(Obj(fields), path)
    ensures path != [] ==> path[0] < |fields| && !Is422Schema(k - 1, fields[path[0]], path[1..])
    decreases k, 0
  {
    LevelTransparent(k - 1);
    MappedOwnOrBelow(fields, Level(k - 1));
    if RefOf(Obj(fields)) == Some(HTTP_VALIDATION_REF) {
      path := [];
    } else {
      path := SurvivorChild(k, fields);
    }
  }

  lemma {:induction false} SurvivorChild(k: nat, fields: Fields) returns (path: Path)
    requires 0 < k <= 7 && HTTP_VALIDATION_REF in RefsOfFields(Map(fields, Level(k - 1)))
    ensures ReferredAt(Obj(fields), path)
    ensures path != [] && path[0] < |fields| && !Is422Schema(k - 1, fields[path[0]], path[1..])
    decreases k - 1, 2
  {
    var i := AmongMapped(fields, Level(k - 1), HTTP_VALIDATION_REF);
    var below := Survivor(k - 1, fields[i]);
    ReferredBelow(fields, i, below);
    path := [i] + below;
    assert path[1..] == below;
  }

  // ----- the document -----

  lemma PathsSurvivor(d: Doc)
    requires HTTP_VALIDATION_REF in Refs(Obj(Map(d.paths, SubstituteItem())))
    ensures !OnlyIn422(d)
  {
    var path := SurvivorBelow(7, d.paths);
    ReferredBelow(ToJson(d).fields, 0, path);
    assert ReferredAt(ToJson(d), [0] + path);
    assert path != [] ==> ([0] + path)[2..] == path[1..];
    assert !In422(d, [0] + path);
  }

  lemma ElsewhereSurvivor(d: Doc, i: nat)
    requires 0 < i < |ToJson(d).fields| && HTTP_VALIDATION_REF in Refs(ToJson(d).fields[i].value)
    ensures !OnlyIn422(d)
  {
    var path := Referred(ToJson(d).fields[i].value);
    ReferredBelow(ToJson(d).fields, i, path);
    assert !In422(d, [i] + path);
  }

  lemma RootSurvivor(d: Doc)
    requires RefOf(Obj(d.rest)) == Some(HTTP_VALIDATION_REF)
    ensures !OnlyIn422(d)
  {
    var fields := ToJson(d).fields;
    assert "paths"[0] == 'p' && "components"[0] == 'c' && REF[0] == '$';
    assert fields[1..] == [Entry("components", Components(d))] + d.rest && fields[1..][1..] == d.rest;
    assert Find(fields, REF) == Find(fields[1..], REF) == Find(d.rest, REF);
    assert ReferredAt(ToJson(d), []);
    assert !In422(d, []);
  }

  lemma RestSurvivor(d: Doc)
    requires HTTP_VALIDATION_REF in RefsOfFields(d.rest)
    ensures !OnlyIn422(d)
  {
    RefsOfFieldsMember(d.rest, HTTP_VALIDATION_REF);
    var i :| 0 <= i < |d.rest| && HTTP_VALIDATION_REF in Refs(d.rest[i].value);
    ElsewhereSurvivor(d, i + 2);
  }

  lemma ComponentsCases(d: Doc)
    ensures Refs(Obj(d.schemas)) <= Refs(Components(d)) && Refs(Obj(d.responses)) <= Refs(Components(d))
    ensures OtherRefs(d) <= Refs(Components(d)) + RefsOfFields(d.rest) + if RefOf(Obj(d.rest)).Some? then {RefOf(Obj(d.rest)).value} else {}
  {
    TwoMore("schemas", Obj(d.schemas), "responses", Obj(d.responses), d.components);
  }

  lemma RemainingCases(d: Doc)
    requires HTTP_VALIDATION_REF in Remaining(d)
    ensures HTTP_VALIDATION_REF in Refs(Obj(Map(d.paths, SubstituteItem()))) || HTTP_VALIDATION_REF in Refs(Components(d))
            || HTTP_VALIDATION_REF in RefsOfFields(d.rest) || RefOf(Obj(d.rest)) == Some(HTTP_VALIDATION_REF)
  {
    ComponentsCases(d);
    DropNode(d.schemas, HTTP_VALIDATION_ERROR);
  }

  lemma NoneRemain(d: Doc)
    requires OnlyIn422(d)
    ensures HTTP_VALIDATION_REF !in Remaining(d)
  {
    if HTTP_VALIDATION_REF in Remaining(d) {
      RemainingCases(d);
      if HTTP_VALIDATION_REF in Refs(Obj(Map(d.paths, SubstituteItem()))) {
        PathsSurvivor(d);
      } else if HTTP_VALIDATION_REF in Refs(Components(d)) {
        ElsewhereSurvivor(d, 1);
      } else if HTTP_VALIDATION_REF in RefsOfFields(d.rest) {
        RestSurvivor(d);
      } else {
        RootSurvivor(d);
      }
    }
  }

  /**
    If every reference of the generated document names one of its components, and HTTPValidationError
    is referred to only as the schema of 422 JSON responses, the hardened document passes the check.
   */
  lemma HardeningKeepsClosure(d: Doc)
    requires Closed(d) && OnlyIn422(d)
    ensures Report(ToJson(Harden(d)), ToJson(Harden(d)), "") == []
  {
    NoneRemain(d);
    ClosedWhenNoneRemain(d);
  }

  /** The hardening loops followed by the walk over their result. */
  method HardenAndCheck(d: Doc) returns (errors: seq<string>)
    ensures errors == Report(ToJson(Harden(d)), ToJson(Harden(d)), "")
    ensures Closed(d) && OnlyIn422(d) ==> errors == []
  {
    var hardener := new OpenApiHardener.Hardener(d);
    hardener.Run();
    var spec := ToJson(Doc(hardener.paths, hardener.schemas, hardener.responses, hardener.components, hardener.rest));
    errors := FindUnresolved(spec);
    if Closed(d) && OnlyIn422(d) {
      HardeningKeepsClosure(d);
    }
  }
}
