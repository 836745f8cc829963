/** The hardening loops as they run: entries of the dictionaries are replaced in place, one after the other. */
module OpenApiHardener {
  import opened Json
  import opened OpenApi

  // ----- one operation, changed by the phases in turn -----

  /** The identities of some parameters. */
  function Keys(parameters: seq<Value>): set<(string, string)>
  {
    set p | p in parameters :: ParameterKey(p)
  }

  /** The deduplication loop, with its set of identities seen so far. */
  method FirstOfEachIdentity(parameters: seq<Value>) returns (kept: seq<Value>)
    ensures kept == Dedupe(parameters)
  {
    kept := [];
    var seen: set<(string, string)> := {};
    for i := 0 to |parameters|
      invariant kept == Dedupe(parameters[..i])
      invariant seen == Keys(kept)
    {
      var p := parameters[i];
      assert parameters[..i + 1][..i] == parameters[..i];
      if ParameterKey(p) !in seen {
        seen := seen + {ParameterKey(p)};
        kept := kept + [p];
      }
    }
    assert parameters[..|parameters|] == parameters;
  }

  method NotTenantQuery(parameters: seq<Value>) returns (kept: seq<Value>)
    ensures kept == WithoutTenant(parameters)
  {
    kept := [];
    for i := 0 to |parameters|
      invariant kept == WithoutTenant(parameters[..i])
    {
      assert parameters[..i + 1][..i] == parameters[..i];
      if !IsParameter(parameters[i], "query", "tenant_id") {
        kept := kept + [parameters[i]];
      }
    }
    assert parameters[..|parameters|] == parameters;
  }

  method HasIdempotencyHeader(parameters: seq<Value>) returns (found: bool)
    ensures found <==> exists p :: p in parameters && IsParameter(p, "header", "Idempotency-Key")
  {
    found := false;
    for i := 0 to |parameters|
      invariant found <==> exists p :: p in parameters[..i] && IsParameter(p, "header", "Idempotency-Key")
    {
      assert parameters[..i + 1] == parameters[..i] + [parameters[i]];
      found := found || IsParameter(parameters[i], "header", "Idempotency-Key");
    }
    assert parameters[..|parameters|] == parameters;
  }

  class Operation {
    var fields: Fields

    constructor (fields: Fields)
      ensures this.fields == fields
    {
      this.fields := fields;
    }

    method ApplyErrorResponses(path: string, verb: string)
      modifies this
      ensures fields == ErrorResponses(path, verb, old(fields))
    {
      if IsAuthForm(path, verb) {
        fields := Put(fields, "responses", Obj(Put(Responses(fields), "422", INVALID_RESPONSE)));
      }
      if IsAdmin(path) {
        ApplyAdminResponses(path, verb);
      }
    }

    method ApplyAdminResponses(path: string, verb: string)
      modifies this
      ensures fields == Put(old(fields), "responses", Obj(AdminResponses(path, verb, Responses(old(fields)))))
    {
      var responses := Put(Responses(fields), "422", INVALID_RESPONSE);
      if NeedsNotFound(path, verb) {
        responses := SetDefault(responses, "404", Obj([Entry("description", Str(NotFoundDescription(path)))]));
      }
      if Mutates(verb) {
        responses := SetDefault(responses, "409", Obj([Entry("description", Str("Resource conflict"))]));
      }
      responses := Fill(responses, "404", NotFoundDescription(path), NOT_FOUND_ERROR_REF);
      responses := Fill(responses, "409", "Resource conflict", CONFLICT_ERROR_REF);
      fields := Put(fields, "responses", Obj(responses));
    }

    method ApplyAuthReferences(path: string)
      modifies this
      ensures fields == AuthResponses(path, old(fields))
    {
      if IsPublic(path) {
        return;
      }
      if Secured(fields) {
        var responses := SetDefault(Responses(fields), "401", RefNode(UNAUTHORIZED_REF));
        responses := SetDefault(responses, "403", RefNode(FORBIDDEN_REF));
        fields := Put(fields, "responses", Obj(responses));
      }
    }

    method ApplyIdempotencyHeader(path: string, verb: string)
      modifies this
      ensures fields == IdempotencyHeader(path, verb, old(fields))
    {
      if "/aris3/admin/" <= path && Mutates(verb) {
        var found := HasIdempotencyHeader(Parameters(fields));
        if !found {
          fields := Put(fields, "parameters", Arr(Parameters(fields) + [IDEMPOTENCY_KEY_PARAMETER]));
        }
      }
    }

    method PolishStoreCreate(path: string, verb: string)
      modifies this
      ensures fields == StoreCreateParameters(path, verb, old(fields))
    {
      if IsStoreCreate(path, verb) {
        var parameters := FirstOfEachIdentity(Parameters(fields));
        parameters := NotTenantQuery(parameters);
        fields := Put(fields, "parameters", Arr(parameters));
      }
    }

    method Apply(path: string, verb: string)
      modifies this
      ensures fields == HardenOperation(path, verb, old(fields))
    {
      ApplyErrorResponses(path, verb);
      ApplyAuthReferences(path);
      ApplyIdempotencyHeader(path, verb);
      PolishStoreCreate(path, verb);
    }
  }

  // ----- the document -----

  lemma {:induction false} MapSnoc(fields: Fields, i: nat, f: Entry -> Value)
    requires i < |fields|
    ensures Map(fields[..i + 1], f) == Map(fields[..i], f) + [Entry(fields[i].key, f(fields[i]))]
  {
    if i == 0 {
      assert fields[..1] == [fields[0]] && [fields[0]][1..] == [];
    } else {
      MapSnoc(fields[1..], i - 1, f);
      assert fields[..i + 1][1..] == fields[1..][..i] && fields[..i][1..] == fields[1..][..i - 1];
    }
  }

  /** Entry `i` of a dictionary replaced, when the ones before it already are. */
  lemma MapNext(fields: Fields, i: nat, f: Entry -> Value, now: Fields)
    requires i < |fields| && now == Map(fields[..i], f) + fields[i..]
    ensures now[i] == fields[i]
    ensures now[i := Entry(fields[i].key, f(fields[i]))] == Map(fields[..i + 1], f) + fields[i + 1..]
  {
    MapSnoc(fields, i, f);
    assert fields[i..] == [fields[i]] + fields[i + 1..];
  }

  class Hardener {
    var paths: Fields
    var schemas: Fields
    var responses: Fields
    const components: Fields
    const rest: Fields

    ghost function Document(): Doc
      reads this
    {
      Doc(paths, schemas, responses, components, rest)
    }

    constructor (d: Doc)
      ensures Document() == d
    {
      paths, schemas, responses, components, rest := d.paths, d.schemas, d.responses, d.components, d.rest;
    }

    method InjectComponents()
      modifies this
      ensures Document() == Inject(old(Document()))
    {
      var errors := ERROR_SCHEMAS;
      for i := 0 to |errors|
        invariant schemas == PutAll(old(schemas), errors[..i]) && paths == old(paths) && responses == old(responses)
      {
        assert errors[..i + 1][..i] == errors[..i];
        schemas := Put(schemas, errors[i].key, errors[i].value);
      }
      assert errors[..|errors|] == errors;
      var added := ERROR_RESPONSES;
      for i := 0 to |added|
        invariant responses == PutAll(old(responses), added[..i]) && paths == old(paths) && schemas == PutAll(old(schemas), errors)
      {
        assert added[..i + 1][..i] == added[..i];
        responses := Put(responses, added[i].key, added[i].value);
      }
      assert added[..|added|] == added;
    }

    /** The operations of one path item. */
    method HardenItemOf(path: string, operations: Fields) returns (hardened: Fields)
      ensures hardened == Map(operations, HardenEntry(path))
    {
      hardened := operations;
      for i := 0 to |operations|
        invariant hardened == Map(operations[..i], HardenEntry(path)) + operations[i..]
      {
        MapNext(operations, i, HardenEntry(path), hardened);
        var e := operations[i];
        if IsVerb(e.key) && e.value.Obj? {
          var operation := new Operation(e.value.fields);
          operation.Apply(path, e.key);
          hardened := hardened[i := Entry(e.key, Obj(operation.fields))];
        } else {
          assert hardened[i := Entry(e.key, e.value)] == hardened;
        }
      }
      assert operations[..|operations|] == operations;
    }

    method HardenedItem(e: Entry) returns (value: Value)
      ensures value == HardenItem()(e)
    {
      value := e.value;
      if e.value.Obj? {
        var operations := HardenItemOf(e.key, e.value.fields);
        value := Obj(operations);
      }
    }

    method HardenAllPaths()
      modifies this
      ensures Document() == HardenPaths(old(Document()))
    {
      var items := paths;
      for i := 0 to |items|
        invariant paths == Map(items[..i], HardenItem()) + items[i..]
        invariant schemas == old(schemas) && responses == old(responses)
      {
        MapNext(items, i, HardenItem(), paths);
        var value := HardenedItem(items[i]);
        paths := paths[i := Entry(items[i].key, value)];
      }
      assert items[..|items|] == items;
    }

    /** The loop over the operations of one path item that replaces HTTPValidationError. */
    method SubstituteItemOf(operations: Fields) returns (done: Fields)
      ensures done == Map(operations, SubstituteOperation())
    {
      done := operations;
      for i := 0 to |operations|
        invariant done == Map(operations[..i], SubstituteOperation()) + operations[i..]
      {
        MapNext(operations, i, SubstituteOperation(), done);
        done := done[i := Entry(operations[i].key, SubstituteOperation()(operations[i]))];
      }
      assert operations[..|operations|] == operations;
    }

    method SubstitutedItem(e: Entry) returns (value: Value)
      ensures value == SubstituteItem()(e)
    {
      value := e.value;
      if e.value.Obj? {
        var operations := SubstituteItemOf(e.value.fields);
        value := Obj(operations);
      }
    }

    method RemoveHttpValidationError()
      modifies this
      ensures Document() == Finish(old(Document()))
    {
      schemas := Drop(schemas, HTTP_VALIDATION_ERROR);
      var items := paths;
      for i := 0 to |items|
        invariant paths == Map(items[..i], SubstituteItem()) + items[i..]
        invariant schemas == Drop(old(schemas), HTTP_VALIDATION_ERROR) && responses == old(responses)
      {
        MapNext(items, i, SubstituteItem(), paths);
        var value := SubstitutedItem(items[i]);
        paths := paths[i := Entry(items[i].key, value)];
      }
      assert items[..|items|] == items;
    }

    method Run()
      modifies this
      ensures Document() == Harden(old(Document()))
    {
      InjectComponents();
      HardenAllPaths();
      RemoveHttpValidationError();
    }
  }

  // ----- what the deduplication keeps -----

  /** No earlier parameter has the same identity. */
  predicate IsFirst(parameters: seq<Value>, i: nat)
    requires i < |parameters|
  {
    forall j :: 0 <= j < i ==> ParameterKey(parameters[j]) != ParameterKey(parameters[i])
  }

  /** The parameters at these positions are the first ones of their identities, in order. */
  ghost predicate AreFirsts(parameters: seq<Value>, kept: seq<Value>, at: seq<nat>)
  {
    && |at| == |kept|
    && (forall k :: 0 <= k < |at| ==> at[k] < |parameters| && kept[k] == parameters[at[k]])
    && (forall k, l :: 0 <= k < l < |at| ==> at[k] < at[l])
    && (forall i :: 0 <= i < |parameters| ==> (i in at <==> IsFirst(parameters, i)))
  }

  /** Deduplication keeps, in order, exactly the parameters whose identity did not occur before. */
  lemma {:induction false} DedupeKeepsFirsts(parameters: seq<Value>) returns (at: seq<nat>)
    ensures AreFirsts(parameters, Dedupe(parameters), at)
  {
    if parameters == [] {
      at := [];
    } else {
      var n := |parameters| - 1;
      at := DedupeKeepsFirsts(parameters[..n]);
      at := DedupeOneMore(parameters[..n], parameters[n], at);
      assert parameters[..n] + [parameters[n]] == parameters;
    }
  }

  lemma DedupeStep(before: seq<Value>, p: Value)
    ensures Dedupe(before + [p])
            == Dedupe(before) + if exists q :: q in Dedupe(before) && ParameterKey(q) == ParameterKey(p) then [] else [p]
  {
    assert (before + [p])[..|before|] == before;
  }

  lemma DedupeOneMore(before: seq<Value>, p: Value, at: seq<nat>) returns (more: seq<nat>)
    requires AreFirsts(before, Dedupe(before), at)
    ensures AreFirsts(before + [p], Dedupe(before + [p]), more)
  {
    var kept := Dedupe(before);
    EarlierKey(before, kept, at, ParameterKey(p));
    FirstsGrow(before, p, kept, at);
    DedupeStep(before, p);
    assert kept + [] == kept;
    more := if IsFirst(before + [p], |before|) then at + [|before|] else at;
  }

  lemma FirstsGrow(before: seq<Value>, p: Value, kept: seq<Value>, at: seq<nat>)
    requires AreFirsts(before, kept, at)
    ensures IsFirst(before + [p], |before|) ==> AreFirsts(before + [p], kept + [p], at + [|before|])
    ensures !IsFirst(before + [p], |before|) ==> AreFirsts(before + [p], kept, at)
    ensures IsFirst(before + [p], |before|) <==> forall j :: 0 <= j < |before| ==> ParameterKey(before[j]) != ParameterKey(p)
  {
    var parameters := before + [p];
    forall i | 0 <= i < |before| ensures IsFirst(before, i) <==> IsFirst(parameters, i) {
      assert forall j :: 0 <= j <= i ==> before[j] == parameters[j];
    }
    assert forall j :: 0 <= j < |before| ==> before[j] == parameters[j];
    var more := at + [|before|];
    assert forall i :: i in more <==> i in at || i == |before|;
  }

  /** An identity occurs among the kept parameters whenever it occurs at all. */
  lemma EarlierKey(parameters: seq<Value>, kept: seq<Value>, at: seq<nat>, key: (string, string))
    requires AreFirsts(parameters, kept, at)
    ensures (exists q :: q in kept && ParameterKey(q) == key)
            <==> exists j :: 0 <= j < |parameters| && ParameterKey(parameters[j]) == key
  {
    if j :| 0 <= j < |parameters| && ParameterKey(parameters[j]) == key {
      var f := FirstOf(parameters, j);
      var k :| 0 <= k < |at| && at[k] == f;
      assert kept[k] in kept;
    }
    if q :| q in kept && ParameterKey(q) == key {
      var k :| 0 <= k < |kept| && kept[k] == q;
      assert ParameterKey(parameters[at[k]]) == key;
    }
  }

  lemma {:induction false} FirstOf(parameters: seq<Value>, j: nat) returns (f: nat)
    requires j < |parameters|
    ensures f <= j && ParameterKey(parameters[f]) == ParameterKey(parameters[j]) && IsFirst(parameters, f)
  {
    if IsFirst(parameters, j) {
      f := j;
    } else {
      var i :| 0 <= i < j && ParameterKey(parameters[i]) == ParameterKey(parameters[j]);
      f := FirstOf(parameters, i);
    }
  }
}
