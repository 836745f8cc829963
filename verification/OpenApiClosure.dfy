/** Hardening keeps a document closed: every reference still resolves although a component is removed. */
module OpenApiClosure {
  import opened Common
  import opened Json
  import opened JsonPointer
  import opened OpenApi
  import RefWalk

  // ----- references under the dictionary operations -----

  /** Values that are no worse entry by entry give dictionaries that are no worse. */
  lemma {:induction false} MapRefs(fields: Fields, f: Entry -> Value, g: Entry -> Value, extra: set<string>)
    requires forall e :: e in fields ==> Refs(f(e)) <= Refs(g(e)) + extra
    ensures RefsOfFields(Map(fields, f)) <= RefsOfFields(Map(fields, g)) + extra
  {
    if fields != [] {
      assert fields[0] in fields;
      assert Map(fields, f)[1..] == Map(fields[1..], f) && Map(fields, g)[1..] == Map(fields[1..], g);
      MapRefs(fields[1..], f, g, extra);
    }
  }

  lemma {:induction false} MapFinds(fields: Fields, f: Entry -> Value, key: string)
    ensures Find(Map(fields, f), key) == match Find(fields, key) case None => None case Some(v) => Some(f(Entry(key, v)))
  {
    if fields != [] {
      assert Map(fields, f)[1..] == Map(fields[1..], f);
      MapFinds(fields[1..], f, key);
    }
  }

  /** A function of entries that leaves a textual `$ref` alone and makes none. */
  ghost predicate Transparent(f: Entry -> Value)
  {
    forall v :: f(Entry(REF, v)) == v || (v.Obj? && f(Entry(REF, v)).Obj?)
  }

  /** A mapping under Map: its own reference and those of its entries. */
  lemma MapNode(fields: Fields, f: Entry -> Value)
    requires Transparent(f)
    ensures Refs(Obj(Map(fields, f))) == (if RefOf(Obj(fields)).Some? then {RefOf(Obj(fields)).value} else {}) + RefsOfFields(Map(fields, f))
  {
    MapFinds(fields, f, REF);
  }

  /** Putting one entry, seen through a map. */
  lemma {:induction false} PutRefs(fields: Fields, key: string, value: Value, f: Entry -> Value)
    ensures RefsOfFields(Map(Put(fields, key, value), f)) <= RefsOfFields(Map(fields, f)) + Refs(f(Entry(key, value)))
  {
    if fields == [] {
      assert Map([Entry(key, value)], f)[1..] == [];
    } else if fields[0].key == key {
      assert Map(Put(fields, key, value), f)[1..] == Map(fields[1..], f) == Map(fields, f)[1..];
    } else {
      PutRefs(fields[1..], key, value, f);
      assert Put(fields, key, value)[1..] == Put(fields[1..], key, value);
      assert Map(Put(fields, key, value), f)[1..] == Map(Put(fields[1..], key, value), f);
      assert Map(fields, f)[1..] == Map(fields[1..], f);
    }
  }

  /** An entry that is there contributes to the dictionary. */
  lemma {:induction false} FoundRefs(fields: Fields, key: string, f: Entry -> Value)
    ensures Find(fields, key).Some? ==> Refs(f(Entry(key, Find(fields, key).value))) <= RefsOfFields(Map(fields, f))
  {
    if fields != [] && fields[0].key != key {
      assert Map(fields, f)[1..] == Map(fields[1..], f);
      FoundRefs(fields[1..], key, f);
    }
  }

  function Same(): Entry -> Value
  {
    (e: Entry) => e.value
  }

  lemma {:induction false} MapSame(fields: Fields)
    ensures Map(fields, Same()) == fields
  {
    if fields != [] {
      MapSame(fields[1..]);
    }
  }

  lemma {:induction false} MapMap(fields: Fields, f: Entry -> Value, g: Entry -> Value, h: Entry -> Value)
    requires forall e :: e in fields ==> h(e) == g(Entry(e.key, f(e)))
    ensures Map(Map(fields, f), g) == Map(fields, h)
  {
    if fields != [] {
      assert fields[0] in fields;
      assert Map(fields, f)[1..] == Map(fields[1..], f);
      MapMap(fields[1..], f, g, h);
    }
  }

  /** Mapping entries of two dictionaries with the same own reference. */
  lemma NodeRefs(fields: Fields, f: Entry -> Value, g: Entry -> Value, extra: set<string>)
    requires Transparent(f) && Transparent(g)
    requires forall e :: e in fields ==> Refs(f(e)) <= Refs(g(e)) + extra
    ensures Refs(Obj(Map(fields, f))) <= Refs(Obj(Map(fields, g))) + extra
  {
    MapRefs(fields, f, g, extra);
    MapNode(fields, f);
    MapNode(fields, g);
  }

  // ----- the substitution adds one reference -----

  lemma SubstituteAdds(fields: Fields, f: Entry -> Value)
    requires Transparent(f)
    requires forall e :: e in fields ==> Refs(f(e)) <= Refs(e.value) + {VALIDATION_ERROR_REF}
    ensures Refs(Obj(Map(fields, f))) <= Refs(Obj(fields)) + {VALIDATION_ERROR_REF}
  {
    NodeRefs(fields, f, Same(), {VALIDATION_ERROR_REF});
    MapSame(fields);
  }

  lemma RefNodeRefs(ref: string)
    ensures Refs(RefNode(ref)) == {ref} && RefOf(RefNode(ref)) == Some(ref)
  {
    var fields := [Entry(REF, Str(ref))];
    assert fields[1..] == [];
    assert RefsOfFields(fields) == {};
  }

  lemma LevelStep(k: nat, e: Entry)
    requires 0 < k < 7
    ensures Level(k)(e) == if AtPlace(k, e) && e.value.Obj? then Obj(Map(e.value.fields, Level(k - 1))) else e.value
  {
  }

  lemma LevelTransparent(k: nat)
    requires k < 7
    ensures Transparent(Level(k))
  {
    assert REF[0] == '$';
  }

  /** The substitution adds no reference but the one it puts in. */
  lemma {:induction false} LevelAdds(k: nat, e: Entry)
    requires k < 7
    ensures Refs(Level(k)(e)) <= Refs(e.value) + {VALIDATION_ERROR_REF}
  {
    if k == 0 {
      RefNodeRefs(VALIDATION_ERROR_REF);
    } else {
      LevelStep(k, e);
      if AtPlace(k, e) && e.value.Obj? {
        forall x | x in e.value.fields ensures Refs(Level(k - 1)(x)) <= Refs(x.value) + {VALIDATION_ERROR_REF} {
          LevelAdds(k - 1, x);
        }
        LevelTransparent(k - 1);
        SubstituteAdds(e.value.fields, Level(k - 1));
      }
    }
  }

  // ----- the responses of an operation, seen through the substitution -----

  /** The references of a responses dictionary once HTTPValidationError is substituted. */
  function ResponsesRefs(responses: Fields): set<string>
  {
    Refs(Obj(Map(responses, SubstituteResponse())))
  }

  lemma PutResponse(responses: Fields, code: string, value: Value)
    requires code != REF
    ensures ResponsesRefs(Put(responses, code, value)) <= ResponsesRefs(responses) + Refs(value) + {VALIDATION_ERROR_REF}
    ensures code != "422" ==> ResponsesRefs(Put(responses, code, value)) <= ResponsesRefs(responses) + Refs(value)
  {
    PutRefs(responses, code, value, SubstituteResponse());
    PutFinds(responses, code, value, REF);
    MapNode(responses, SubstituteResponse());
    MapNode(Put(responses, code, value), SubstituteResponse());
    LevelAdds(3, Entry(code, value));
  }

  lemma OneField(key: string, value: Value)
    requires key != REF
    ensures Refs(Obj([Entry(key, value)])) == Refs(value)
  {
    var fields := [Entry(key, value)];
    assert fields[1..] == [];
    assert RefsOfFields(fields) == Refs(value);
  }

  lemma TwoFields(k1: string, v1: Value, k2: string, v2: Value)
    requires k1 != REF && k2 != REF
    ensures Refs(Obj([Entry(k1, v1), Entry(k2, v2)])) == Refs(v1) + Refs(v2)
  {
    var fields := [Entry(k1, v1), Entry(k2, v2)];
    assert fields[1..] == [Entry(k2, v2)] && fields[1..][1..] == [];
    assert RefsOfFields(fields[1..]) == Refs(v2);
  }

  lemma JsonContentRefs(ref: string, example: Fields)
    requires Refs(Obj(example)) == {}
    ensures Refs(JsonContent(ref, example)) == {ref}
  {
    RefNodeRefs(ref);
    OneField("schema", RefNode(ref));
    TwoFields("schema", RefNode(ref), "example", Obj(example));
    var media := [Entry("schema", RefNode(ref))] + if example == [] then [] else [Entry("example", Obj(example))];
    assert media == [Entry("schema", RefNode(ref))] || media == [Entry("schema", RefNode(ref)), Entry("example", Obj(example))];
    OneField("application/json", Obj(media));
  }

  lemma JsonResponseRefs(description: string, ref: string)
    ensures Refs(JsonResponse(description, ref)) == {ref}
  {
    JsonContentRefs(ref, []);
    TwoFields("description", Str(description), "content", JsonContent(ref, []));
  }

  lemma DescriptionRefs(description: string)
    ensures Refs(Obj([Entry("description", Str(description))])) == {}
  {
    OneField("description", Str(description));
  }

  lemma PutNode(fields: Fields, key: string, value: Value)
    requires key != REF
    ensures Refs(Obj(Put(fields, key, value))) <= Refs(Obj(fields)) + Refs(value)
  {
    RefsOfPut(fields, key, value);
    PutFinds(fields, key, value, REF);
  }

  lemma FilledRefs(fields: Fields, description: string, ref: string)
    ensures Refs(Obj(Put(Put(fields, "description", Str(description)), "content", JsonContent(ref, [Entry("message", Str(description))]))))
            <= Refs(Obj(fields)) + {ref}
  {
    OneField("message", Str(description));
    JsonContentRefs(ref, [Entry("message", Str(description))]);
    PutNode(fields, "description", Str(description));
    PutNode(Put(fields, "description", Str(description)), "content", JsonContent(ref, [Entry("message", Str(description))]));
  }

  lemma FillRefs(responses: Fields, code: string, description: string, ref: string)
    requires code != REF && code != "422"
    ensures ResponsesRefs(Fill(responses, code, description, ref)) <= ResponsesRefs(responses) + {ref}
  {
    match Find(responses, code)
    case Some(Obj(fields)) =>
      var content := JsonContent(ref, [Entry("message", Str(description))]);
      var filled := Obj(Put(Put(fields, "description", Str(description)), "content", content));
      FilledRefs(fields, description, ref);
      FoundRefs(responses, code, SubstituteResponse());
      MapNode(responses, SubstituteResponse());
      PutResponse(responses, code, filled);
    case _ =>
  }

  lemma SetDefaultResponse(responses: Fields, code: string, value: Value)
    requires code != REF && code != "422"
    ensures ResponsesRefs(SetDefault(responses, code, value)) <= ResponsesRefs(responses) + Refs(value)
  {
    PutResponse(responses, code, value);
  }

  lemma DefaultsRefs(path: string, verb: string, r1: Fields) returns (r3: Fields)
    ensures ResponsesRefs(r3) <= ResponsesRefs(r1)
    ensures var missing := Obj([Entry("description", Str(NotFoundDescription(path)))]);
            var conflict := Obj([Entry("description", Str("Resource conflict"))]);
            var r2 := if NeedsNotFound(path, verb) then SetDefault(r1, "404", missing) else r1;
            r3 == if Mutates(verb) then SetDefault(r2, "409", conflict) else r2
  {
    var missing := Obj([Entry("description", Str(NotFoundDescription(path)))]);
    DescriptionRefs(NotFoundDescription(path));
    SetDefaultResponse(r1, "404", missing);
    var r2 := if NeedsNotFound(path, verb) then SetDefault(r1, "404", missing) else r1;
    var conflict := Obj([Entry("description", Str("Resource conflict"))]);
    DescriptionRefs("Resource conflict");
    SetDefaultResponse(r2, "409", conflict);
    r3 := if Mutates(verb) then SetDefault(r2, "409", conflict) else r2;
  }

  lemma AdminRefs(path: string, verb: string, responses: Fields)
    ensures ResponsesRefs(AdminResponses(path, verb, responses)) <= ResponsesRefs(responses) + ERROR_REFS
  {
    JsonResponseRefs("Validation error", VALIDATION_ERROR_REF);
    PutResponse(responses, "422", INVALID_RESPONSE);
    var r3 := DefaultsRefs(path, verb, Put(responses, "422", INVALID_RESPONSE));
    FillRefs(r3, "404", NotFoundDescription(path), NOT_FOUND_ERROR_REF);
    FillRefs(Fill(r3, "404", NotFoundDescription(path), NOT_FOUND_ERROR_REF), "409", "Resource conflict", CONFLICT_ERROR_REF);
  }

  // ----- one operation, seen through the substitution -----

  function OperationRefs(op: Fields): set<string>
  {
    Refs(Obj(Map(op, SubstituteResponses())))
  }

  lemma OwnResponses(op: Fields)
    ensures ResponsesRefs(Responses(op)) <= OperationRefs(op)
  {
    FoundRefs(op, "responses", SubstituteResponses());
    MapNode(op, SubstituteResponses());
    match Find(op, "responses")
    case Some(Obj(fields)) =>
    case _ => assert Map([], SubstituteResponse()) == [];
  }

  /** Putting a key keeps an operation within its references and those of the new entry. */
  lemma PutInOperation(op: Fields, key: string, value: Value)
    requires key != REF
    ensures OperationRefs(Put(op, key, value)) <= OperationRefs(op) + Refs(SubstituteResponses()(Entry(key, value)))
  {
    PutRefs(op, key, value, SubstituteResponses());
    PutFinds(op, key, value, REF);
    MapNode(op, SubstituteResponses());
    MapNode(Put(op, key, value), SubstituteResponses());
  }

  lemma NewResponses(op: Fields, responses: Fields)
    requires ResponsesRefs(responses) <= ResponsesRefs(Responses(op)) + INJECTED
    ensures OperationRefs(Put(op, "responses", Obj(responses))) <= OperationRefs(op) + INJECTED
  {
    OwnResponses(op);
    PutInOperation(op, "responses", Obj(responses));
  }

  lemma ErrorResponsesRefs(path: string, verb: string, op: Fields)
    ensures OperationRefs(ErrorResponses(path, verb, op)) <= OperationRefs(op) + INJECTED
  {
    var r := Put(Responses(op), "422", INVALID_RESPONSE);
    JsonResponseRefs("Validation error", VALIDATION_ERROR_REF);
    PutResponse(Responses(op), "422", INVALID_RESPONSE);
    NewResponses(op, r);
    var op1 := if IsAuthForm(path, verb) then Put(op, "responses", Obj(r)) else op;
    AdminRefs(path, verb, Responses(op1));
    NewResponses(op1, AdminResponses(path, verb, Responses(op1)));
  }

  lemma AuthResponsesRefs(path: string, op: Fields)
    ensures OperationRefs(AuthResponses(path, op)) <= OperationRefs(op) + INJECTED
  {
    RefNodeRefs(UNAUTHORIZED_REF);
    RefNodeRefs(FORBIDDEN_REF);
    var r1 := SetDefault(Responses(op), "401", RefNode(UNAUTHORIZED_REF));
    SetDefaultResponse(Responses(op), "401", RefNode(UNAUTHORIZED_REF));
    SetDefaultResponse(r1, "403", RefNode(FORBIDDEN_REF));
    NewResponses(op, SetDefault(r1, "403", RefNode(FORBIDDEN_REF)));
  }

  lemma NewParameters(op: Fields, parameters: seq<Value>)
    requires forall p :: p in parameters ==> p in Parameters(op) || Refs(p) == {}
    ensures OperationRefs(Put(op, "parameters", Arr(parameters))) <= OperationRefs(op)
  {
    PutInOperation(op, "parameters", Arr(parameters));
    FoundRefs(op, "parameters", SubstituteResponses());
    MapNode(op, SubstituteResponses());
    FewerItems(parameters, Parameters(op));
    if Parameters(op) != [] {
      assert Find(op, "parameters") == Some(Arr(Parameters(op)));
    }
  }

  lemma FewerItems(items: seq<Value>, all: seq<Value>)
    requires forall p :: p in items ==> p in all || Refs(p) == {}
    ensures RefsOfItems(items) <= RefsOfItems(all)
  {
    forall ref | ref in RefsOfItems(items) ensures ref in RefsOfItems(all) {
      RefWalk.RefsOfItemsMember(items, ref);
      var i :| 0 <= i < |items| && ref in Refs(items[i]);
      var k :| 0 <= k < |all| && all[k] == items[i];
      RefWalk.RefsOfItemsMember(all, ref);
    }
  }

  lemma IdempotencyKeyRefs()
    ensures Refs(IDEMPOTENCY_KEY_PARAMETER) == {}
  {
    var fields := IDEMPOTENCY_KEY_PARAMETER.fields;
    assert fields == [Entry("name", Str("Idempotency-Key"))] + ([Entry("in", Str("header"))]
      + ([Entry("required", Bool(true))] + [Entry("schema", Obj([Entry("type", Str("string"))]))]));
    var schema := [Entry("type", Str("string"))];
    assert schema[1..] == [];
    assert Refs(Obj(schema)) == {};
    assert fields[1..][1..][1..][1..] == [];
    assert RefsOfFields(fields[1..][1..][1..]) == {};
    assert RefsOfFields(fields[1..][1..]) == {};
    assert RefsOfFields(fields[1..]) == {};
  }

  lemma IdempotencyRefs(path: string, verb: string, op: Fields)
    ensures OperationRefs(IdempotencyHeader(path, verb, op)) <= OperationRefs(op)
  {
    IdempotencyKeyRefs();
    NewParameters(op, Parameters(op) + [IDEMPOTENCY_KEY_PARAMETER]);
  }

  lemma {:induction false} DedupeMembers(parameters: seq<Value>)
    ensures forall p :: p in Dedupe(parameters) ==> p in parameters
    ensures forall p :: p in WithoutTenant(parameters) ==> p in parameters
  {
    if parameters != [] {
      DedupeMembers(parameters[..|parameters| - 1]);
    }
  }

  lemma StoreCreateRefs(path: string, verb: string, op: Fields)
    ensures OperationRefs(StoreCreateParameters(path, verb, op)) <= OperationRefs(op)
  {
    DedupeMembers(Parameters(op));
    DedupeMembers(Dedupe(Parameters(op)));
    NewParameters(op, WithoutTenant(Dedupe(Parameters(op))));
  }

  lemma HardenOperationRefs(path: string, verb: string, op: Fields)
    ensures OperationRefs(HardenOperation(path, verb, op)) <= OperationRefs(op) + INJECTED
  {
    var op1 := ErrorResponses(path, verb, op);
    var op2 := AuthResponses(path, op1);
    ErrorResponsesRefs(path, verb, op);
    AuthResponsesRefs(path, op1);
    IdempotencyRefs(path, verb, op2);
    StoreCreateRefs(path, verb, IdempotencyHeader(path, verb, op2));
  }

  // ----- path items and paths -----

  function HardenedEntry(path: string): Entry -> Value
  {
    (e: Entry) => SubstituteOperation()(Entry(e.key, HardenEntry(path)(e)))
  }

  function HardenedItem(): Entry -> Value
  {
    (e: Entry) => SubstituteItem()(Entry(e.key, HardenItem()(e)))
  }

  lemma RefIsNoVerb()
    ensures !IsVerb(REF)
  {
    assert REF[0] == '$';
  }

  lemma EntryRefs(path: string, e: Entry)
    ensures Refs(HardenedEntry(path)(e)) <= Refs(SubstituteOperation()(e)) + INJECTED
  {
    if IsVerb(e.key) && e.value.Obj? {
      var op := e.value.fields;
      HardenOperationRefs(path, e.key, op);
      assert HardenEntry(path)(e) == Obj(HardenOperation(path, e.key, op));
      assert HardenedEntry(path)(e) == Obj(Map(HardenOperation(path, e.key, op), SubstituteResponses()));
      assert SubstituteOperation()(e) == Obj(Map(op, SubstituteResponses()));
    } else {
      assert HardenEntry(path)(e) == e.value;
    }
  }

  lemma OperationsRefs(path: string, fields: Fields)
    ensures Refs(Obj(Map(Map(fields, HardenEntry(path)), SubstituteOperation())))
            <= Refs(Obj(Map(fields, SubstituteOperation()))) + INJECTED
  {
    MapMap(fields, HardenEntry(path), SubstituteOperation(), HardenedEntry(path));
    forall x | x in fields ensures Refs(HardenedEntry(path)(x)) <= Refs(SubstituteOperation()(x)) + INJECTED {
      EntryRefs(path, x);
    }
    RefIsNoVerb();
    NodeRefs(fields, HardenedEntry(path), SubstituteOperation(), INJECTED);
  }

  lemma ItemRefs(e: Entry)
    ensures Refs(HardenedItem()(e)) <= Refs(SubstituteItem()(e)) + INJECTED
  {
    if e.value.Obj? {
      OperationsRefs(e.key, e.value.fields);
      assert HardenItem()(e) == Obj(Map(e.value.fields, HardenEntry(e.key)));
    } else {
      assert HardenItem()(e) == e.value;
    }
  }

  /** Hardened and substituted, the paths refer to what they would if only substituted, and to injected components. */
  lemma PathsRefs(paths: Fields)
    ensures Refs(Obj(Map(Map(paths, HardenItem()), SubstituteItem()))) <= Refs(Obj(Map(paths, SubstituteItem()))) + INJECTED
  {
    MapMap(paths, HardenItem(), SubstituteItem(), HardenedItem());
    forall e | e in paths ensures Refs(HardenedItem()(e)) <= Refs(SubstituteItem()(e)) + INJECTED {
      ItemRefs(e);
    }
    NodeRefs(paths, HardenedItem(), SubstituteItem(), INJECTED);
  }

  lemma SubstitutedPaths(paths: Fields)
    ensures Refs(Obj(Map(paths, SubstituteItem()))) <= Refs(Obj(paths)) + {VALIDATION_ERROR_REF}
  {
    forall e | e in paths ensures Refs(SubstituteItem()(e)) <= Refs(e.value) + {VALIDATION_ERROR_REF} {
      LevelAdds(6, e);
    }
    SubstituteAdds(paths, SubstituteItem());
  }

  // ----- the whole document -----

  /** A component of any section. */
  function Component(d: Doc, section: string, name: string): Option<Value>
  {
    match Find(Components(d).fields, section) case None => None case Some(x) => Get(x, name)
  }

  ghost predicate Names(d: Doc, ref: string, section: string, name: string)
  {
    ref == RefTo(["components", section, name]) && Component(d, section, name).Some?
  }

  /** A reference to a component of the document, in whatever section and under whatever name. */
  ghost predicate ToComponent(d: Doc, ref: string)
  {
    exists section, name :: Names(d, ref, section, name)
  }

  /** A component name that needs no escaping. */
  ghost predicate Plain(name: string)
  {
    forall i :: 0 <= i < |name| ==> name[i] != '/' && name[i] != '~'
  }

  lemma {:induction false} EscapePlain(name: string)
    requires Plain(name)
    ensures Escape(name) == name
  {
    if name != "" {
      EscapePlain(name[1..]);
      assert name == [name[0]] + name[1..];
    }
  }

  lemma JoinThree(a: string, b: string, c: string)
    ensures Join([a, b, c]) == a + "/" + (b + "/" + c)
  {
    assert [a, b, c][1..] == [b, c] && [b, c][1..] == [c];
    assert Join([c]) == c;
    assert Join([b, c]) == b + "/" + c;
  }

  lemma Regroup(p: string, a: string, b: string, c: string)
    ensures p + a + "/" + b + "/" + c == p + (a + "/" + (b + "/" + c))
  {
  }

  lemma EscapeThree(a: string, b: string, c: string)
    requires Plain(a) && Plain(b) && Plain(c)
    ensures EscapeAll([a, b, c]) == [a, b, c]
  {
    EscapePlain(a);
    EscapePlain(b);
    EscapePlain(c);
  }

  lemma SectionsPlain()
    ensures Plain("components") && Plain("schemas") && Plain("responses")
  {
  }

  lemma SchemaPointer(name: string)
    requires Plain(name)
    ensures RefTo(["components", "schemas", name]) == SCHEMAS + name
  {
    SectionsPlain();
    EscapeThree("components", "schemas", name);
    JoinThree("components", "schemas", name);
    Regroup("#/", "components", "schemas", name);
  }

  lemma ResponsePointer(name: string)
    requires Plain(name)
    ensures RefTo(["components", "responses", name]) == RESPONSES + name
  {
    SectionsPlain();
    EscapeThree("components", "responses", name);
    JoinThree("components", "responses", name);
    Regroup("#/", "components", "responses", name);
  }

  lemma FollowFirst(node: Value, key: string, rest: seq<string>)
    ensures Follow(node, [key] + rest) == match Get(node, key) case None => None case Some(x) => Follow(x, rest)
  {
    assert ([key] + rest)[1..] == rest;
  }

  lemma FirstTwo(k1: string, v1: Value, k2: string, v2: Value, rest: Fields)
    requires k1 != k2
    ensures Find([Entry(k1, v1), Entry(k2, v2)] + rest, k1) == Some(v1)
    ensures Find([Entry(k1, v1), Entry(k2, v2)] + rest, k2) == Some(v2)
  {
    var fields := [Entry(k1, v1), Entry(k2, v2)] + rest;
    assert fields[1..] == [Entry(k2, v2)] + rest;
  }

  lemma SectionOf(d: Doc)
    ensures Find(Components(d).fields, "schemas") == Some(Obj(d.schemas))
    ensures Find(Components(d).fields, "responses") == Some(Obj(d.responses))
  {
    assert "schemas" != "responses";
    FirstTwo("schemas", Obj(d.schemas), "responses", Obj(d.responses), d.components);
  }

  lemma FollowTwo(node: Value, b: string, c: string)
    ensures Follow(node, [b, c]) == match Get(node, b) case None => None case Some(x) => Get(x, c)
  {
    assert [b, c] == [b] + [c] && [c] == [c] + [];
    FollowFirst(node, b, [c]);
    if Get(node, b).Some? {
      FollowFirst(Get(node, b).value, c, []);
    }
    assert forall z: Value :: Follow(z, []) == Some(z);
  }

  lemma FollowComponent(d: Doc, section: string, name: string)
    ensures Follow(ToJson(d), ["components", section, name]) == Component(d, section, name)
  {
    assert "components" != "paths";
    FirstTwo("paths", Obj(d.paths), "components", Components(d), d.rest);
    assert ["components", section, name] == ["components"] + [section, name];
    FollowFirst(ToJson(d), "components", [section, name]);
    FollowTwo(Components(d), section, name);
  }

  /** A component reference resolves in the document. */
  lemma ComponentResolves(d: Doc, ref: string)
    requires ToComponent(d, ref)
    ensures Resolves(ToJson(d), ref)
  {
    var section, name :| Names(d, ref, section, name);
    PointerRoundTrip(ToJson(d), ["components", section, name]);
    FollowComponent(d, section, name);
  }

  /** All references of the document, section by section. */
  function DocRefs(d: Doc): set<string>
  {
    Refs(Obj(d.paths)) + Refs(Obj(d.schemas)) + Refs(Obj(d.responses)) + OtherRefs(d)
  }

  /** The references outside paths, schemas and responses. */
  function OtherRefs(d: Doc): set<string>
  {
    RefsOfFields(d.components) + RefsOfFields(d.rest)
    + (if RefOf(Obj(d.rest)).Some? then {RefOf(Obj(d.rest)).value} else {})
    + (if RefOf(Obj(d.components)).Some? then {RefOf(Obj(d.components)).value} else {})
  }

  lemma TwoMore(k1: string, v1: Value, k2: string, v2: Value, rest: Fields)
    requires k1 != REF && k2 != REF
    ensures Refs(Obj([Entry(k1, v1), Entry(k2, v2)] + rest))
            == Refs(v1) + Refs(v2) + RefsOfFields(rest) + (if RefOf(Obj(rest)).Some? then {RefOf(Obj(rest)).value} else {})
  {
    var fields := [Entry(k1, v1), Entry(k2, v2)] + rest;
    assert fields[1..] == [Entry(k2, v2)] + rest && fields[1..][1..] == rest;
    assert RefsOfFields(fields[1..]) == Refs(v2) + RefsOfFields(rest);
    assert Find(fields, REF) == Find(rest, REF);
  }

  lemma DocRefsAreRefs(d: Doc)
    ensures Refs(ToJson(d)) == DocRefs(d)
  {
    TwoMore("paths", Obj(d.paths), "components", Components(d), d.rest);
    TwoMore("schemas", Obj(d.schemas), "responses", Obj(d.responses), d.components);
  }

  // ----- components: injected, and one removed -----

  predicate HasKey(fields: Fields, key: string)
  {
    Find(fields, key).Some?
  }

  lemma {:induction false} FindAppend(a: Fields, b: Fields, key: string)
    ensures Find(a + b, key) == if HasKey(a, key) then Find(a, key) else Find(b, key)
  {
    if a == [] {
      assert a + b == b;
    } else {
      assert (a + b)[1..] == a[1..] + b;
      FindAppend(a[1..], b, key);
    }
  }

  lemma {:induction false} PutAllKeys(fields: Fields, entries: Fields, key: string)
    ensures HasKey(PutAll(fields, entries), key) <==> HasKey(fields, key) || HasKey(entries, key)
  {
    if entries != [] {
      var n := |entries| - 1;
      PutAllKeys(fields, entries[..n], key);
      PutFinds(PutAll(fields, entries[..n]), entries[n].key, entries[n].value, key);
      FindAppend(entries[..n], [entries[n]], key);
      assert entries == entries[..n] + [entries[n]];
      assert [entries[n]][1..] == [];
    }
  }

  lemma {:induction false} PutAllRefs(fields: Fields, entries: Fields)
    requires forall i :: 0 <= i < |entries| ==> entries[i].key != REF
    ensures Refs(Obj(PutAll(fields, entries))) <= Refs(Obj(fields)) + RefsOfFields(entries)
  {
    if entries != [] {
      var n := |entries| - 1;
      PutAllRefs(fields, entries[..n]);
      PutNode(PutAll(fields, entries[..n]), entries[n].key, entries[n].value);
      RefsOfConcat(entries[..n], [entries[n]]);
      assert entries == entries[..n] + [entries[n]];
      assert [entries[n]][1..] == [];
    }
  }

  lemma DropNode(fields: Fields, key: string)
    ensures Refs(Obj(Drop(fields, key))) <= Refs(Obj(fields))
  {
    RefsOfDrop(fields, key);
    DropFinds(fields, key, REF);
  }

  lemma {:induction false} DropPut(fields: Fields, key: string, value: Value, dropped: string)
    requires key != dropped
    ensures Drop(Put(fields, key, value), dropped) == Put(Drop(fields, dropped), key, value)
  {
    if fields == [] {
      assert [Entry(key, value)][1..] == [];
    } else {
      DropPut(fields[1..], key, value, dropped);
    }
  }

  lemma {:induction false} DropPutAll(fields: Fields, entries: Fields, dropped: string)
    requires forall i :: 0 <= i < |entries| ==> entries[i].key != dropped
    ensures Drop(PutAll(fields, entries), dropped) == PutAll(Drop(fields, dropped), entries)
  {
    if entries != [] {
      var n := |entries| - 1;
      DropPutAll(fields, entries[..n], dropped);
      DropPut(PutAll(fields, entries[..n]), entries[n].key, entries[n].value, dropped);
    }
  }

  // ----- the injected components serve the injected references -----

  lemma NamesSchema(d: Doc, name: string)
    requires Plain(name) && HasKey(d.schemas, name)
    ensures ToComponent(d, SCHEMAS + name)
  {
    SectionOf(d);
    SchemaPointer(name);
    assert Names(d, SCHEMAS + name, "schemas", name);
  }

  lemma NamesResponse(d: Doc, name: string)
    requires Plain(name) && HasKey(d.responses, name)
    ensures ToComponent(d, RESPONSES + name)
  {
    SectionOf(d);
    ResponsePointer(name);
    assert Names(d, RESPONSES + name, "responses", name);
  }

  lemma SchemaServed(d: Doc, name: string)
    requires HasKey(ERROR_SCHEMAS, name) && Plain(name) && name != HTTP_VALIDATION_ERROR
    ensures ToComponent(Harden(d), SCHEMAS + name)
  {
    PutAllKeys(d.schemas, ERROR_SCHEMAS, name);
    DropFinds(PutAll(d.schemas, ERROR_SCHEMAS), HTTP_VALIDATION_ERROR, name);
    NamesSchema(Harden(d), name);
  }

  lemma ResponseServed(d: Doc, name: string)
    requires HasKey(ERROR_RESPONSES, name) && Plain(name)
    ensures ToComponent(Harden(d), RESPONSES + name)
  {
    PutAllKeys(d.responses, ERROR_RESPONSES, name);
    NamesResponse(Harden(d), name);
  }

  /** Names of components that the phases add and keep. */
  ghost predicate SchemaName(name: string)
  {
    HasKey(ERROR_SCHEMAS, name) && Plain(name) && name != HTTP_VALIDATION_ERROR
  }

  ghost predicate ResponseName(name: string)
  {
    HasKey(ERROR_RESPONSES, name) && Plain(name)
  }

  ghost predicate Added(ref: string)
  {
    (exists name :: SchemaName(name) && ref == SCHEMAS + name) || (exists name :: ResponseName(name) && ref == RESPONSES + name)
  }

  lemma AddedServed(d: Doc, ref: string)
    requires Added(ref)
    ensures ToComponent(Harden(d), ref)
  {
    if name :| SchemaName(name) && ref == SCHEMAS + name {
      SchemaServed(d, name);
    } else {
      var name :| ResponseName(name) && ref == RESPONSES + name;
      ResponseServed(d, name);
    }
  }

  lemma HasKeyAt(fields: Fields, i: nat)
    requires i < |fields|
    ensures HasKey(fields, fields[i].key)
  {
  }

  lemma SchemaAdded(i: nat, ref: string)
    requires i < |ERROR_SCHEMAS| && ref == SCHEMAS + ERROR_SCHEMAS[i].key
    requires Plain(ERROR_SCHEMAS[i].key) && ERROR_SCHEMAS[i].key != HTTP_VALIDATION_ERROR
    ensures Added(ref)
  {
    HasKeyAt(ERROR_SCHEMAS, i);
    assert SchemaName(ERROR_SCHEMAS[i].key);
  }

  lemma ResponseAdded(i: nat, ref: string)
    requires i < |ERROR_RESPONSES| && ref == RESPONSES + ERROR_RESPONSES[i].key
    requires Plain(ERROR_RESPONSES[i].key)
    ensures Added(ref)
  {
    HasKeyAt(ERROR_RESPONSES, i);
    assert ResponseName(ERROR_RESPONSES[i].key);
  }

  lemma PlainSchemaNames()
    ensures Plain("ApiError") && Plain("ValidationError") && Plain("NotFoundErrorResponse")
    ensures Plain("ConflictErrorResponse") && Plain("ValidationErrorResponse")
  {
  }

  lemma PlainResponseNames()
    ensures Plain("UnauthorizedError") && Plain("ForbiddenError")
  {
  }

  lemma OtherNames()
    ensures HTTP_VALIDATION_ERROR !in ["ApiError", "ValidationError", "NotFoundErrorResponse", "ConflictErrorResponse", "ValidationErrorResponse"]
  {
    assert |HTTP_VALIDATION_ERROR| == 19;
  }

  lemma ApiErrorAdded()
    ensures Added(SCHEMAS + "ApiError")
  {
    PlainSchemaNames();
    OtherNames();
    SchemaAdded(0, SCHEMAS + "ApiError");
  }

  lemma ValidationErrorAdded()
    ensures Added(SCHEMAS + "ValidationError")
  {
    PlainSchemaNames();
    OtherNames();
    SchemaAdded(4, SCHEMAS + "ValidationError");
  }

  lemma NotFoundAdded()
    ensures Added(NOT_FOUND_ERROR_REF)
  {
    PlainSchemaNames();
    OtherNames();
    SchemaAdded(5, NOT_FOUND_ERROR_REF);
  }

  lemma ConflictAdded()
    ensures Added(CONFLICT_ERROR_REF)
  {
    PlainSchemaNames();
    OtherNames();
    SchemaAdded(6, CONFLICT_ERROR_REF);
  }

  lemma ValidationResponseAdded()
    ensures Added(VALIDATION_ERROR_REF)
  {
    PlainSchemaNames();
    OtherNames();
    SchemaAdded(8, VALIDATION_ERROR_REF);
  }

  lemma UnauthorizedAdded()
    ensures Added(UNAUTHORIZED_REF)
  {
    PlainResponseNames();
    ResponseAdded(0, UNAUTHORIZED_REF);
  }

  lemma ForbiddenAdded()
    ensures Added(FORBIDDEN_REF)
  {
    PlainResponseNames();
    ResponseAdded(1, FORBIDDEN_REF);
  }

  lemma InjectedCases(ref: string, p: string -> bool)
    requires p(SCHEMAS + "ApiError") && p(SCHEMAS + "ValidationError")
    requires p(NOT_FOUND_ERROR_REF) && p(CONFLICT_ERROR_REF) && p(VALIDATION_ERROR_REF)
    requires p(UNAUTHORIZED_REF) && p(FORBIDDEN_REF)
    requires ref in INJECTED
    ensures p(ref)
  {
  }

  /** Whatever reference a phase introduces, a phase also adds its component. */
  lemma InjectedAdded(ref: string)
    requires ref in INJECTED
    ensures Added(ref)
  {
    ApiErrorAdded();
    ValidationErrorAdded();
    NotFoundAdded();
    ConflictAdded();
    ValidationResponseAdded();
    UnauthorizedAdded();
    ForbiddenAdded();
    InjectedCases(ref, (r: string) => Added(r));
  }

  lemma InjectedServed(d: Doc, ref: string)
    requires ref in INJECTED
    ensures ToComponent(Harden(d), ref)
  {
    InjectedAdded(ref);
    AddedServed(d, ref);
  }

  /** What is left of the generated references when the last phase has run. */
  function Remaining(d: Doc): set<string>
  {
    Refs(Obj(Map(d.paths, SubstituteItem()))) + Refs(Obj(Drop(d.schemas, HTTP_VALIDATION_ERROR))) + Refs(Obj(d.responses)) + OtherRefs(d)
  }

  lemma FieldsWithin(fields: Fields, extra: set<string>)
    requires forall i :: 0 <= i < |fields| ==> Refs(fields[i].value) <= extra
    ensures RefsOfFields(fields) <= extra
  {
    forall ref | ref in RefsOfFields(fields) ensures ref in extra {
      RefWalk.RefsOfFieldsMember(fields, ref);
    }
  }

  lemma Members()
    ensures SCHEMAS + "ApiError" in INJECTED && SCHEMAS + "ValidationError" in INJECTED && CONFLICT_ERROR_REF in INJECTED
    ensures UNAUTHORIZED_REF in INJECTED && FORBIDDEN_REF in INJECTED
  {
  }

  lemma SchemaRefsAt(i: nat)
    requires i < |ERROR_SCHEMAS|
    ensures var refs := Refs(ERROR_SCHEMAS[i].value);
            refs in [{}, {SCHEMAS + "ApiError"}, {CONFLICT_ERROR_REF}, {SCHEMAS + "ValidationError"}]
  {
    if i == 1 {
      RefNodeRefs(SCHEMAS + "ApiError");
    } else if i == 7 {
      RefNodeRefs(CONFLICT_ERROR_REF);
    } else if i == 8 {
      RefNodeRefs(SCHEMAS + "ValidationError");
    } else {
      assert ERROR_SCHEMAS[i].value == OBJECT_SCHEMA;
      OneField("type", Str("object"));
    }
  }

  lemma ResponseRefsAt(i: nat)
    requires i < |ERROR_RESPONSES|
    ensures var refs := Refs(ERROR_RESPONSES[i].value);
            refs in [{SCHEMAS + "ApiError"}, {UNAUTHORIZED_REF}, {FORBIDDEN_REF}]
  {
    if i == 0 {
      JsonResponseRefs("Unauthorized", SCHEMAS + "ApiError");
    } else if i == 1 {
      JsonResponseRefs("Forbidden", SCHEMAS + "ApiError");
    } else if i == 2 {
      RefNodeRefs(UNAUTHORIZED_REF);
    } else {
      RefNodeRefs(FORBIDDEN_REF);
    }
  }

  lemma InjectedRefs()
    ensures RefsOfFields(ERROR_SCHEMAS) <= INJECTED && RefsOfFields(ERROR_RESPONSES) <= INJECTED
  {
    Members();
    forall i | 0 <= i < |ERROR_SCHEMAS| ensures Refs(ERROR_SCHEMAS[i].value) <= INJECTED {
      SchemaRefsAt(i);
    }
    FieldsWithin(ERROR_SCHEMAS, INJECTED);
    forall i | 0 <= i < |ERROR_RESPONSES| ensures Refs(ERROR_RESPONSES[i].value) <= INJECTED {
      ResponseRefsAt(i);
    }
    FieldsWithin(ERROR_RESPONSES, INJECTED);
  }

  lemma InjectRefs(schemas: Fields, responses: Fields, moreSchemas: Fields, moreResponses: Fields, removed: string)
    requires forall i :: 0 <= i < |moreSchemas| ==> moreSchemas[i].key != removed && moreSchemas[i].key != REF
    requires forall i :: 0 <= i < |moreResponses| ==> moreResponses[i].key != REF
    ensures Refs(Obj(Drop(PutAll(schemas, moreSchemas), removed))) <= Refs(Obj(Drop(schemas, removed))) + RefsOfFields(moreSchemas)
    ensures Refs(Obj(PutAll(responses, moreResponses))) <= Refs(Obj(responses)) + RefsOfFields(moreResponses)
  {
    DropPutAll(schemas, moreSchemas, removed);
    PutAllRefs(Drop(schemas, removed), moreSchemas);
    PutAllRefs(responses, moreResponses);
  }

  lemma InjectedKeys()
    ensures forall i :: 0 <= i < |ERROR_SCHEMAS| ==> ERROR_SCHEMAS[i].key != HTTP_VALIDATION_ERROR && ERROR_SCHEMAS[i].key != REF
    ensures forall i :: 0 <= i < |ERROR_RESPONSES| ==> ERROR_RESPONSES[i].key != REF
  {
    assert |HTTP_VALIDATION_ERROR| == 19 && |REF| == 4;
  }

  lemma Gather(paths: set<string>, schemas: set<string>, responses: set<string>, others: set<string>,
               leftPaths: set<string>, leftSchemas: set<string>, leftResponses: set<string>, extra: set<string>)
    requires paths <= leftPaths + extra && schemas <= leftSchemas + extra && responses <= leftResponses + extra
    ensures paths + schemas + responses + others <= leftPaths + leftSchemas + leftResponses + others + extra
  {
  }

  lemma HardenedPaths(d: Doc)
    ensures Refs(Obj(Harden(d).paths)) <= Refs(Obj(Map(d.paths, SubstituteItem()))) + INJECTED
  {
    PathsRefs(d.paths);
  }

  lemma HardenedComponents(d: Doc)
    ensures Refs(Obj(Harden(d).schemas)) <= Refs(Obj(Drop(d.schemas, HTTP_VALIDATION_ERROR))) + RefsOfFields(ERROR_SCHEMAS)
    ensures Refs(Obj(Harden(d).responses)) <= Refs(Obj(d.responses)) + RefsOfFields(ERROR_RESPONSES)
  {
    InjectedKeys();
    InjectRefs(d.schemas, d.responses, ERROR_SCHEMAS, ERROR_RESPONSES, HTTP_VALIDATION_ERROR);
  }

  lemma SameOthers(d: Doc)
    ensures OtherRefs(Harden(d)) == OtherRefs(d)
  {
    assert Harden(d).components == d.components && Harden(d).rest == d.rest;
  }

  lemma HardenedRefs(d: Doc)
    ensures Refs(ToJson(Harden(d))) <= Remaining(d) + INJECTED
  {
    var h := Harden(d);
    DocRefsAreRefs(h);
    HardenedPaths(d);
    HardenedComponents(d);
    SameOthers(d);
    InjectedRefs();
    Gather(Refs(Obj(h.paths)), Refs(Obj(h.schemas)), Refs(Obj(h.responses)), OtherRefs(h),
           Refs(Obj(Map(d.paths, SubstituteItem()))), Refs(Obj(Drop(d.schemas, HTTP_VALIDATION_ERROR))), Refs(Obj(d.responses)), INJECTED);
  }

  lemma RemainingRefs(d: Doc)
    ensures Remaining(d) <= Refs(ToJson(d)) + {VALIDATION_ERROR_REF}
  {
    DocRefsAreRefs(d);
    SubstitutedPaths(d.paths);
    DropNode(d.schemas, HTTP_VALIDATION_ERROR);
  }

  lemma SchemaKept(d: Doc, name: string)
    requires name != HTTP_VALIDATION_ERROR
    ensures Component(d, "schemas", name).Some? ==> Component(Harden(d), "schemas", name).Some?
  {
    SectionOf(d);
    SectionOf(Harden(d));
    PutAllKeys(d.schemas, ERROR_SCHEMAS, name);
    DropFinds(PutAll(d.schemas, ERROR_SCHEMAS), HTTP_VALIDATION_ERROR, name);
  }

  lemma ResponseKept(d: Doc, name: string)
    ensures Component(d, "responses", name).Some? ==> Component(Harden(d), "responses", name).Some?
  {
    SectionOf(d);
    SectionOf(Harden(d));
    PutAllKeys(d.responses, ERROR_RESPONSES, name);
  }

  lemma OtherSectionKept(d: Doc, section: string, name: string)
    requires section != "schemas" && section != "responses"
    ensures Component(Harden(d), section, name) == Component(d, section, name)
  {
    OtherSection(d, section);
    OtherSection(Harden(d), section);
    assert Harden(d).components == d.components;
  }

  lemma OtherSection(d: Doc, section: string)
    requires section != "schemas" && section != "responses"
    ensures Find(Components(d).fields, section) == Find(d.components, section)
  {
    var first, second := Entry("schemas", Obj(d.schemas)), Entry("responses", Obj(d.responses));
    FindAppend([first, second], d.components, section);
    assert [first, second][1..] == [second] && [second][1..] == [];
  }

  /** A component of any section, but for HTTPValidationError, is still there after hardening. */
  lemma ComponentKept(d: Doc, ref: string)
    requires ToComponent(d, ref) && ref != HTTP_VALIDATION_REF
    ensures ToComponent(Harden(d), ref)
  {
    var section, name :| Names(d, ref, section, name);
    if section == "schemas" {
      HttpValidationPlain();
      SchemaPointer(HTTP_VALIDATION_ERROR);
      SchemaKept(d, name);
    } else if section == "responses" {
      ResponseKept(d, name);
    } else {
      OtherSectionKept(d, section, name);
    }
    assert Names(Harden(d), ref, section, name);
  }

  lemma AbsentDangles(d: Doc, name: string)
    requires Plain(name) && Find(d.schemas, name).None?
    ensures !Resolves(ToJson(d), SCHEMAS + name)
  {
    SchemaPointer(name);
    PointerRoundTrip(ToJson(d), ["components", "schemas", name]);
    FollowComponent(d, "schemas", name);
    SectionOf(d);
  }

  lemma HttpValidationPlain()
    ensures Plain(HTTP_VALIDATION_ERROR)
  {
  }

  lemma RemovedDangles(d: Doc)
    ensures !Resolves(ToJson(Harden(d)), HTTP_VALIDATION_REF)
  {
    HttpValidationPlain();
    DropFinds(PutAll(d.schemas, ERROR_SCHEMAS), HTTP_VALIDATION_ERROR, HTTP_VALIDATION_ERROR);
    AbsentDangles(Harden(d), HTTP_VALIDATION_ERROR);
  }

  /** Every reference of a generated document names one of its components. */
  ghost predicate Closed(d: Doc)
  {
    forall ref :: ref in Refs(ToJson(d)) ==> ToComponent(d, ref)
  }

  /** A hardened document fails the reference check if and only if a reference to the removed component survives. */
  lemma ClosedIffRemovedUnused(d: Doc)
    requires Closed(d)
    ensures RefWalk.Report(ToJson(Harden(d)), ToJson(Harden(d)), "") == []
            <==> HTTP_VALIDATION_REF !in Refs(ToJson(Harden(d)))
  {
    var h := Harden(d);
    RefWalk.CleanIffAllResolve(ToJson(h));
    RemovedDangles(d);
    HardenedRefs(d);
    RemainingRefs(d);
    forall ref | ref in Refs(ToJson(h)) && ref != HTTP_VALIDATION_REF ensures Resolves(ToJson(h), ref) {
      if ref in INJECTED {
        InjectedServed(d, ref);
      } else {
        ComponentKept(d, ref);
      }
      ComponentResolves(h, ref);
    }
  }

  lemma ClosedWhenNoneRemain(d: Doc)
    requires Closed(d) && HTTP_VALIDATION_REF !in Remaining(d)
    ensures RefWalk.Report(ToJson(Harden(d)), ToJson(Harden(d)), "") == []
  {
    HardenedRefs(d);
    NotInjected();
    ClosedIffRemovedUnused(d);
  }

  lemma NotInjected()
    ensures HTTP_VALIDATION_REF !in INJECTED
  {
    var n := |SCHEMAS|;
    assert HTTP_VALIDATION_REF[n..] == HTTP_VALIDATION_ERROR;
    assert (SCHEMAS + "ApiError")[n..] == "ApiError";
    assert (SCHEMAS + "ValidationError")[n..] == "ValidationError";
    assert VALIDATION_ERROR_REF[n..] == "ValidationErrorResponse";
    assert NOT_FOUND_ERROR_REF[n..] == "NotFoundErrorResponse";
    assert CONFLICT_ERROR_REF[n..] == "ConflictErrorResponse";
    assert HTTP_VALIDATION_REF[13] == 's' && UNAUTHORIZED_REF[13] == 'r' && FORBIDDEN_REF[13] == 'r';
  }
}
