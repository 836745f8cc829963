/**
  What hardening does to each response, parameter and component of a document, by where it stands:
  which operations get which response and which error it refers to.
 */
module OpenApiLaws {
  import opened Common
  import opened Json
  import opened OpenApi
  import opened OpenApiClosure
  import opened OpenApiHardener

  // ----- places -----

  /** The operation of a path and a verb. */
  function OperationOf(paths: Fields, path: string, verb: string): Option<Fields>
  {
    match Find(paths, path)
    case Some(Obj(item)) => (match Find(item, verb) case Some(Obj(op)) => Some(op) case _ => None)
    case _ => None
  }

  /** Its response for a status code. */
  function ResponseOf(op: Fields, code: string): Option<Value>
  {
    Find(Sub(Obj(op), "responses"), code)
  }

  /** The schema of the JSON content of a response is this reference. */
  predicate PointsTo(response: Value, ref: string)
  {
    var content := Get(response, "content");
    content.Some? && var media := Get(content.value, "application/json");
    media.Some? && var schema := Get(media.value, "schema");
    schema.Some? && RefOf(schema.value) == Some(ref)
  }

  /** A response with this description and this error as its JSON schema. */
  predicate Tells(response: Option<Value>, description: string, ref: string)
  {
    response.Some? && Get(response.value, "description") == Some(Str(description)) && PointsTo(response.value, ref)
  }

  // ----- which operations -----

  predicate OfFive(verb: string)
  {
    verb == "get" || verb == "post" || verb == "put" || verb == "patch" || verb == "delete"
  }

  predicate Writes(verb: string)
  {
    verb == "post" || verb == "put" || verb == "patch" || verb == "delete"
  }

  predicate Within(text: string, part: string)
  {
    exists i :: 0 <= i <= |text| && part <= text[i..]
  }

  lemma {:induction false} ContainsIsWithin(text: string, part: string)
    ensures Contains(text, part) <==> Within(text, part)
  {
    assert text[0..] == text;
    if text != "" {
      ContainsIsWithin(text[1..], part);
      if i :| 0 <= i <= |text[1..]| && part <= text[1..][i..] {
        assert text[i + 1..] == text[1..][i..];
      }
      if i :| 0 <= i <= |text| && part <= text[i..] && i > 0 {
        assert text[1..][i - 1..] == text[i..];
      }
    }
  }

  predicate Administrative(path: string)
  {
    "/aris3/admin" <= path || "/aris3/access-control" <= path
  }

  /** Log-in, token and password endpoints, where they take a body. */
  predicate TakesCredentials(path: string, verb: string)
  {
    (path == "/aris3/auth/login" || path == "/aris3/auth/token" || path == "/aris3/auth/change-password")
    && (verb == "post" || verb == "patch")
  }

  /** Behind authentication: some security requirement, and no endpoint open to all. */
  predicate Guarded(path: string, op: Fields)
  {
    && path != "/health" && path != "/ready" && path != "/aris3/auth/login" && path != "/aris3/auth/token"
    && var security := Find(op, "security");
       security.Some? && ((security.value.Arr? && security.value.items != []) || (security.value.Obj? && security.value.fields != []))
  }

  /** Asks for one tenant, store or user, or creates one below a tenant. */
  predicate MayMiss(path: string, verb: string)
  {
    (verb in {"get", "put", "patch", "delete"} && (Within(path, "{tenant_id}") || Within(path, "{store_id}") || Within(path, "{user_id}")))
    || (verb == "post" && (path == "/aris3/admin/users" || path == "/aris3/admin/stores"))
  }

  lemma MayMissIs(path: string, verb: string)
    ensures NeedsNotFound(path, verb) <==> MayMiss(path, verb)
  {
    ContainsIsWithin(path, "{tenant_id}");
    ContainsIsWithin(path, "{store_id}");
    ContainsIsWithin(path, "{user_id}");
  }

  /** What a 404 says is missing: the store before the user before the tenant. */
  predicate SaysMissing(path: string, text: string)
  {
    if Within(path, "{store_id}") then text == "Store not found"
    else if Within(path, "{user_id}") then text == "User not found"
    else if Within(path, "{tenant_id}") then text == "Tenant not found"
    else text == "Resource not found"
  }

  lemma DescriptionSays(path: string)
    ensures SaysMissing(path, NotFoundDescription(path))
  {
    ContainsIsWithin(path, "{tenant_id}");
    ContainsIsWithin(path, "{store_id}");
    ContainsIsWithin(path, "{user_id}");
  }

  // ----- one responses section -----

  /** The status codes and keys the phases write are different texts. */
  lemma TextsDiffer()
    ensures "401" != "403" && "401" != "404" && "401" != "409" && "401" != "422"
    ensures "403" != "404" && "403" != "409" && "403" != "422"
    ensures "404" != "409" && "404" != "422" && "409" != "422"
    ensures "description" != "content" && "responses" != "parameters"
  {
    assert "401"[2] == '1' && "403"[2] == '3' && "404"[2] == '4' && "409"[2] == '9' && "422"[2] == '2';
    assert |"description"| == 11 && |"content"| == 7 && |"responses"| == 9 && |"parameters"| == 10;
  }

  lemma ContentPoints(ref: string, example: Fields)
    ensures var media := Get(JsonContent(ref, example), "application/json");
            media.Some? && Get(media.value, "schema") == Some(RefNode(ref)) && RefOf(RefNode(ref)) == Some(ref)
  {
  }

  lemma ResponseTells(description: string, ref: string)
    ensures Tells(Some(JsonResponse(description, ref)), description, ref)
  {
    TextsDiffer();
    ContentPoints(ref, []);
    FindSecond("description", Str(description), "content", JsonContent(ref, []));
  }

  lemma FindSecond(k1: string, v1: Value, k2: string, v2: Value)
    requires k1 != k2
    ensures Find([Entry(k1, v1), Entry(k2, v2)], k1) == Some(v1) && Find([Entry(k1, v1), Entry(k2, v2)], k2) == Some(v2)
  {
    assert [Entry(k1, v1), Entry(k2, v2)][1..] == [Entry(k2, v2)];
  }

  /** The fields of a response that is told again. */
  function Retold(fields: Fields, description: string, ref: string): Fields
  {
    Put(Put(fields, "description", Str(description)), "content", JsonContent(ref, [Entry("message", Str(description))]))
  }

  lemma RetoldTells(fields: Fields, description: string, ref: string)
    ensures Tells(Some(Obj(Retold(fields, description, ref))), description, ref)
  {
    TextsDiffer();
    var content := JsonContent(ref, [Entry("message", Str(description))]);
    PutFinds(Put(fields, "description", Str(description)), "content", content, "content");
    PutFinds(Put(fields, "description", Str(description)), "content", content, "description");
    PutFinds(fields, "description", Str(description), "description");
    ContentPoints(ref, [Entry("message", Str(description))]);
  }

  lemma FillFinds(responses: Fields, code: string, description: string, ref: string, k: string)
    ensures var r := Find(responses, code);
            Find(Fill(responses, code, description, ref), k)
            == if k == code && r.Some? && r.value.Obj? then Some(Obj(Retold(r.value.fields, description, ref))) else Find(responses, k)
  {
    var r := Find(responses, code);
    if r.Some? && r.value.Obj? {
      PutFinds(responses, code, Obj(Retold(r.value.fields, description, ref)), k);
    }
  }

  lemma DefaultFinds(fields: Fields, key: string, value: Value, k: string)
    ensures Find(SetDefault(fields, key, value), k) == if k == key && Find(fields, key).None? then Some(value) else Find(fields, k)
  {
    PutFinds(fields, key, value, k);
  }

  /** Every key but the two is as it was. */
  ghost predicate KeepsOthers(before: Value, after: Value)
  {
    forall k :: k != "description" && k != "content" ==> Get(after, k) == Get(before, k)
  }

  lemma RetoldKeeps(fields: Fields, description: string, ref: string)
    ensures KeepsOthers(Obj(fields), Obj(Retold(fields, description, ref)))
  {
    forall k | k != "description" && k != "content" ensures Find(Retold(fields, description, ref), k) == Find(fields, k) {
      PutFinds(Put(fields, "description", Str(description)), "content", JsonContent(ref, [Entry("message", Str(description))]), k);
      PutFinds(fields, "description", Str(description), k);
    }
  }

  /** An error response that is written where there is none and one is wanted, and told again where there is one. */
  ghost predicate ToldAgain(before: Option<Value>, after: Option<Value>, wanted: bool, description: string, ref: string)
  {
    && (before.None? && !wanted ==> after.None?)
    && (before.None? && wanted ==> Tells(after, description, ref))
    && (before.Some? && before.value.Obj? ==> Tells(after, description, ref) && KeepsOthers(before.value, after.value))
    && (before.Some? && !before.value.Obj? ==> after == before)
  }

  /** SetDefault and then Fill on one code. */
  lemma DefaultThenFill(before: Fields, after: Fields, code: string, wanted: bool, description: string, ref: string)
    requires var r := if wanted then SetDefault(before, code, Obj([Entry("description", Str(description))])) else before;
             Find(after, code) == Find(Fill(r, code, description, ref), code)
    ensures ToldAgain(Find(before, code), Find(after, code), wanted, description, ref)
  {
    var value := Obj([Entry("description", Str(description))]);
    var r := if wanted then SetDefault(before, code, value) else before;
    DefaultFinds(before, code, value, code);
    FillFinds(r, code, description, ref, code);
    var found := Find(r, code);
    if found.Some? && found.value.Obj? {
      RetoldTells(found.value.fields, description, ref);
      RetoldKeeps(found.value.fields, description, ref);
    }
  }

  lemma AdminFind(path: string, verb: string, responses: Fields, k: string)
    requires k != "404" && k != "409"
    ensures Find(AdminResponses(path, verb, responses), k) == if k == "422" then Some(INVALID_RESPONSE) else Find(responses, k)
  {
    var r1 := Put(responses, "422", INVALID_RESPONSE);
    var missing, conflict := Obj([Entry("description", Str(NotFoundDescription(path)))]), Obj([Entry("description", Str("Resource conflict"))]);
    var r2 := if NeedsNotFound(path, verb) then SetDefault(r1, "404", missing) else r1;
    var r3 := if Mutates(verb) then SetDefault(r2, "409", conflict) else r2;
    PutFinds(responses, "422", INVALID_RESPONSE, k);
    DefaultFinds(r1, "404", missing, k);
    DefaultFinds(r2, "409", conflict, k);
    FillFinds(r3, "404", NotFoundDescription(path), NOT_FOUND_ERROR_REF, k);
    FillFinds(Fill(r3, "404", NotFoundDescription(path), NOT_FOUND_ERROR_REF), "409", "Resource conflict", CONFLICT_ERROR_REF, k);
  }

  lemma AdminNotFound(path: string, verb: string, responses: Fields)
    ensures ToldAgain(Find(responses, "404"), Find(AdminResponses(path, verb, responses), "404"), NeedsNotFound(path, verb),
                      NotFoundDescription(path), NOT_FOUND_ERROR_REF)
  {
    TextsDiffer();
    var text := NotFoundDescription(path);
    var r1 := Put(responses, "422", INVALID_RESPONSE);
    var missing, conflict := Obj([Entry("description", Str(text))]), Obj([Entry("description", Str("Resource conflict"))]);
    var r2 := if NeedsNotFound(path, verb) then SetDefault(r1, "404", missing) else r1;
    var r3 := if Mutates(verb) then SetDefault(r2, "409", conflict) else r2;
    var r4 := Fill(r3, "404", text, NOT_FOUND_ERROR_REF);
    PutFinds(responses, "422", INVALID_RESPONSE, "404");
    DefaultFinds(r2, "409", conflict, "404");
    FillFinds(r3, "404", text, NOT_FOUND_ERROR_REF, "404");
    FillFinds(r2, "404", text, NOT_FOUND_ERROR_REF, "404");
    FillFinds(r4, "409", "Resource conflict", CONFLICT_ERROR_REF, "404");
    DefaultThenFill(r1, AdminResponses(path, verb, responses), "404", NeedsNotFound(path, verb), text, NOT_FOUND_ERROR_REF);
  }

  lemma AdminConflict(path: string, verb: string, responses: Fields)
    ensures ToldAgain(Find(responses, "409"), Find(AdminResponses(path, verb, responses), "409"), Mutates(verb),
                      "Resource conflict", CONFLICT_ERROR_REF)
  {
    TextsDiffer();
    var text := NotFoundDescription(path);
    var r1 := Put(responses, "422", INVALID_RESPONSE);
    var missing, conflict := Obj([Entry("description", Str(text))]), Obj([Entry("description", Str("Resource conflict"))]);
    var r2 := if NeedsNotFound(path, verb) then SetDefault(r1, "404", missing) else r1;
    var r3 := if Mutates(verb) then SetDefault(r2, "409", conflict) else r2;
    var r4 := Fill(r3, "404", text, NOT_FOUND_ERROR_REF);
    PutFinds(responses, "422", INVALID_RESPONSE, "409");
    DefaultFinds(r1, "404", missing, "409");
    FillFinds(r3, "404", text, NOT_FOUND_ERROR_REF, "409");
    FillFinds(r4, "409", "Resource conflict", CONFLICT_ERROR_REF, "409");
    FillFinds(r3, "409", "Resource conflict", CONFLICT_ERROR_REF, "409");
    DefaultThenFill(r2, AdminResponses(path, verb, responses), "409", Mutates(verb), "Resource conflict", CONFLICT_ERROR_REF);
    assert Find(r2, "409") == Find(responses, "409");
  }

  // ----- one operation -----

  lemma PutResponses(op: Fields, responses: Fields, code: string)
    ensures ResponseOf(Put(op, "responses", Obj(responses)), code) == Find(responses, code)
    ensures Responses(Put(op, "responses", Obj(responses))) == responses
  {
    PutFinds(op, "responses", Obj(responses), "responses");
  }

  lemma PutParameters(op: Fields, parameters: Value, code: string)
    ensures ResponseOf(Put(op, "parameters", parameters), code) == ResponseOf(op, code)
  {
    TextsDiffer();
    PutFinds(op, "parameters", parameters, "responses");
  }

  /** The phases after the error responses. */
  function Later(path: string, verb: string, op: Fields): Fields
  {
    StoreCreateParameters(path, verb, IdempotencyHeader(path, verb, AuthResponses(path, op)))
  }

  lemma HardenIsLater(path: string, verb: string, op: Fields)
    ensures HardenOperation(path, verb, op) == Later(path, verb, ErrorResponses(path, verb, op))
  {
  }

  /** The two phases about parameters leave the responses alone. */
  lemma ParameterPhases(path: string, verb: string, op: Fields, code: string)
    ensures ResponseOf(StoreCreateParameters(path, verb, IdempotencyHeader(path, verb, op)), code) == ResponseOf(op, code)
  {
    var headed := IdempotencyHeader(path, verb, op);
    PutParameters(op, Arr(Parameters(op) + [IDEMPOTENCY_KEY_PARAMETER]), code);
    PutParameters(headed, Arr(WithoutTenant(Dedupe(Parameters(headed)))), code);
  }

  /** A reference to a shared response, and the text of one to a schema. */
  function SharedResponse(name: string): Value
  {
    Obj([Entry("$ref", Str("#/components/responses/" + name))])
  }

  function SchemaText(name: string): string
  {
    "#/components/schemas/" + name
  }

  lemma SharedIs(name: string)
    ensures RefNode(RESPONSES + name) == SharedResponse(name)
    ensures SCHEMAS + name == SchemaText(name)
  {
    assert RESPONSES == "#/components/responses/";
    assert SCHEMAS == "#/components/schemas/";
  }

  /** The shared response an auth code refers to. */
  function AuthName(code: string): Option<string>
  {
    if code == "401" then Some("UnauthorizedError") else if code == "403" then Some("ForbiddenError") else None
  }

  lemma AuthPhase(path: string, op: Fields, code: string)
    ensures ResponseOf(AuthResponses(path, op), code)
            == if Secured(op) && !IsPublic(path) && AuthName(code).Some? && ResponseOf(op, code).None?
               then Some(SharedResponse(AuthName(code).value)) else ResponseOf(op, code)
  {
    TextsDiffer();
    SharedIs("UnauthorizedError");
    SharedIs("ForbiddenError");
    var responses := Responses(op);
    var first := SetDefault(responses, "401", RefNode(UNAUTHORIZED_REF));
    DefaultFinds(responses, "401", RefNode(UNAUTHORIZED_REF), code);
    DefaultFinds(first, "403", RefNode(FORBIDDEN_REF), code);
    PutResponses(op, WithAuthErrors(responses), code);
  }

  lemma GuardedIs(path: string, op: Fields)
    ensures Secured(op) && !IsPublic(path) <==> Guarded(path, op)
  {
  }

  /** The auth codes are put where there are none and the operation is guarded; no other response moves. */
  lemma LaterAuth(path: string, verb: string, op: Fields, code: string)
    requires AuthName(code).Some?
    ensures ResponseOf(Later(path, verb, op), code)
            == if Guarded(path, op) && ResponseOf(op, code).None? then Some(SharedResponse(AuthName(code).value)) else ResponseOf(op, code)
  {
    AuthPhase(path, op, code);
    GuardedIs(path, op);
    ParameterPhases(path, verb, AuthResponses(path, op), code);
  }

  lemma LaterOther(path: string, verb: string, op: Fields, code: string)
    requires AuthName(code).None?
    ensures ResponseOf(Later(path, verb, op), code) == ResponseOf(op, code)
  {
    AuthPhase(path, op, code);
    ParameterPhases(path, verb, AuthResponses(path, op), code);
  }

  lemma NoAuthCodes()
    ensures AuthName("404").None? && AuthName("409").None? && AuthName("422").None?
    ensures AuthName("401") == Some("UnauthorizedError") && AuthName("403") == Some("ForbiddenError")
  {
    TextsDiffer();
  }

  /** The error phase touches no response but 422, 404 and 409, and of those 404 and 409 on administrative paths alone. */
  lemma ErrorPhase(path: string, verb: string, op: Fields, code: string)
    ensures code != "422" && code != "404" && code != "409" ==> ResponseOf(ErrorResponses(path, verb, op), code) == ResponseOf(op, code)
    ensures IsAuthForm(path, verb) || IsAdmin(path) ==> ResponseOf(ErrorResponses(path, verb, op), "422") == Some(INVALID_RESPONSE)
    ensures !IsAdmin(path) && code != "422" ==> ResponseOf(ErrorResponses(path, verb, op), code) == ResponseOf(op, code)
    ensures !IsAdmin(path) && !IsAuthForm(path, verb) ==> ErrorResponses(path, verb, op) == op
  {
    TextsDiffer();
    var first := Put(Responses(op), "422", INVALID_RESPONSE);
    PutFinds(Responses(op), "422", INVALID_RESPONSE, code);
    PutFinds(Responses(op), "422", INVALID_RESPONSE, "422");
    PutResponses(op, first, code);
    PutResponses(op, first, "422");
    if IsAdmin(path) {
      var op1 := if IsAuthForm(path, verb) then Put(op, "responses", Obj(first)) else op;
      if code != "404" && code != "409" {
        AdminFind(path, verb, Responses(op1), code);
        PutResponses(op1, AdminResponses(path, verb, Responses(op1)), code);
      }
      AdminFind(path, verb, Responses(op1), "422");
      PutResponses(op1, AdminResponses(path, verb, Responses(op1)), "422");
    }
  }

  lemma AdminPhase(path: string, verb: string, op: Fields)
    requires IsAdmin(path)
    ensures ToldAgain(ResponseOf(op, "404"), ResponseOf(ErrorResponses(path, verb, op), "404"), NeedsNotFound(path, verb),
                      NotFoundDescription(path), NOT_FOUND_ERROR_REF)
    ensures ToldAgain(ResponseOf(op, "409"), ResponseOf(ErrorResponses(path, verb, op), "409"), Mutates(verb),
                      "Resource conflict", CONFLICT_ERROR_REF)
  {
    TextsDiffer();
    var first := Put(Responses(op), "422", INVALID_RESPONSE);
    var op1 := if IsAuthForm(path, verb) then Put(op, "responses", Obj(first)) else op;
    PutResponses(op, first, "404");
    PutResponses(op, first, "409");
    PutFinds(Responses(op), "422", INVALID_RESPONSE, "404");
    PutFinds(Responses(op), "422", INVALID_RESPONSE, "409");
    AdminNotFound(path, verb, Responses(op1));
    AdminConflict(path, verb, Responses(op1));
    PutResponses(op1, AdminResponses(path, verb, Responses(op1)), "404");
    PutResponses(op1, AdminResponses(path, verb, Responses(op1)), "409");
  }

  // ----- the document -----

  lemma HardenedAt(d: Doc, path: string, verb: string)
    requires OperationOf(d.paths, path, verb).Some?
    ensures var op := OperationOf(d.paths, path, verb).value;
            OperationOf(HardenPaths(Inject(d)).paths, path, verb) == Some(if IsVerb(verb) then HardenOperation(path, verb, op) else op)
  {
    MapFinds(d.paths, HardenItem(), path);
    var item := Find(d.paths, path).value.fields;
    MapFinds(item, HardenEntry(path), verb);
  }

  lemma FinishedAt(d: Doc, path: string, verb: string)
    requires OperationOf(d.paths, path, verb).Some?
    ensures OperationOf(Finish(d).paths, path, verb) == Some(Map(OperationOf(d.paths, path, verb).value, SubstituteResponses()))
  {
    MapFinds(d.paths, SubstituteItem(), path);
    var item := Find(d.paths, path).value.fields;
    MapFinds(item, SubstituteOperation(), verb);
  }

  /** The operation of a path and a verb in the hardened document. */
  lemma OperationHardened(d: Doc, path: string, verb: string) returns (done: Fields)
    requires OperationOf(d.paths, path, verb).Some?
    ensures OperationOf(Harden(d).paths, path, verb) == Some(done)
    ensures var op := OperationOf(d.paths, path, verb).value;
            done == Map(if IsVerb(verb) then HardenOperation(path, verb, op) else op, SubstituteResponses())
  {
    HardenedAt(d, path, verb);
    FinishedAt(HardenPaths(Inject(d)), path, verb);
    done := OperationOf(Harden(d).paths, path, verb).value;
  }

  /** The last loop changes no response but the one for 422. */
  lemma SubstitutedResponse(op: Fields, code: string)
    ensures ResponseOf(Map(op, SubstituteResponses()), code)
            == match ResponseOf(op, code) case None => None case Some(v) => Some(SubstituteResponse()(Entry(code, v)))
  {
    MapFinds(op, SubstituteResponses(), "responses");
    var section := Find(op, "responses");
    if section.Some? && section.value.Obj? {
      MapFinds(section.value.fields, SubstituteResponse(), code);
    }
  }

  /** What decides whether an operation is guarded is not touched by the error phase. */
  lemma StillGuarded(path: string, verb: string, op: Fields)
    ensures Guarded(path, ErrorResponses(path, verb, op)) <==> Guarded(path, op)
  {
    SecuredKept(path, verb, op);
    GuardedIs(path, op);
    GuardedIs(path, ErrorResponses(path, verb, op));
  }

  lemma NoInvalid(code: string)
    requires AuthName(code).Some?
    ensures code != "422"
  {
    TextsDiffer();
  }

  lemma AuthUntouched(path: string, verb: string, op: Fields, code: string)
    requires AuthName(code).Some?
    ensures ResponseOf(ErrorResponses(path, verb, op), code) == ResponseOf(op, code)
  {
    TextsDiffer();
    ErrorPhase(path, verb, op, code);
  }

  lemma AuthOfOperation(path: string, verb: string, op: Fields, code: string)
    requires AuthName(code).Some?
    ensures ResponseOf(HardenOperation(path, verb, op), code)
            == if Guarded(path, op) && ResponseOf(op, code).None? then Some(SharedResponse(AuthName(code).value)) else ResponseOf(op, code)
  {
    HardenIsLater(path, verb, op);
    StillGuarded(path, verb, op);
    AuthUntouched(path, verb, op, code);
    LaterAuth(path, verb, ErrorResponses(path, verb, op), code);
  }

  /** The three codes of the error phase reach the hardened operation as that phase left them. */
  lemma ErrorCodeStays(path: string, verb: string, op: Fields, code: string)
    requires AuthName(code).None?
    ensures ResponseOf(HardenOperation(path, verb, op), code) == ResponseOf(ErrorResponses(path, verb, op), code)
  {
    HardenIsLater(path, verb, op);
    LaterOther(path, verb, ErrorResponses(path, verb, op), code);
  }

  lemma NotFoundOfOperation(path: string, verb: string, op: Fields)
    ensures IsAdmin(path) ==>
              ToldAgain(ResponseOf(op, "404"), ResponseOf(HardenOperation(path, verb, op), "404"), NeedsNotFound(path, verb),
                        NotFoundDescription(path), NOT_FOUND_ERROR_REF)
    ensures !IsAdmin(path) ==> ResponseOf(HardenOperation(path, verb, op), "404") == ResponseOf(op, "404")
  {
    NoAuthCodes();
    ErrorCodeStays(path, verb, op, "404");
    if IsAdmin(path) {
      AdminPhase(path, verb, op);
    } else {
      TextsDiffer();
      ErrorPhase(path, verb, op, "404");
    }
  }

  lemma ConflictOfOperation(path: string, verb: string, op: Fields)
    ensures IsAdmin(path) ==>
              ToldAgain(ResponseOf(op, "409"), ResponseOf(HardenOperation(path, verb, op), "409"), Mutates(verb),
                        "Resource conflict", CONFLICT_ERROR_REF)
    ensures !IsAdmin(path) ==> ResponseOf(HardenOperation(path, verb, op), "409") == ResponseOf(op, "409")
  {
    NoAuthCodes();
    ErrorCodeStays(path, verb, op, "409");
    if IsAdmin(path) {
      AdminPhase(path, verb, op);
    } else {
      TextsDiffer();
      ErrorPhase(path, verb, op, "409");
    }
  }

  /** The last loop leaves this response of an operation as hardening left it. */
  lemma DoneResponse(d: Doc, path: string, verb: string, code: string) returns (op: Fields, done: Fields)
    requires OperationOf(d.paths, path, verb).Some?
    ensures OperationOf(d.paths, path, verb) == Some(op) && OperationOf(Harden(d).paths, path, verb) == Some(done)
    ensures code != "422" ==> ResponseOf(done, code) == ResponseOf(if OfFive(verb) then HardenOperation(path, verb, op) else op, code)
  {
    op := OperationOf(d.paths, path, verb).value;
    done := OperationHardened(d, path, verb);
    SubstitutedResponse(if IsVerb(verb) then HardenOperation(path, verb, op) else op, code);
  }

  /** The 401 and 403 of an operation: put, as references to the shared responses, where it is guarded and has none. */
  lemma AuthLaw(d: Doc, path: string, verb: string, code: string) returns (op: Fields, done: Fields)
    requires OperationOf(d.paths, path, verb).Some? && AuthName(code).Some?
    ensures OperationOf(d.paths, path, verb) == Some(op) && OperationOf(Harden(d).paths, path, verb) == Some(done)
    ensures ResponseOf(done, code)
            == if OfFive(verb) && Guarded(path, op) && ResponseOf(op, code).None? then Some(SharedResponse(AuthName(code).value))
               else ResponseOf(op, code)
  {
    op, done := DoneResponse(d, path, verb, code);
    NoInvalid(code);
    AuthOfOperation(path, verb, op, code);
  }

  lemma SecuredKept(path: string, verb: string, op: Fields)
    ensures Secured(ErrorResponses(path, verb, op)) <==> Secured(op)
  {
    assert |"security"| == 8 && |"responses"| == 9;
    var first := Put(Responses(op), "422", INVALID_RESPONSE);
    PutFinds(op, "responses", Obj(first), "security");
    var op1 := if IsAuthForm(path, verb) then Put(op, "responses", Obj(first)) else op;
    PutFinds(op1, "responses", Obj(AdminResponses(path, verb, Responses(op1))), "security");
  }

  /** The 404 of an administrative operation: there already or wanted, it tells of what is missing in the one way. */
  lemma NotFoundLaw(d: Doc, path: string, verb: string) returns (op: Fields, done: Fields, text: string)
    requires OperationOf(d.paths, path, verb).Some? && OfFive(verb)
    ensures OperationOf(d.paths, path, verb) == Some(op) && OperationOf(Harden(d).paths, path, verb) == Some(done)
    ensures SaysMissing(path, text)
    ensures Administrative(path) ==>
              ToldAgain(ResponseOf(op, "404"), ResponseOf(done, "404"), MayMiss(path, verb), text, SchemaText("NotFoundErrorResponse"))
    ensures !Administrative(path) ==> ResponseOf(done, "404") == ResponseOf(op, "404")
  {
    op, done := DoneResponse(d, path, verb, "404");
    text := NotFoundDescription(path);
    TextsDiffer();
    DescriptionSays(path);
    MayMissIs(path, verb);
    SharedIs("NotFoundErrorResponse");
    NotFoundOfOperation(path, verb, op);
  }

  /** The 409 of an administrative operation likewise tells of a conflict. */
  lemma ConflictLaw(d: Doc, path: string, verb: string) returns (op: Fields, done: Fields)
    requires OperationOf(d.paths, path, verb).Some? && OfFive(verb)
    ensures OperationOf(d.paths, path, verb) == Some(op) && OperationOf(Harden(d).paths, path, verb) == Some(done)
    ensures Administrative(path) ==>
              ToldAgain(ResponseOf(op, "409"), ResponseOf(done, "409"), Writes(verb), "Resource conflict", SchemaText("ConflictErrorResponse"))
    ensures !Administrative(path) ==> ResponseOf(done, "409") == ResponseOf(op, "409")
  {
    op, done := DoneResponse(d, path, verb, "409");
    TextsDiffer();
    SharedIs("ConflictErrorResponse");
    ConflictOfOperation(path, verb, op);
  }

  /** Every other response stays as it was. */
  lemma OtherResponsesLaw(d: Doc, path: string, verb: string, code: string) returns (op: Fields, done: Fields)
    requires OperationOf(d.paths, path, verb).Some? && code !in ["401", "403", "404", "409", "422"]
    ensures OperationOf(d.paths, path, verb) == Some(op) && OperationOf(Harden(d).paths, path, verb) == Some(done)
    ensures ResponseOf(done, code) == ResponseOf(op, code)
  {
    op, done := DoneResponse(d, path, verb, code);
    assert code != "401" && code != "403" && code != "404" && code != "409" && code != "422";
    ErrorCodeStays(path, verb, op, code);
    ErrorPhase(path, verb, op, code);
  }

  // ----- 422 -----

  /** One reference is replaced by another in the JSON schema of a 422 response. */
  lemma SubstitutedPoints(response: Value, ref: string)
    requires PointsTo(response, ref)
    ensures PointsTo(SubstituteResponse()(Entry("422", response)), if ref == HTTP_VALIDATION_REF then VALIDATION_ERROR_REF else ref)
  {
    MapFinds(response.fields, SubstituteContent(), "content");
    var content := Get(response, "content").value;
    MapFinds(content.fields, SubstituteMedia(), "application/json");
    var media := Get(content, "application/json").value;
    MapFinds(media.fields, SubstituteSchema(), "schema");
    ContentPoints(VALIDATION_ERROR_REF, []);
  }

  lemma SubstitutedDescription(response: Value)
    ensures Get(SubstituteResponse()(Entry("422", response)), "description") == Get(response, "description")
  {
    TextsDiffer();
    if response.Obj? {
      MapFinds(response.fields, SubstituteContent(), "description");
    }
  }

  lemma InvalidOfOperation(path: string, verb: string, op: Fields)
    ensures IsAuthForm(path, verb) || IsAdmin(path) ==> ResponseOf(HardenOperation(path, verb, op), "422") == Some(INVALID_RESPONSE)
    ensures !IsAuthForm(path, verb) && !IsAdmin(path) ==> ResponseOf(HardenOperation(path, verb, op), "422") == ResponseOf(op, "422")
  {
    NoAuthCodes();
    ErrorCodeStays(path, verb, op, "422");
    ErrorPhase(path, verb, op, "422");
  }

  lemma InvalidTells()
    ensures Tells(Some(SubstituteResponse()(Entry("422", INVALID_RESPONSE))), "Validation error", VALIDATION_ERROR_REF)
  {
    ResponseTells("Validation error", VALIDATION_ERROR_REF);
    SubstitutedPoints(INVALID_RESPONSE, VALIDATION_ERROR_REF);
    SubstitutedDescription(INVALID_RESPONSE);
  }

  /**
    The 422 of an operation: set for credentials and administration; elsewhere it stays, and an
    HTTPValidationError it points to has become a ValidationErrorResponse.
   */
  lemma InvalidLaw(d: Doc, path: string, verb: string, ref: string) returns (op: Fields, done: Fields)
    requires OperationOf(d.paths, path, verb).Some?
    ensures OperationOf(d.paths, path, verb) == Some(op) && OperationOf(Harden(d).paths, path, verb) == Some(done)
    ensures OfFive(verb) && (TakesCredentials(path, verb) || Administrative(path)) ==>
              Tells(ResponseOf(done, "422"), "Validation error", SchemaText("ValidationErrorResponse"))
    ensures !(OfFive(verb) && (TakesCredentials(path, verb) || Administrative(path))) ==>
              && (ResponseOf(op, "422").None? <==> ResponseOf(done, "422").None?)
              && (ResponseOf(op, "422").Some? && PointsTo(ResponseOf(op, "422").value, ref) ==>
                    PointsTo(ResponseOf(done, "422").value,
                             if ref == SchemaText("HTTPValidationError") then SchemaText("ValidationErrorResponse") else ref))
  {
    op := OperationOf(d.paths, path, verb).value;
    done := OperationHardened(d, path, verb);
    SubstitutedResponse(if IsVerb(verb) then HardenOperation(path, verb, op) else op, "422");
    InvalidOfOperation(path, verb, op);
    InvalidTells();
    SharedIs("ValidationErrorResponse");
    SharedIs("HTTPValidationError");
    if ResponseOf(op, "422").Some? && PointsTo(ResponseOf(op, "422").value, ref) {
      SubstitutedPoints(ResponseOf(op, "422").value, ref);
    }
  }

  // ----- parameters -----

  /** The entry of an operation under a key other than responses is the same after the last loop. */
  lemma SubstitutedEntry(op: Fields, key: string)
    requires key != "responses"
    ensures Find(Map(op, SubstituteResponses()), key) == Find(op, key)
  {
    MapFinds(op, SubstituteResponses(), key);
  }

  lemma ErrorsKeep(path: string, verb: string, op: Fields, key: string)
    requires key != "responses"
    ensures Find(ErrorResponses(path, verb, op), key) == Find(op, key)
  {
    var first := Put(Responses(op), "422", INVALID_RESPONSE);
    var op1 := if IsAuthForm(path, verb) then Put(op, "responses", Obj(first)) else op;
    PutFinds(op, "responses", Obj(first), key);
    PutFinds(op1, "responses", Obj(AdminResponses(path, verb, Responses(op1))), key);
  }

  lemma AuthKeeps(path: string, op: Fields, key: string)
    requires key != "responses"
    ensures Find(AuthResponses(path, op), key) == Find(op, key)
  {
    PutFinds(op, "responses", Obj(WithAuthErrors(Responses(op))), key);
  }

  lemma ParametersKeep(path: string, verb: string, op: Fields, key: string)
    requires key != "parameters"
    ensures Find(StoreCreateParameters(path, verb, IdempotencyHeader(path, verb, op)), key) == Find(op, key)
  {
    var headed := IdempotencyHeader(path, verb, op);
    PutFinds(op, "parameters", Arr(Parameters(op) + [IDEMPOTENCY_KEY_PARAMETER]), key);
    PutFinds(headed, "parameters", Arr(WithoutTenant(Dedupe(Parameters(headed)))), key);
  }

  /** Hardening and the last loop change an operation under responses and parameters alone. */
  lemma OtherKeysLaw(d: Doc, path: string, verb: string, key: string) returns (op: Fields, done: Fields)
    requires OperationOf(d.paths, path, verb).Some? && key != "responses" && key != "parameters"
    ensures OperationOf(d.paths, path, verb) == Some(op) && OperationOf(Harden(d).paths, path, verb) == Some(done)
    ensures Find(done, key) == Find(op, key)
  {
    op := OperationOf(d.paths, path, verb).value;
    done := OperationHardened(d, path, verb);
    SubstitutedEntry(if IsVerb(verb) then HardenOperation(path, verb, op) else op, key);
    HardenIsLater(path, verb, op);
    ErrorsKeep(path, verb, op, key);
    AuthKeeps(path, ErrorResponses(path, verb, op), key);
    ParametersKeep(path, verb, AuthResponses(path, ErrorResponses(path, verb, op)), key);
  }

  predicate IsNamed(p: Value, place: string, name: string)
  {
    Get(p, "in") == Some(Str(place)) && Get(p, "name") == Some(Str(name))
  }

  predicate HasKeyHeader(parameters: seq<Value>)
  {
    exists p :: p in parameters && IsNamed(p, "header", "Idempotency-Key")
  }

  /** A required text header of that name. */
  predicate IsKeyHeader(p: Value)
  {
    IsNamed(p, "header", "Idempotency-Key") && Get(p, "required") == Some(Bool(true))
    && Get(p, "schema") == Some(Obj([Entry("type", Str("string"))]))
  }

  lemma HeaderIs()
    ensures IsKeyHeader(IDEMPOTENCY_KEY_PARAMETER)
  {
    FindSecond("name", Str("Idempotency-Key"), "in", Str("header"));
  }

  /** The parameters with the header an administrative write must accept. */
  ghost predicate WithHeader(path: string, verb: string, before: seq<Value>, after: seq<Value>)
  {
    if "/aris3/admin/" <= path && Writes(verb) && !HasKeyHeader(before)
    then exists p :: IsKeyHeader(p) && after == before + [p]
    else after == before
  }

  lemma NeedsKeyIs(path: string, verb: string, parameters: seq<Value>)
    ensures NeedsIdempotencyKey(path, verb, parameters) <==> "/aris3/admin/" <= path && Writes(verb) && !HasKeyHeader(parameters)
  {
    assert HasKeyHeader(parameters) <==> exists p :: p in parameters && IsParameter(p, "header", "Idempotency-Key");
  }

  lemma HeaderPhase(path: string, verb: string, op: Fields)
    ensures WithHeader(path, verb, Parameters(op), Parameters(IdempotencyHeader(path, verb, op)))
  {
    HeaderIs();
    NeedsKeyIs(path, verb, Parameters(op));
    PutFinds(op, "parameters", Arr(Parameters(op) + [IDEMPOTENCY_KEY_PARAMETER]), "parameters");
  }

  /** The text under a key, empty if there is none. */
  function TextUnder(p: Value, key: string): string
  {
    var found := Get(p, key);
    if found.Some? && found.value.Str? then found.value.s else ""
  }

  /** Two parameters have one identity when they agree in both texts. */
  lemma IdentityIs(p: Value, q: Value)
    ensures ParameterKey(p) == ParameterKey(q) <==> TextUnder(p, "in") == TextUnder(q, "in") && TextUnder(p, "name") == TextUnder(q, "name")
  {
  }

  /** The parameters that are no tenant_id of the query, in order. */
  lemma {:induction false} WithoutTenantParts(a: seq<Value>, b: seq<Value>)
    ensures WithoutTenant(a + b) == WithoutTenant(a) + WithoutTenant(b)
  {
    if b == [] {
      assert a + b == a;
    } else {
      WithoutTenantParts(a, b[..|b| - 1]);
      assert (a + b)[..|a + b| - 1] == a + b[..|b| - 1];
    }
  }

  lemma WithoutTenantOne(p: Value)
    ensures WithoutTenant([p]) == if IsNamed(p, "query", "tenant_id") then [] else [p]
  {
    assert [p][..0] == [];
  }

  lemma {:induction false} WithoutTenantMembers(parameters: seq<Value>, p: Value)
    ensures p in WithoutTenant(parameters) <==> p in parameters && !IsNamed(p, "query", "tenant_id")
  {
    if parameters != [] {
      var n := |parameters| - 1;
      WithoutTenantMembers(parameters[..n], p);
      assert parameters == parameters[..n] + [parameters[n]];
    }
  }

  lemma ParametersOfOperation(path: string, verb: string, op: Fields) returns (headed: seq<Value>)
    ensures WithHeader(path, verb, Parameters(op), headed)
    ensures Parameters(HardenOperation(path, verb, op)) == if IsStoreCreate(path, verb) then WithoutTenant(Dedupe(headed)) else headed
  {
    TextsDiffer();
    var e := ErrorResponses(path, verb, op);
    var authed := AuthResponses(path, e);
    var h := IdempotencyHeader(path, verb, authed);
    ErrorsKeep(path, verb, op, "parameters");
    AuthKeeps(path, e, "parameters");
    HeaderPhase(path, verb, authed);
    headed := Parameters(h);
    PutFinds(h, "parameters", Arr(WithoutTenant(Dedupe(headed))), "parameters");
    HardenIsLater(path, verb, op);
  }

  /**
    The parameters of a hardened operation: the header added where it must be, and for the creation
    of a store only the first of each identity and no tenant_id of the query.
   */
  lemma ParametersLaw(d: Doc, path: string, verb: string) returns (op: Fields, done: Fields, headed: seq<Value>, at: seq<nat>)
    requires OperationOf(d.paths, path, verb).Some? && OfFive(verb)
    ensures OperationOf(d.paths, path, verb) == Some(op) && OperationOf(Harden(d).paths, path, verb) == Some(done)
    ensures WithHeader(path, verb, Parameters(op), headed) && AreFirsts(headed, Dedupe(headed), at)
    ensures if path == "/aris3/admin/stores" && verb == "post"
            then forall p :: p in Parameters(done) <==> p in Dedupe(headed) && !IsNamed(p, "query", "tenant_id")
            else Parameters(done) == headed
  {
    op := OperationOf(d.paths, path, verb).value;
    done := OperationHardened(d, path, verb);
    headed := ParametersOfOperation(path, verb, op);
    at := DedupeKeepsFirsts(headed);
    TextsDiffer();
    SubstitutedEntry(HardenOperation(path, verb, op), "parameters");
    forall p ensures p in WithoutTenant(Dedupe(headed)) <==> p in Dedupe(headed) && !IsNamed(p, "query", "tenant_id") {
      WithoutTenantMembers(Dedupe(headed), p);
    }
  }

  // ----- components -----

  predicate DistinctKeys(fields: Fields)
  {
    forall i, j :: 0 <= i < j < |fields| ==> fields[i].key != fields[j].key
  }

  lemma {:induction false} PutAllFinds(fields: Fields, entries: Fields, i: nat)
    requires DistinctKeys(entries) && i < |entries|
    ensures Find(PutAll(fields, entries), entries[i].key) == Some(entries[i].value)
  {
    var n := |entries| - 1;
    PutFinds(PutAll(fields, entries[..n]), entries[n].key, entries[n].value, entries[i].key);
    if i < n {
      PutAllFinds(fields, entries[..n], i);
    }
  }

  lemma {:induction false} PutAllKeeps(fields: Fields, entries: Fields, key: string)
    requires forall i :: 0 <= i < |entries| ==> entries[i].key != key
    ensures Find(PutAll(fields, entries), key) == Find(fields, key)
  {
    if entries != [] {
      var n := |entries| - 1;
      PutAllKeeps(fields, entries[..n], key);
      PutFinds(PutAll(fields, entries[..n]), entries[n].key, entries[n].value, key);
    }
  }

  const SCHEMA_NAMES := ["ApiError", "ErrorResponse", "NotFoundError", "ConflictError", "ValidationError", "NotFoundErrorResponse",
                         "ConflictErrorResponse", "BusinessErrorResponse", "ValidationErrorResponse"]

  const RESPONSE_NAMES := ["UnauthorizedError", "ForbiddenError", "UnauthorizedError401", "ForbiddenError403"]

  lemma SchemaNamesDiffer()
    ensures forall i, j :: 0 <= i < j < |SCHEMA_NAMES| ==> SCHEMA_NAMES[i] != SCHEMA_NAMES[j]
  {
    var lengths := [8, 13, 13, 13, 15, 21, 21, 21, 23];
    var firsts := ['A', 'E', 'N', 'C', 'V', 'N', 'C', 'B', 'V'];
    assert forall i :: 0 <= i < 9 ==> |SCHEMA_NAMES[i]| == lengths[i] && SCHEMA_NAMES[i][0] == firsts[i];
    assert forall i, j :: 0 <= i < j < 9 ==> lengths[i] != lengths[j] || firsts[i] != firsts[j];
  }

  lemma ResponseNamesDiffer()
    ensures forall i, j :: 0 <= i < j < |RESPONSE_NAMES| ==> RESPONSE_NAMES[i] != RESPONSE_NAMES[j]
  {
    assert |RESPONSE_NAMES[0]| == 17 && |RESPONSE_NAMES[1]| == 14 && |RESPONSE_NAMES[2]| == 20 && |RESPONSE_NAMES[3]| == 17;
    assert RESPONSE_NAMES[0][0] == 'U' && RESPONSE_NAMES[3][0] == 'F';
  }

  lemma NamesAre()
    ensures |ERROR_SCHEMAS| == |SCHEMA_NAMES| && forall i :: 0 <= i < |SCHEMA_NAMES| ==> ERROR_SCHEMAS[i].key == SCHEMA_NAMES[i]
    ensures |ERROR_RESPONSES| == |RESPONSE_NAMES| && forall i :: 0 <= i < |RESPONSE_NAMES| ==> ERROR_RESPONSES[i].key == RESPONSE_NAMES[i]
  {
  }

  lemma SchemaAt(d: Doc, i: nat)
    requires i < |SCHEMA_NAMES|
    ensures i < |ERROR_SCHEMAS| && Find(Harden(d).schemas, SCHEMA_NAMES[i]) == Some(ERROR_SCHEMAS[i].value)
  {
    NamesAre();
    SchemaNamesDiffer();
    InjectedKeys();
    PutAllFinds(d.schemas, ERROR_SCHEMAS, i);
    DropFinds(PutAll(d.schemas, ERROR_SCHEMAS), HTTP_VALIDATION_ERROR, SCHEMA_NAMES[i]);
  }

  lemma ResponseAt(d: Doc, i: nat)
    requires i < |RESPONSE_NAMES|
    ensures i < |ERROR_RESPONSES| && Find(Harden(d).responses, RESPONSE_NAMES[i]) == Some(ERROR_RESPONSES[i].value)
  {
    NamesAre();
    ResponseNamesDiffer();
    PutAllFinds(d.responses, ERROR_RESPONSES, i);
  }

  predicate SchemaIs(d: Doc, name: string, ref: string)
  {
    Find(d.schemas, name) == Some(Obj([Entry("$ref", Str(ref))]))
  }

  lemma SchemaRefers(d: Doc, i: nat, name: string, target: string)
    requires i < |ERROR_SCHEMAS| && ERROR_SCHEMAS[i] == Entry(name, RefNode(SCHEMAS + target))
    ensures SchemaIs(Harden(d), name, SchemaText(target))
  {
    NamesAre();
    SchemaAt(d, i);
    SharedIs(target);
  }

  lemma SecondSchema()
    ensures |ERROR_SCHEMAS| == 9 && ERROR_SCHEMAS[1] == Entry("ErrorResponse", RefNode(SCHEMAS + "ApiError"))
  {
  }

  lemma ErrorResponseRefers(d: Doc)
    ensures SchemaIs(Harden(d), "ErrorResponse", SchemaText("ApiError"))
  {
    SecondSchema();
    SchemaRefers(d, 1, "ErrorResponse", "ApiError");
  }

  lemma BusinessErrorRefers(d: Doc)
    ensures SchemaIs(Harden(d), "BusinessErrorResponse", SchemaText("ConflictErrorResponse"))
  {
    SchemaRefers(d, 7, "BusinessErrorResponse", "ConflictErrorResponse");
  }

  lemma ValidationErrorRefers(d: Doc)
    ensures SchemaIs(Harden(d), "ValidationErrorResponse", SchemaText("ValidationError"))
  {
    SchemaRefers(d, 8, "ValidationErrorResponse", "ValidationError");
  }

  /** The error schemas that are references, whatever stood under their names. */
  lemma SchemasLaw(d: Doc)
    ensures SchemaIs(Harden(d), "ErrorResponse", SchemaText("ApiError"))
    ensures SchemaIs(Harden(d), "BusinessErrorResponse", SchemaText("ConflictErrorResponse"))
    ensures SchemaIs(Harden(d), "ValidationErrorResponse", SchemaText("ValidationError"))
  {
    ErrorResponseRefers(d);
    BusinessErrorRefers(d);
    ValidationErrorRefers(d);
  }

  /** The generated validation schema is gone from every hardened document. */
  lemma ValidationSchemaGone(d: Doc)
    ensures Find(Harden(d).schemas, "HTTPValidationError") == None
  {
    DropFinds(PutAll(d.schemas, ERROR_SCHEMAS), HTTP_VALIDATION_ERROR, "HTTPValidationError");
  }

  /** The shared responses for 401 and 403, and their two aliases. */
  lemma ResponsesLaw(d: Doc)
    ensures Tells(Find(Harden(d).responses, "UnauthorizedError"), "Unauthorized", SchemaText("ApiError"))
    ensures Tells(Find(Harden(d).responses, "ForbiddenError"), "Forbidden", SchemaText("ApiError"))
    ensures Find(Harden(d).responses, "UnauthorizedError401") == Some(SharedResponse("UnauthorizedError"))
    ensures Find(Harden(d).responses, "ForbiddenError403") == Some(SharedResponse("ForbiddenError"))
  {
    ResponseAt(d, 0);
    ResponseAt(d, 1);
    ResponseAt(d, 2);
    ResponseAt(d, 3);
    SharedIs("ApiError");
    SharedIs("UnauthorizedError");
    SharedIs("ForbiddenError");
    ResponseTells("Unauthorized", SCHEMAS + "ApiError");
    ResponseTells("Forbidden", SCHEMAS + "ApiError");
  }

  /** Every other component, and every other section, stays as it was. */
  lemma OtherComponentsLaw(d: Doc, name: string)
    ensures name !in SCHEMA_NAMES && name != "HTTPValidationError" ==> Find(Harden(d).schemas, name) == Find(d.schemas, name)
    ensures name !in RESPONSE_NAMES ==> Find(Harden(d).responses, name) == Find(d.responses, name)
    ensures Harden(d).components == d.components && Harden(d).rest == d.rest
  {
    NamesAre();
    if name !in SCHEMA_NAMES && name != "HTTPValidationError" {
      PutAllKeeps(d.schemas, ERROR_SCHEMAS, name);
      DropFinds(PutAll(d.schemas, ERROR_SCHEMAS), HTTP_VALIDATION_ERROR, name);
    }
    if name !in RESPONSE_NAMES {
      PutAllKeeps(d.responses, ERROR_RESPONSES, name);
    }
  }
}
