/**
  The phases of `harden_openapi_schema` that add, move or remove references: error components,
  error and auth responses, parameters, and the final replacement of HTTPValidationError.
 */
module OpenApi {
  import opened Common
  import opened Json

  /** A document, with the sections the phases touch taken apart. */
  datatype Doc = Doc(paths: Fields, schemas: Fields, responses: Fields, components: Fields, rest: Fields)

  function Components(d: Doc): Value
  {
    Obj([Entry("schemas", Obj(d.schemas)), Entry("responses", Obj(d.responses))] + d.components)
  }

  function ToJson(d: Doc): Value
  {
    Obj([Entry("paths", Obj(d.paths)), Entry("components", Components(d))] + d.rest)
  }

  // ----- names -----

  const SCHEMAS := "#/" + "components" + "/" + "schemas" + "/"
  const RESPONSES := "#/" + "components" + "/" + "responses" + "/"
  const HTTP_VALIDATION_ERROR := "HTTPValidationError"
  const HTTP_VALIDATION_REF := SCHEMAS + HTTP_VALIDATION_ERROR
  const VALIDATION_ERROR_REF := SCHEMAS + "ValidationErrorResponse"
  const NOT_FOUND_ERROR_REF := SCHEMAS + "NotFoundErrorResponse"
  const CONFLICT_ERROR_REF := SCHEMAS + "ConflictErrorResponse"
  const UNAUTHORIZED_REF := RESPONSES + "UnauthorizedError"
  const FORBIDDEN_REF := RESPONSES + "ForbiddenError"

  function RefNode(ref: string): Value
  {
    Obj([Entry(REF, Str(ref))])
  }

  /** A response with a JSON schema. */
  function JsonResponse(description: string, ref: string): Value
  {
    Obj([Entry("description", Str(description)), Entry("content", JsonContent(ref, []))])
  }

  function JsonContent(ref: string, example: Fields): Value
  {
    Obj([Entry("application/json",
               Obj([Entry("schema", RefNode(ref))] + if example == [] then [] else [Entry("example", Obj(example))]))])
  }

  /** Names and references of ERROR_RESPONSE_SCHEMAS; the schemas without references are cut to their type. */
  const OBJECT_SCHEMA := Obj([Entry("type", Str("object"))])
  const ERROR_SCHEMAS: Fields := [
    Entry("ApiError", OBJECT_SCHEMA),
    Entry("ErrorResponse", RefNode(SCHEMAS + "ApiError")),
    Entry("NotFoundError", OBJECT_SCHEMA),
    Entry("ConflictError", OBJECT_SCHEMA),
    Entry("ValidationError", OBJECT_SCHEMA),
    Entry("NotFoundErrorResponse", OBJECT_SCHEMA),
    Entry("ConflictErrorResponse", OBJECT_SCHEMA),
    Entry("BusinessErrorResponse", RefNode(CONFLICT_ERROR_REF)),
    Entry("ValidationErrorResponse", RefNode(SCHEMAS + "ValidationError"))]

  const ERROR_RESPONSES: Fields := [
    Entry("UnauthorizedError", JsonResponse("Unauthorized", SCHEMAS + "ApiError")),
    Entry("ForbiddenError", JsonResponse("Forbidden", SCHEMAS + "ApiError")),
    Entry("UnauthorizedError401", RefNode(UNAUTHORIZED_REF)),
    Entry("ForbiddenError403", RefNode(FORBIDDEN_REF))]

  /** Every reference the phases can introduce. */
  const ERROR_REFS: set<string> := { VALIDATION_ERROR_REF, NOT_FOUND_ERROR_REF, CONFLICT_ERROR_REF }
  const AUTH_REFS: set<string> := { UNAUTHORIZED_REF, FORBIDDEN_REF }
  const COMPONENT_REFS: set<string> := {
    SCHEMAS + "ApiError", SCHEMAS + "ValidationError", CONFLICT_ERROR_REF, UNAUTHORIZED_REF, FORBIDDEN_REF }
  const INJECTED: set<string> := ERROR_REFS + AUTH_REFS + COMPONENT_REFS

  // ----- dictionary loops -----

  function PutAll(fields: Fields, entries: Fields): Fields
  {
    if entries == [] then fields
    else Put(PutAll(fields, entries[..|entries| - 1]), entries[|entries| - 1].key, entries[|entries| - 1].value)
  }

  /** Every value replaced by a function of its entry, keys and order kept. */
  function Map(fields: Fields, f: Entry -> Value): (r: Fields)
    ensures |r| == |fields|
  {
    if fields == [] then [] else [Entry(fields[0].key, f(fields[0]))] + Map(fields[1..], f)
  }

  function SetDefault(fields: Fields, key: string, value: Value): Fields
  {
    if Find(fields, key).Some? then fields else Put(fields, key, value)
  }

  // ----- one operation -----

  predicate Mutates(verb: string)
  {
    verb == "post" || verb == "put" || verb == "patch" || verb == "delete"
  }

  predicate Contains(text: string, part: string)
  {
    part <= text || (text != "" && Contains(text[1..], part))
  }

  predicate Identified(path: string)
  {
    Contains(path, "{tenant_id}") || Contains(path, "{store_id}") || Contains(path, "{user_id}")
  }

  predicate NeedsNotFound(path: string, verb: string)
  {
    ((verb == "get" || verb == "put" || verb == "patch" || verb == "delete") && Identified(path))
    || ((path == "/aris3/admin/users" || path == "/aris3/admin/stores") && verb == "post")
  }

  function NotFoundDescription(path: string): string
  {
    if Contains(path, "{store_id}") then "Store not found"
    else if Contains(path, "{user_id}") then "User not found"
    else if Contains(path, "{tenant_id}") then "Tenant not found"
    else "Resource not found"
  }

  /** `responses[code]["description"] = ...; responses[code]["content"] = ...`, if the code is there. */
  function Fill(responses: Fields, code: string, description: string, ref: string): Fields
  {
    match Find(responses, code)
    case Some(Obj(fields)) =>
      Put(responses, code, Obj(Put(Put(fields, "description", Str(description)), "content",
                                   JsonContent(ref, [Entry("message", Str(description))]))))
    case _ => responses
  }

  function AdminResponses(path: string, verb: string, responses: Fields): Fields
  {
    var r1 := Put(responses, "422", INVALID_RESPONSE);
    var r2 := if NeedsNotFound(path, verb)
              then SetDefault(r1, "404", Obj([Entry("description", Str(NotFoundDescription(path)))])) else r1;
    var r3 := if Mutates(verb) then SetDefault(r2, "409", Obj([Entry("description", Str("Resource conflict"))])) else r2;
    Fill(Fill(r3, "404", NotFoundDescription(path), NOT_FOUND_ERROR_REF), "409", "Resource conflict", CONFLICT_ERROR_REF)
  }

  /** `operation.setdefault("responses", {})`, changed and stored. */
  function Responses(op: Fields): Fields
  {
    Sub(Obj(op), "responses")
  }

  /** AUTH_ENDPOINTS_WITH_VALIDATION, for the verbs that send a body. */
  predicate IsAuthForm(path: string, verb: string)
  {
    (path == "/aris3/auth/login" || path == "/aris3/auth/change-password" || path == "/aris3/auth/token")
    && (verb == "post" || verb == "patch")
  }

  predicate IsAdmin(path: string)
  {
    "/aris3/admin" <= path || "/aris3/access-control" <= path
  }

  /** PUBLIC_ENDPOINTS_WITHOUT_AUTH_ERRORS. */
  predicate IsPublic(path: string)
  {
    path == "/health" || path == "/ready" || path == "/aris3/auth/login" || path == "/aris3/auth/token"
  }

  const INVALID_RESPONSE := JsonResponse("Validation error", VALIDATION_ERROR_REF)

  function ErrorResponses(path: string, verb: string, op: Fields): Fields
  {
    var op1 := if IsAuthForm(path, verb)
               then Put(op, "responses", Obj(Put(Responses(op), "422", INVALID_RESPONSE))) else op;
    if IsAdmin(path) then Put(op1, "responses", Obj(AdminResponses(path, verb, Responses(op1)))) else op1
  }

  predicate Secured(op: Fields)
  {
    match Find(op, "security") case Some(Arr(items)) => items != [] case Some(Obj(fields)) => fields != [] case _ => false
  }

  /** The 401 and 403 references, where there are no such responses yet. */
  function WithAuthErrors(responses: Fields): Fields
  {
    SetDefault(SetDefault(responses, "401", RefNode(UNAUTHORIZED_REF)), "403", RefNode(FORBIDDEN_REF))
  }

  function AuthResponses(path: string, op: Fields): Fields
  {
    if IsPublic(path) || !Secured(op) then op else Put(op, "responses", Obj(WithAuthErrors(Responses(op))))
  }

  function Parameters(op: Fields): seq<Value>
  {
    match Find(op, "parameters") case Some(Arr(items)) => items case _ => []
  }

  predicate IsParameter(p: Value, place: string, name: string)
  {
    Get(p, "in") == Some(Str(place)) && Get(p, "name") == Some(Str(name))
  }

  const IDEMPOTENCY_KEY_PARAMETER := Obj([
    Entry("name", Str("Idempotency-Key")), Entry("in", Str("header")), Entry("required", Bool(true)),
    Entry("schema", Obj([Entry("type", Str("string"))]))])

  predicate NeedsIdempotencyKey(path: string, verb: string, parameters: seq<Value>)
  {
    "/aris3/admin/" <= path && Mutates(verb)
    && !exists p :: p in parameters && IsParameter(p, "header", "Idempotency-Key")
  }

  function IdempotencyHeader(path: string, verb: string, op: Fields): Fields
  {
    if NeedsIdempotencyKey(path, verb, Parameters(op))
    then Put(op, "parameters", Arr(Parameters(op) + [IDEMPOTENCY_KEY_PARAMETER])) else op
  }

  /** Identity of a parameter: its `in` and its `name`, missing ones read as empty. */
  function ParameterKey(p: Value): (string, string)
  {
    (TextOf(p, "in"), TextOf(p, "name"))
  }

  function TextOf(p: Value, key: string): string
  {
    match Get(p, key) case Some(Str(s)) => s case _ => ""
  }

  /** The first parameter of every identity, in order. */
  function Dedupe(parameters: seq<Value>): seq<Value>
  {
    if parameters == [] then [] else
    var rest := Dedupe(parameters[..|parameters| - 1]);
    var p := parameters[|parameters| - 1];
    if exists q :: q in rest && ParameterKey(q) == ParameterKey(p) then rest else rest + [p]
  }

  function WithoutTenant(parameters: seq<Value>): seq<Value>
  {
    if parameters == [] then [] else
    var rest := WithoutTenant(parameters[..|parameters| - 1]);
    var p := parameters[|parameters| - 1];
    if IsParameter(p, "query", "tenant_id") then rest else rest + [p]
  }

  predicate IsStoreCreate(path: string, verb: string)
  {
    path == "/aris3/admin/stores" && verb == "post"
  }

  function StoreCreateParameters(path: string, verb: string, op: Fields): Fields
  {
    if IsStoreCreate(path, verb) then Put(op, "parameters", Arr(WithoutTenant(Dedupe(Parameters(op))))) else op
  }

  /** The reference-touching phases of one operation, in the order they are applied. */
  function HardenOperation(path: string, verb: string, op: Fields): Fields
  {
    StoreCreateParameters(path, verb,
      IdempotencyHeader(path, verb,
        AuthResponses(path,
          ErrorResponses(path, verb, op))))
  }

  predicate IsVerb(key: string)
  {
    key == "get" || Mutates(key)
  }

  function HardenEntry(path: string): Entry -> Value
  {
    (e: Entry) => if IsVerb(e.key) && e.value.Obj? then Obj(HardenOperation(path, e.key, e.value.fields)) else e.value
  }

  function HardenItem(): Entry -> Value
  {
    (e: Entry) => if e.value.Obj? then Obj(Map(e.value.fields, HardenEntry(e.key))) else e.value
  }

  // ----- the last loop -----

  /** `content["schema"] = {"$ref": VALIDATION_ERROR_REF}` where it referred to HTTPValidationError. */
  function SubstituteSchema(): Entry -> Value
  {
    (e: Entry) => if e.key == "schema" && RefOf(e.value) == Some(HTTP_VALIDATION_REF) then RefNode(VALIDATION_ERROR_REF) else e.value
  }

  function SubstituteMedia(): Entry -> Value
  {
    (e: Entry) => if e.key == "application/json" && e.value.Obj? then Obj(Map(e.value.fields, SubstituteSchema())) else e.value
  }

  function SubstituteContent(): Entry -> Value
  {
    (e: Entry) => if e.key == "content" && e.value.Obj? then Obj(Map(e.value.fields, SubstituteMedia())) else e.value
  }

  function SubstituteResponse(): Entry -> Value
  {
    (e: Entry) => if e.key == "422" && e.value.Obj? then Obj(Map(e.value.fields, SubstituteContent())) else e.value
  }

  function SubstituteResponses(): Entry -> Value
  {
    (e: Entry) => if e.key == "responses" && e.value.Obj? then Obj(Map(e.value.fields, SubstituteResponse())) else e.value
  }

  function SubstituteOperation(): Entry -> Value
  {
    (e: Entry) => if e.value.Obj? then Obj(Map(e.value.fields, SubstituteResponses())) else e.value
  }

  function SubstituteItem(): Entry -> Value
  {
    (e: Entry) => if e.value.Obj? then Obj(Map(e.value.fields, SubstituteOperation())) else e.value
  }

  /** The key of each step from a media-type schema (0) up to a path (6); paths and verbs may be any. */
  function Place(k: nat): Option<string>
  {
    match k
    case 0 => Some("schema")
    case 1 => Some("application/json")
    case 2 => Some("content")
    case 3 => Some("422")
    case 4 => Some("responses")
    case _ => None
  }

  predicate AtPlace(k: nat, e: Entry)
  {
    Place(k).None? || Place(k) == Some(e.key)
  }

  /** The last loop, level by level. */
  function Level(k: nat): Entry -> Value
    requires k < 7
  {
    match k
    case 0 => SubstituteSchema()
    case 1 => SubstituteMedia()
    case 2 => SubstituteContent()
    case 3 => SubstituteResponse()
    case 4 => SubstituteResponses()
    case 5 => SubstituteOperation()
    case 6 => SubstituteItem()
  }

  // ----- the document -----

  function Inject(d: Doc): Doc
  {
    d.(schemas := PutAll(d.schemas, ERROR_SCHEMAS), responses := PutAll(d.responses, ERROR_RESPONSES))
  }

  function HardenPaths(d: Doc): Doc
  {
    d.(paths := Map(d.paths, HardenItem()))
  }

  function Finish(d: Doc): Doc
  {
    d.(schemas := Drop(d.schemas, HTTP_VALIDATION_ERROR), paths := Map(d.paths, SubstituteItem()))
  }

  function Harden(d: Doc): Doc
  {
    Finish(HardenPaths(Inject(d)))
  }
}
