/** Checking a response against the contract: harness/validator.py and harness/violations.py. */
module Validator {
  import opened Json
  import opened Text
  import opened Paths
  import opened Resolver
  import opened Schema
  import opened Places
  import opened Pointer

  datatype ViolationKind =
    | UnknownOperation
    | UndeclaredStatus
    | WrongContentType
    | UnexpectedBody
    | SchemaMissingField
    | SchemaWrongType
    | SchemaEnum
    | SchemaUnexpectedField
    | SchemaInvalid
    | BodyNotJson
    | ExpectationFailed

  datatype Violation = Violation(kind: ViolationKind, location: string)

  /** harness/transport.py, `HttpResponse`; header names are lower case. */
  datatype HttpResponse = HttpResponse(
    statusCode: nat, headers: map<string, string>, text: string,
    requestMethod: string, requestPath: string)
  {
    /** The media type without its parameters. */
    function ContentType(): string {
      if "content-type" in headers then Strip(Split(headers["content-type"], ';')[0]) else ""
    }

    predicate BodyIsEmpty() { Strip(text) == "" }
  }

  /** The pinned document, and its paths in the order the document lists them. */
  datatype Contract = Contract(doc: Json, paths: seq<string>)
  {
    function PathItems(): map<string, Json> { doc.Get("paths").GetOr(JNull).Members() }
  }

  /** The operation object for a method and a template, or None if undeclared. */
  function FindOperation(c: Contract, httpMethod: string, template: string): Option<Json> {
    if template in c.PathItems() then
      match c.PathItems()[template].Get(Lower(httpMethod))
      case Some(JNull) => None
      case found => found
    else None
  }

  function Responses(operation: Json): map<string, Json> {
    operation.Get("responses").GetOr(JNull).Members()
  }

  /** The declared media types of a response object; empty when it promises no body. */
  function Content(declared: Json): map<string, Json> {
    declared.Get("content").GetOr(JNull).Members()
  }

  /** NoSchema: the contract declares no body. Unresolvable: a reference in it raises. */
  datatype SchemaLookup = NoSchema | Declared(schema: Json) | Unresolvable

  /** `response_schema`, for the media type application/json. */
  function ResponseSchema(c: Contract, httpMethod: string, template: string, status: nat): SchemaLookup {
    match FindOperation(c, httpMethod, template)
    case None => NoSchema
    case Some(operation) =>
      if Decimal(status) !in Responses(operation) then NoSchema
      else
        var content := Content(Responses(operation)[Decimal(status)]);
        if "application/json" !in content then NoSchema
        else
          match content["application/json"].Get("schema")
          case None => NoSchema
          case Some(JNull) => NoSchema
          case Some(schema) =>
            match Resolve(c.doc, schema, [])
            case None => Unresolvable
            case Some(resolved) => Declared(resolved)
  }

  /** The method that `check_response` looks up. */
  function MethodOf(r: HttpResponse): string { if r.requestMethod == "" then "GET" else r.requestMethod }

  /** `check_response`, with the template taken from the response's own request path. */
  function CheckResponse(c: Contract, r: HttpResponse): seq<Violation> {
    match MatchPathTemplate(c.paths, r.requestPath)
    case None => [Violation(UnknownOperation, "request")]
    case Some(template) =>
      match FindOperation(c, MethodOf(r), template)
      case None => [Violation(UnknownOperation, "request")]
      case Some(operation) =>
        var status := Decimal(r.statusCode);
        if status !in Responses(operation) then [Violation(UndeclaredStatus, "response.status")]
        else
          BodyViolations(Content(Responses(operation)[status]), r)
  }

  /** What is wrong with the body or its type, given the declared media types. */
  function BodyViolations(content: map<string, Json>, r: HttpResponse): seq<Violation> {
    if content == map[] then
      if r.BodyIsEmpty() then [] else [Violation(UnexpectedBody, "response.body")]
    else if r.ContentType() !in content then [Violation(WrongContentType, "response.headers.content-type")]
    else []
  }

  /** The promises about operation, status and media type, with no order of checking. */
  ghost predicate KeepsPromises(c: Contract, r: HttpResponse) {
    exists template, operation ::
      && MatchPathTemplate(c.paths, r.requestPath) == Some(template)
      && FindOperation(c, MethodOf(r), template) == Some(operation)
      && Decimal(r.statusCode) in Responses(operation)
      && PromiseKept(Content(Responses(operation)[Decimal(r.statusCode)]), r)
  }

  /** No body where none is declared, and one of the declared media types elsewhere. */
  predicate PromiseKept(content: map<string, Json>, r: HttpResponse) {
    if content == map[] then r.BodyIsEmpty() else r.ContentType() in content
  }

  /** `check_response` as written: a list that is returned at the first promise broken. */
  method CheckResponseInOrder(c: Contract, r: HttpResponse) returns (violations: seq<Violation>)
    ensures violations == CheckResponse(c, r)
  {
    violations := [];
    var template := MatchPathTemplate(c.paths, r.requestPath);
    var operation := None;
    if template.Some? {
      operation := FindOperation(c, MethodOf(r), template.value);
    }
    if operation.None? {
      violations := violations + [Violation(UnknownOperation, "request")];
      return;
    }
    var responses, status := Responses(operation.value), Decimal(r.statusCode);
    if status !in responses {
      violations := violations + [Violation(UndeclaredStatus, "response.status")];
      return;
    }
    var content := Content(responses[status]);
    if content == map[] {
      if !r.BodyIsEmpty() {
        violations := violations + [Violation(UnexpectedBody, "response.body")];
      }
      return;
    }
    if r.ContentType() !in content {
      violations := violations + [Violation(WrongContentType, "response.headers.content-type")];
    }
  }

  /** Although it returns a list, one response never breaks the contract in two ways here. */
  lemma CheckResponseExact(c: Contract, r: HttpResponse)
    ensures |CheckResponse(c, r)| <= 1
    ensures CheckResponse(c, r) == [] <==> KeepsPromises(c, r)
  {
    if KeepsPromises(c, r) {
      var template, operation :|
        && MatchPathTemplate(c.paths, r.requestPath) == Some(template)
        && FindOperation(c, MethodOf(r), template) == Some(operation)
        && Decimal(r.statusCode) in Responses(operation)
        && PromiseKept(Content(Responses(operation)[Decimal(r.statusCode)]), r);
    }
  }

  /** Where the status is declared only the body can be wrong. */
  lemma DeclaredKinds(c: Contract, r: HttpResponse, template: string, operation: Json)
    requires MatchPathTemplate(c.paths, r.requestPath) == Some(template)
    requires FindOperation(c, MethodOf(r), template) == Some(operation)
    requires Decimal(r.statusCode) in Responses(operation)
    ensures CheckResponse(c, r) == BodyViolations(Content(Responses(operation)[Decimal(r.statusCode)]), r)
  {
  }

  lemma BodyKinds(content: map<string, Json>, r: HttpResponse)
    ensures forall v | v in BodyViolations(content, r) :: v.kind == UnexpectedBody || v.kind == WrongContentType
  {
  }

  lemma UndeclaredHasNoSchema(c: Contract, httpMethod: string, template: string, status: nat)
    requires match FindOperation(c, httpMethod, template)
             case None => true
             case Some(operation) => Decimal(status) !in Responses(operation)
    ensures ResponseSchema(c, httpMethod, template, status) == NoSchema
  {
  }

  /** Where no operation or no status is declared there is no schema either, for any response. */
  lemma ShortCircuitHasNoSchema(c: Contract, r: HttpResponse)
    requires exists v | v in CheckResponse(c, r) :: v.kind == UnknownOperation || v.kind == UndeclaredStatus
    ensures MatchPathTemplate(c.paths, r.requestPath).Some? ==>
      ResponseSchema(c, MethodOf(r), MatchPathTemplate(c.paths, r.requestPath).value, r.statusCode) == NoSchema
  {
    var template := MatchPathTemplate(c.paths, r.requestPath);
    if template.Some? {
      var found := FindOperation(c, MethodOf(r), template.value);
      if found.Some? && Decimal(r.statusCode) in Responses(found.value) {
        DeclaredKinds(c, r, template.value, found.value);
        BodyKinds(Content(Responses(found.value)[Decimal(r.statusCode)]), r);
      } else {
        UndeclaredHasNoSchema(c, MethodOf(r), template.value, r.statusCode);
      }
    }
  }

  // ----- bodies -----

  /** `_KIND_BY_JSONSCHEMA_VALIDATOR`. */
  function KindOf(keyword: string): ViolationKind {
    match keyword
    case "required" => SchemaMissingField
    case "type" => SchemaWrongType
    case "enum" => SchemaEnum
    case "additionalProperties" => SchemaUnexpectedField
    case _ => SchemaInvalid
  }

  function StepText(step: Step): string {
    match step
    case Key(name) => name
    case Index(at) => Decimal(at)
  }

  function PathText(path: Path): string {
    if path == [] then "" else "." + StepText(path[0]) + PathText(path[1..])
  }

  function ToViolation(e: SchemaError): Violation {
    Violation(KindOf(e.keyword), "response.body" + PathText(e.path))
  }

  /** The list holds every error once, from the first place on. */
  ghost predicate Lists(es: seq<SchemaError>, errors: set<SchemaError>) { Once(es, errors) && InOrder(es) }

  /** Nothing in the list comes behind what is left. */
  ghost predicate Before(es: seq<SchemaError>, left: set<SchemaError>) {
    forall i, f | 0 <= i < |es| && f in left :: NotBehind(es[i].path, f.path)
  }

  method FirstError(errors: set<SchemaError>) returns (e: SchemaError)
    requires errors != {} && AllCompare(errors)
    ensures IsFirst(e, errors)
  {
    ghost var first := OneIsFirst(errors);
    assert first in errors && IsFirst(first, errors);
    e :| e in errors && IsFirst(e, errors);
  }

  predicate Tells(violations: seq<Violation>, es: seq<SchemaError>) {
    |violations| == |es| && forall i | 0 <= i < |es| :: violations[i] == ToViolation(es[i])
  }

  lemma TellsOneMore(violations: seq<Violation>, es: seq<SchemaError>, e: SchemaError)
    requires Tells(violations, es)
    ensures Tells(violations + [ToViolation(e)], es + [e])
  {
  }

  /** `sorted(errors, key=place)`, as violations; errors at one place come in some order. */
  method SortErrors(errors: set<SchemaError>) returns (violations: seq<Violation>, ghost es: seq<SchemaError>)
    requires AllCompare(errors)
    ensures Lists(es, errors) && Tells(violations, es)
  {
    var left := errors;
    violations, es := [], [];
    while left != {}
      invariant left <= errors && Lists(es, errors - left) && Before(es, left)
      invariant Tells(violations, es)
      decreases |left|
    {
      FewerCompare(errors, left);
      var e := FirstError(left);
      OneMore(errors, left, e, es);
      TellsOneMore(violations, es, e);
      left := left - {e};
      violations := violations + [ToViolation(e)];
      es := es + [e];
    }
    assert errors - left == errors;
  }

  /** `check_body_against_schema`: one violation per error, sorted by place, which never raises. */
  method CheckBodyAgainstSchema(body: Json, schema: Json)
    returns (violations: seq<Violation>, ghost es: seq<SchemaError>)
    ensures Lists(es, Errors(schema, body, []))
    ensures |violations| == |es| && forall i | 0 <= i < |es| :: violations[i] == ToViolation(es[i])
    ensures violations == [] <==> Accepts(schema, body)
  {
    ErrorsCompare(schema, body);
    violations, es := SortErrors(Errors(schema, body, []));
    NoErrorsMeansAccepts(schema, body, []);
    EmptyList(es, Errors(schema, body, []));
  }

  lemma EmptyList(es: seq<SchemaError>, errors: set<SchemaError>)
    requires Lists(es, errors)
    ensures es == [] <==> errors == {}
  {
    if es != [] { assert es[0] in errors; }
  }

  lemma OneMore(all: set<SchemaError>, left: set<SchemaError>, e: SchemaError, es: seq<SchemaError>)
    requires left <= all && IsFirst(e, left) && Lists(es, all - left) && Before(es, left)
    ensures Lists(es + [e], all - (left - {e})) && Before(es + [e], left - {e})
  {
    assert all - (left - {e}) == (all - left) + {e};
    OnceMore(es, all - left, e);
    InOrderMore(es, e, left);
  }

  lemma OnceMore(es: seq<SchemaError>, errors: set<SchemaError>, e: SchemaError)
    requires Once(es, errors) && e !in errors
    ensures Once(es + [e], errors + {e})
  {
  }

  lemma InOrderMore(es: seq<SchemaError>, e: SchemaError, left: set<SchemaError>)
    requires InOrder(es) && Before(es, left) && IsFirst(e, left)
    ensures InOrder(es + [e]) && Before(es + [e], left - {e})
  {
  }

  // ----- the lookups, as paths into the document -----

  lemma WalkStep(node: Json, key: string, rest: seq<string>)
    ensures Walk(node, [key] + rest) == match node.Get(key) case None => None case Some(next) => Walk(next, rest)
  {
    assert ([key] + rest)[1..] == rest;
  }

  lemma WalkTwo(node: Json, a: string, b: string)
    ensures Walk(node, [a, b]) == match node.Get(a) case None => None case Some(next) => next.Get(b)
  {
    assert [a, b] == [a] + [b] && [b][1..] == [];
    WalkStep(node, a, [b]);
  }

  lemma WalkThree(node: Json, a: string, b: string, c: string)
    ensures Walk(node, [a, b, c])
            == match node.Get(a)
               case None => None
               case Some(next) => Walk(next, [b, c])
  {
    assert [a, b, c] == [a] + [b, c];
    WalkStep(node, a, [b, c]);
  }

  /** The operation stands at paths, template, method in small letters; null there is none. */
  lemma OperationStands(c: Contract, httpMethod: string, template: string)
    ensures FindOperation(c, httpMethod, template)
            == match Walk(c.doc, ["paths", template, Lower(httpMethod)])
               case None => None
               case Some(JNull) => None
               case found => found
  {
    WalkThree(c.doc, "paths", template, Lower(httpMethod));
    if c.doc.Get("paths").Some? { WalkTwo(c.doc.Get("paths").value, template, Lower(httpMethod)); }
  }

  /** The response stands at responses, status in decimal. */
  lemma ResponseStands(operation: Json, status: nat)
    ensures Walk(operation, ["responses", Decimal(status)])
            == if Decimal(status) in Responses(operation) then Some(Responses(operation)[Decimal(status)]) else None
  {
    WalkTwo(operation, "responses", Decimal(status));
  }

  /** A media type's entry stands at content, media type. */
  lemma ContentStands(declared: Json, mediaType: string)
    ensures Walk(declared, ["content", mediaType])
            == if mediaType in Content(declared) then Some(Content(declared)[mediaType]) else None
  {
    WalkTwo(declared, "content", mediaType);
  }

  /**
    The contract check on any contract, by what stands where in it: no operation; no such status; no
    media type declared at all, and a body that is not blank; or the response's media type not declared.
   */
  lemma CheckStands(c: Contract, r: HttpResponse, operation: Option<Json>)
    requires operation == match MatchPathTemplate(c.paths, r.requestPath)
                          case None => None
                          case Some(t) => Walk(c.doc, ["paths", t, Lower(MethodOf(r))])
    ensures CheckResponse(c, r)
            == if operation.GetOr(JNull) == JNull then [Violation(UnknownOperation, "request")]
               else
                 match Walk(operation.value, ["responses", Decimal(r.statusCode)])
                 case None => [Violation(UndeclaredStatus, "response.status")]
                 case Some(declared) =>
                   if forall k :: Walk(declared, ["content", k]) == None
                   then (if IsBlank(r.text) then [] else [Violation(UnexpectedBody, "response.body")])
                   else if Walk(declared, ["content", r.ContentType()]) == None
                   then [Violation(WrongContentType, "response.headers.content-type")]
                   else []
  {
    if MatchPathTemplate(c.paths, r.requestPath).Some? {
      OperationStands(c, MethodOf(r), MatchPathTemplate(c.paths, r.requestPath).value);
    }
    if operation.GetOr(JNull) != JNull {
      ResponseStands(operation.value, r.statusCode);
      if Decimal(r.statusCode) in Responses(operation.value) {
        DeclaredStands(Responses(operation.value)[Decimal(r.statusCode)], r);
      }
    }
  }

  lemma DeclaredStands(declared: Json, r: HttpResponse)
    ensures BodyViolations(Content(declared), r)
            == if forall k :: Walk(declared, ["content", k]) == None
               then (if IsBlank(r.text) then [] else [Violation(UnexpectedBody, "response.body")])
               else if Walk(declared, ["content", r.ContentType()]) == None
               then [Violation(WrongContentType, "response.headers.content-type")]
               else []
  {
    BlankIsEmpty(r.text);
    forall k ensures Walk(declared, ["content", k]) == None <==> k !in Content(declared) {
      ContentStands(declared, k);
    }
    assert Content(declared) == map[] <==> forall k :: k !in Content(declared);
  }

  lemma WalkFive(node: Json, a: string, b: string, c: string, d: string, e: string)
    ensures Walk(node, [a, b, c, d, e])
            == match Walk(node, [a, b])
               case None => None
               case Some(inner) =>
                 match Walk(inner, [c, d])
                 case None => None
                 case Some(entry) => entry.Get(e)
  {
    WalkStep(node, a, [b, c, d, e]);
    WalkTwo(node, a, b);
    if node.Get(a).Some? {
      var first := node.Get(a).value;
      WalkStep(first, b, [c, d, e]);
      if first.Get(b).Some? {
        var inner := first.Get(b).value;
        WalkThree(inner, c, d, e);
        WalkTwo(inner, c, d);
        if inner.Get(c).Some? { WalkTwo(inner.Get(c).value, d, e); }
      }
    }
    assert [a, b, c, d, e] == [a] + [b, c, d, e] && [b, c, d, e] == [b] + [c, d, e];
  }

  /** The schema stands at responses, status, content, application/json, schema, and is resolved; null is none. */
  lemma SchemaStands(c: Contract, httpMethod: string, template: string, status: nat, operation: Json,
                     schema: Option<Json>)
    requires FindOperation(c, httpMethod, template) == Some(operation)
    requires schema == Walk(operation, ["responses", Decimal(status), "content", "application/json", "schema"])
    ensures ResponseSchema(c, httpMethod, template, status)
            == if schema.GetOr(JNull) == JNull then NoSchema
               else
                 match Resolve(c.doc, schema.value, [])
                 case None => Unresolvable
                 case Some(resolved) => Declared(resolved)
  {
    WalkFive(operation, "responses", Decimal(status), "content", "application/json", "schema");
    ResponseStands(operation, status);
    if Decimal(status) in Responses(operation) {
      var declared := Responses(operation)[Decimal(status)];
      ContentStands(declared, "application/json");
    }
  }
}
