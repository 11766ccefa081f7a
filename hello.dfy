/** The GET /hello handler of index.ts: resolve the request id, decode the query, apply the age
    rule, and render either the greeting or a 400 carrying the failure's message. The request id
    that hyper-ts's ReaderMiddleware supplies through `ask` is an explicit parameter here. */
module Hello {
  import opened Fp
  import opened Text
  import opened IoTs
  import opened HyperTs

  /** A query that passed QueryParams: `name` is any string (it may be empty). */
  datatype Query = Query(name: string, age: int)

  const REQUEST_ID_HEADER := "x-request-id"
  const X_REQUEST_ID := "X-Request-Id"
  const INVALID_QUERY := "Invalid query parameters:\n"
  const TOO_OLD := "too old!"
  const MAX_AGE := 41

  /** A key the query does not have reads as undefined. */
  function Field(query: map<string, Unknown>, key: string): Unknown
  {
    if key in query then query[key] else Undefined
  }

  /** QueryParams.decode for t.strict({ name: t.string, age: IntFromString }): succeeds exactly
      when both fields decode, and otherwise lists one error per failing field, name first. */
  function DecodeQueryParams(query: map<string, Unknown>, lib: Library): (r: Validation<Query>)
    ensures r.Right? <==> Field(query, "name").Str? && Field(query, "age").Str?
                          && lib.parseInt(Field(query, "age").s).Some?
    ensures r.Right? ==> r.right == Query(Field(query, "name").s, lib.parseInt(Field(query, "age").s).value)
    ensures r.Left? ==> (r.left[0].key == "name" <==> !Field(query, "name").Str?)
    ensures r.Left? ==> (ValidationError("name", Field(query, "name"), STRING) in r.left <==> !Field(query, "name").Str?)
    ensures r.Left? ==> (ValidationError("age", Field(query, "age"), INT_FROM_STRING) in r.left
                         <==> !(Field(query, "age").Str? && lib.parseInt(Field(query, "age").s).Some?))
    ensures r.Left? ==> |r.left| == (if Field(query, "name").Str? then 0 else 1)
                                    + (if Field(query, "age").Str? && lib.parseInt(Field(query, "age").s).Some? then 0 else 1)
  {
    match (DecodeString("name", Field(query, "name")), DecodeIntFromString("age", Field(query, "age"), lib))
    case (Right(name), Right(age)) => Right(Query(name, age))
    case (Left(en), Right(_)) => Left(en)
    case (Right(_), Left(ea)) => Left(ea)
    case (Left(en), Left(ea)) => Left(en + ea)
  }

  /** The message queryDecoder gives a failed decode: the prefix, then PathReporter's lines. */
  function InvalidQueryMessage(errors: Errors, lib: Library): string
  {
    INVALID_QUERY + Join(Failure(errors, lib), "\n")
  }

  /** queryDecoder: QueryParams.decode with its errors turned into one message. */
  function QueryDecoder(query: map<string, Unknown>, lib: Library): (r: Either<string, Query>)
    ensures r.Right? <==> DecodeQueryParams(query, lib).Right?
    ensures r.Right? ==> r.right == DecodeQueryParams(query, lib).right
    ensures r.Left? ==> StartsWith(r.left, INVALID_QUERY) && r.left != TOO_OLD
  {
    MapLeft(DecodeQueryParams(query, lib), (errors: Errors) => InvalidQueryMessage(errors, lib))
  }

  /** withDefault: the header if it is a string, else the generated uuid. Never a Left. */
  function WithDefault(value: Unknown, uuid: string): (r: Either<Errors, string>)
    ensures r.Right?
    ensures value.Str? ==> r.right == value.s
    ensures !value.Str? ==> r.right == uuid
  {
    OrElse(DecodeString("", value), (_: Errors) => Right(uuid))
  }

  /** M.decodeHeader("x-request-id", withDefault): reads the header off the connection. */
  function DecodeRequestId(c: Conn, uuid: string): (r: Either<Errors, string>)
    ensures r.Right?
    ensures GetHeader(c, REQUEST_ID_HEADER).Str? ==> r.right == GetHeader(c, REQUEST_ID_HEADER).s
    ensures !GetHeader(c, REQUEST_ID_HEADER).Str? ==> r.right == uuid
  {
    WithDefault(GetHeader(c, REQUEST_ID_HEADER), uuid)
  }

  /** ageValidation: rejects an age over 41, otherwise passes the query on unchanged. */
  function AgeValidation(q: Query): (r: Either<string, Query>)
    ensures r.Left? <==> q.age > MAX_AGE
    ensures r.Left? ==> r.left == TOO_OLD
    ensures r.Right? ==> r.right == q
  {
    if q.age > MAX_AGE then Left(TOO_OLD) else Right(q)
  }

  /** R.decodeQuery(queryDecoder) followed by ichain(ageValidation): the age rule only runs on
      a decoded query, and a decode failure is passed on as it is. */
  function CheckedQuery(c: Conn, lib: Library): (r: Either<string, Query>)
    ensures QueryDecoder(c.request.query, lib).Left? ==> r == QueryDecoder(c.request.query, lib)
    ensures r.Right? <==> QueryDecoder(c.request.query, lib).Right? && QueryDecoder(c.request.query, lib).right.age <= MAX_AGE
    ensures r.Right? ==> r.right == QueryDecoder(c.request.query, lib).right
  {
    Chain(QueryDecoder(c.request.query, lib), AgeValidation)
  }

  function Greeting(name: string): string
  {
    "Hello " + name + "!"
  }

  /** greenPath: 200, the request id header, the greeting. */
  function GreenPath(q: Query, requestId: string, c: Conn): (r: Conn)
    requires c.phase == StatusOpen
    ensures r.request == c.request && r.phase == ResponseEnded
    ensures r.actions == c.actions + [SetStatus(OK), SetHeader(X_REQUEST_ID, requestId), SetBody(Greeting(q.name))]
  {
    Send(CloseHeaders(Header(Status(c, OK), X_REQUEST_ID, requestId)), Greeting(q.name))
  }

  /** badRequest: 400, the request id header, the message verbatim. */
  function BadRequest(message: string, requestId: string, c: Conn): (r: Conn)
    requires c.phase == StatusOpen
    ensures r.request == c.request && r.phase == ResponseEnded
    ensures r.actions == c.actions + [SetStatus(BAD_REQUEST), SetHeader(X_REQUEST_ID, requestId), SetBody(message)]
  {
    Send(CloseHeaders(Header(Status(c, BAD_REQUEST), X_REQUEST_ID, requestId)), message)
  }

  /** withRequestId: the checked query goes to greenPath; any failure on the way goes to
      badRequest (R.orElse), which starts from the same unwritten connection. */
  function WithRequestId(requestId: string, c: Conn, lib: Library): (r: Conn)
    requires c.phase == StatusOpen
    ensures r.request == c.request && r.phase == ResponseEnded
    ensures |r.actions| == |c.actions| + 3 && r.actions[..|c.actions|] == c.actions
    ensures r.actions[|c.actions| + 1] == SetHeader(X_REQUEST_ID, requestId)
  {
    match CheckedQuery(c, lib)
    case Right(q) => GreenPath(q, requestId, c)
    case Left(message) => BadRequest(message, requestId, c)
  }

  /** The id hello resolves for a request and hands to withRequestId. */
  function RequestId(req: Request, uuid: string): string
  {
    DecodeRequestId(Open(req), uuid).right
  }

  /** hello: decode the request id from the header, then run withRequestId with it.
      `uuid` is the uuidv4() result used when the header is not a string. */
  function HelloHandler(req: Request, uuid: string, lib: Library): (r: Conn)
    ensures r.request == req && r.phase == ResponseEnded
    ensures |r.actions| == 3 && r.actions[0].SetStatus? && r.actions[2].SetBody?
    ensures r.actions[1] == SetHeader(X_REQUEST_ID, RequestId(req, uuid))
  {
    WithRequestId(RequestId(req, uuid), Open(req), lib)
  }

  /** The response hello writes for a request; the one header it sets is the resolved request id. */
  function Serve(req: Request, uuid: string, lib: Library): (r: Response)
    ensures r.headers == map[X_REQUEST_ID := RequestId(req, uuid)]
  {
    var c := HelloHandler(req, uuid, lib);
    assert c.actions == [SetStatus(c.actions[0].code), SetHeader(X_REQUEST_ID, RequestId(req, uuid)), SetBody(c.actions[2].body)];
    StatusHeaderBody(c.actions[0].code, X_REQUEST_ID, RequestId(req, uuid), c.actions[2].body);
    ResponseOf(c.actions)
  }
}
