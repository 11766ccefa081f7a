/** What a GET /hello request receives, stated over every request, id and library behaviour. */
module HelloProperties {
  import opened Fp
  import opened Text
  import opened IoTs
  import opened HyperTs
  import opened Hello

  /** The response is the checked query's greeting or its failure message, with status to match,
      and the request id header in both cases. */
  lemma {:induction false} ServeOutcome(req: Request, uuid: string, lib: Library)
    ensures CheckedQuery(Open(req), lib).Right? ==>
      Serve(req, uuid, lib) == Response(OK, map[X_REQUEST_ID := RequestId(req, uuid)], Greeting(CheckedQuery(Open(req), lib).right.name))
    ensures CheckedQuery(Open(req), lib).Left? ==>
      Serve(req, uuid, lib) == Response(BAD_REQUEST, map[X_REQUEST_ID := RequestId(req, uuid)], CheckedQuery(Open(req), lib).left)
  {
    var id := RequestId(req, uuid);
    match CheckedQuery(Open(req), lib)
    case Right(q) => StatusHeaderBody(OK, X_REQUEST_ID, id, Greeting(q.name));
    case Left(m) => StatusHeaderBody(BAD_REQUEST, X_REQUEST_ID, id, m);
  }

  /** Every response, success or failure, carries X-Request-Id and no other header; its value is
      the x-request-id header verbatim when that is a string (even an empty one), else the
      generated uuid. */
  lemma {:induction false} RequestIdOnEveryResponse(req: Request, uuid: string, lib: Library)
    ensures Serve(req, uuid, lib).headers == map[X_REQUEST_ID := RequestId(req, uuid)]
    ensures GetHeader(Open(req), REQUEST_ID_HEADER).Str? ==>
      RequestId(req, uuid) == GetHeader(Open(req), REQUEST_ID_HEADER).s
    ensures !GetHeader(Open(req), REQUEST_ID_HEADER).Str? ==> RequestId(req, uuid) == uuid
  {
  }

  /** The generated uuid matters only when the request brings no string id of its own. */
  lemma {:induction false} UuidUnusedWhenHeaderGiven(req: Request, uuid1: string, uuid2: string, lib: Library)
    requires GetHeader(Open(req), REQUEST_ID_HEADER).Str?
    ensures Serve(req, uuid1, lib) == Serve(req, uuid2, lib)
  {
  }

  /** Keys other than name and age never change the decode: t.strict (t.exact in io-ts 2)
      strips them rather than failing on them. */
  lemma ExtraQueryKeysIgnored(query: map<string, Unknown>, k: string, v: Unknown, lib: Library)
    requires k != "name" && k != "age"
    ensures DecodeQueryParams(query[k := v], lib) == DecodeQueryParams(query, lib)
  {
  }

  /** A decoded query within the age limit gets 200 and the greeting with its name. */
  lemma {:induction false} SuccessPath(req: Request, uuid: string, lib: Library)
    requires QueryDecoder(req.query, lib).Right? && QueryDecoder(req.query, lib).right.age <= MAX_AGE
    ensures Serve(req, uuid, lib).status == OK
    ensures Serve(req, uuid, lib).body == "Hello " + QueryDecoder(req.query, lib).right.name + "!"
  {
    ServeOutcome(req, uuid, lib);
  }

  /** A decoded query over the age limit gets 400 and exactly "too old!". */
  lemma {:induction false} TooOldPath(req: Request, uuid: string, lib: Library)
    requires QueryDecoder(req.query, lib).Right? && QueryDecoder(req.query, lib).right.age > MAX_AGE
    ensures Serve(req, uuid, lib).status == BAD_REQUEST
    ensures Serve(req, uuid, lib).body == "too old!"
  {
    ServeOutcome(req, uuid, lib);
  }

  /** A query that does not decode never reaches the age rule or the greeting: the decoder's
      message is the 400 body unchanged. */
  lemma {:induction false} ShortCircuitOnDecodeFailure(req: Request, uuid: string, lib: Library)
    requires QueryDecoder(req.query, lib).Left?
    ensures Serve(req, uuid, lib) == Response(BAD_REQUEST, map[X_REQUEST_ID := RequestId(req, uuid)],
                                              QueryDecoder(req.query, lib).left)
    ensures StartsWith(Serve(req, uuid, lib).body, "Invalid query parameters:\n")
  {
    ServeOutcome(req, uuid, lib);
  }

  /** 200 exactly when both fields decode and the age is at most 41, 400 otherwise. */
  lemma {:induction false} StatusClassification(req: Request, uuid: string, lib: Library)
    ensures Serve(req, uuid, lib).status == OK || Serve(req, uuid, lib).status == BAD_REQUEST
    ensures Serve(req, uuid, lib).status == OK <==>
      DecodeQueryParams(req.query, lib).Right? && DecodeQueryParams(req.query, lib).right.age <= MAX_AGE
  {
    ServeOutcome(req, uuid, lib);
  }

  /** A 400's body says which stage failed: "too old!" exactly when the query decoded, the
      invalid-query prefix exactly when it did not. */
  lemma {:induction false} ErrorBodyNamesStage(req: Request, uuid: string, lib: Library)
    requires Serve(req, uuid, lib).status == BAD_REQUEST
    ensures Serve(req, uuid, lib).body == TOO_OLD <==> DecodeQueryParams(req.query, lib).Right?
    ensures StartsWith(Serve(req, uuid, lib).body, INVALID_QUERY) <==> DecodeQueryParams(req.query, lib).Left?
  {
    ServeOutcome(req, uuid, lib);
    assert !StartsWith(TOO_OLD, INVALID_QUERY);
  }

  /** The invalid-query message lists every failure PathReporter describes, one per line, in
      order: removing the prefix and splitting at newlines gives the descriptions back. */
  lemma {:induction false} InvalidQueryListsFailures(query: map<string, Unknown>, lib: Library)
    requires forall e :: '\n' !in lib.report(e)
    requires DecodeQueryParams(query, lib).Left?
    ensures QueryDecoder(query, lib).Left?
    ensures var m := QueryDecoder(query, lib).left;
      StartsWith(m, INVALID_QUERY)
      && Split(m[|INVALID_QUERY|..], '\n') == Failure(DecodeQueryParams(query, lib).left, lib)
  {
    var lines := Failure(DecodeQueryParams(query, lib).left, lib);
    var m := QueryDecoder(query, lib).left;
    assert m == INVALID_QUERY + Join(lines, "\n");
    assert m[|INVALID_QUERY|..] == Join(lines, "\n");
    assert "\n" == ['\n'];
    SplitJoin(lines, '\n');
  }

  /** GET /hello?name=Alice&age=30 with x-request-id: abc123. */
  lemma {:induction false} ScenarioAlice(uuid: string, lib: Library)
    requires lib.parseInt("30") == Some(30)
    ensures Serve(Request(map["x-request-id" := Str("abc123")], map["name" := Str("Alice"), "age" := Str("30")]), uuid, lib)
         == Response(200, map["X-Request-Id" := "abc123"], "Hello Alice!")
  {
    var req := Request(map["x-request-id" := Str("abc123")], map["name" := Str("Alice"), "age" := Str("30")]);
    ServeOutcome(req, uuid, lib);
  }

  /** GET /hello?name=Bob&age=50 without x-request-id: 400 "too old!" under the generated id. */
  lemma {:induction false} ScenarioBob(uuid: string, lib: Library)
    requires lib.parseInt("50") == Some(50)
    ensures Serve(Request(map[], map["name" := Str("Bob"), "age" := Str("50")]), uuid, lib)
         == Response(400, map["X-Request-Id" := uuid], "too old!")
  {
    var req := Request(map[], map["name" := Str("Bob"), "age" := Str("50")]);
    ServeOutcome(req, uuid, lib);
  }

  /** GET /hello?age=30: the missing name is the one failure listed. */
  lemma {:induction false} ScenarioMissingName(uuid: string, lib: Library)
    requires lib.parseInt("30") == Some(30)
    ensures Serve(Request(map[], map["age" := Str("30")]), uuid, lib)
         == Response(400, map["X-Request-Id" := uuid],
                     "Invalid query parameters:\n" + lib.report(ValidationError("name", Undefined, "string")))
  {
    var req := Request(map[], map["age" := Str("30")]);
    ServeOutcome(req, uuid, lib);
  }

  /** Age 41 is still accepted and an empty name is greeted: t.string asks for no more. */
  lemma {:induction false} ScenarioBoundary(uuid: string, lib: Library)
    requires lib.parseInt("41") == Some(41)
    ensures Serve(Request(map["x-request-id" := Str("")], map["name" := Str(""), "age" := Str("41")]), uuid, lib)
         == Response(200, map["X-Request-Id" := ""], "Hello !")
  {
    var req := Request(map["x-request-id" := Str("")], map["name" := Str(""), "age" := Str("41")]);
    ServeOutcome(req, uuid, lib);
  }
}
