# hyper-ts-playground: the GET /hello pipeline in Dafny

This project models the request handler of `index.ts`. It is a short-circuiting chain of
fp-ts `Either` results, run inside hyper-ts's reader middleware:

1. `hello` decodes the `x-request-id` header with `withDefault`. A string is used verbatim.
   Anything else is replaced by a generated uuid. This step never fails.
2. `withRequestId` decodes the query with `queryDecoder`, which is `t.strict({ name: t.string,
   age: IntFromString })`. A failure becomes `"Invalid query parameters:\n"` followed by
   PathReporter's lines joined with `"\n"`.
3. `ageValidation` rejects an age over 41 with `"too old!"`.
4. `greenPath` answers 200 with `Hello <name>!`. `badRequest` answers 400 with the failure's
   message. Both set `X-Request-Id` to the id from step 1, read from the reader environment.

Everything is pure functions, datatypes and lemmas, as in the source. The modules are:

- `Fp` (`fp.dfy`): `Option`, `Either`, `MapLeft`, `OrElse` and `Chain`.
- `Text` (`text.dfy`): `Array.prototype.join`, `String.prototype.split`, and proofs that each
  undoes the other.
- `IoTs` (`iots.dfy`): the decoders `t.string` and `IntFromString`, validation errors, and
  `PathReporter.failure`.
- `HyperTs` (`hyper.dfy`): the response connection. Its phase is the index in the
  connection's type: StatusOpen, then HeadersOpen, then BodyOpen, then ResponseEnded. It
  records the actions `status`, `header` and `send` in order, and `ResponseOf` reads the
  response off them.
- `Hello` (`hello.dfy`): the stages of `index.ts`.
- `HelloProperties` (`properties.dfy`): what every request receives, plus the end-to-end
  scenarios.

Some inputs are parameters rather than computed:

- The reader environment (the resolved request id) is an explicit parameter.
- `uuidv4()` is the parameter `uuid`.
- Two pieces of library behaviour come in as a `Library` value:
  - how `IntFromString` reads text as an integer (`parseInt`);
  - the line PathReporter writes for one error (`report`).

The code asks for less than one might expect:

- `name` only has to be a string. It may be empty; `ScenarioBoundary` greets `""`.
- The request id is taken verbatim. An empty `x-request-id` gives an empty `X-Request-Id`.
- Query keys other than `name` and `age` never make the decode fail (`ExtraQueryKeysIgnored`).
  See the io-ts line under "Left out".

## Model

| member | source | states |
|---|---|---|
| `IoTs.DecodeString` | index.ts:30 | t.string accepts exactly the strings, unchanged; anything else fails with one error naming the value and the codec "string" |
| `IoTs.DecodeIntFromString` | index.ts:15 | IntFromString accepts exactly the strings the library reads as integers, giving that integer; anything else fails with one "IntFromString" error |
| `IoTs.Failure` | index.ts:24 | PathReporter gives one line per validation error, in the errors' order |
| `Text.Join` | index.ts:24 | one part joins to itself; a non-empty list's join starts with its first part; the length is the parts' lengths plus one separator between each pair |
| `Text.JoinLast` | index.ts:24 | the join of two or more parts is the join of all but the last, a separator, then the last part, so every part appears in order with a separator between neighbours |
| `Text.SplitJoin` | index.ts:24 | splitting a newline-joined list of newline-free lines gives back exactly those lines (the joined text loses no failure) |
| `Text.JoinSplit` | index.ts:24 | joining the pieces of a split gives back the text (split and join are inverse) |
| `Hello.DecodeQueryParams` | index.ts:13-16 | the query decodes exactly when name is a string and age is a string that reads as an integer, giving Query(name, age); otherwise the errors name each failing field once, and no field that passed, with name first |
| `HelloProperties.ExtraQueryKeysIgnored` | index.ts:13-16 | adding or changing a query key other than name and age leaves the decode outcome unchanged, so extra keys never cause a failure |
| `Hello.QueryDecoder` | index.ts:20-26 | succeeds exactly when QueryParams does, with the same query; every failure message starts with "Invalid query parameters:\n" and so differs from "too old!" |
| `Hello.WithDefault` | index.ts:28-32 | never yields a Left; a string header value is the id verbatim, anything else yields the generated uuid |
| `Hello.AgeValidation` | index.ts:34-35 | fails, with exactly "too old!", if and only if age > 41; otherwise returns the query unchanged (41 passes) |
| `Hello.CheckedQuery` | index.ts:59-61 | a decode failure passes through unchanged (the age rule is not applied); otherwise it succeeds exactly when age <= 41, with the decoded query |
| `Hello.GreenPath` | index.ts:37-46 | the response is written as status 200, header X-Request-Id = the reader's id, body "Hello <name>!", ending the response |
| `Hello.BadRequest` | index.ts:48-57 | the response is written as status 400, header X-Request-Id = the reader's id, body = the message verbatim, ending the response |
| `Hello.WithRequestId` | index.ts:59-64 | from an unwritten connection, either branch writes exactly three actions, the second setting X-Request-Id to the id it was given, and ends the response |
| `Hello.DecodeRequestId` | index.ts:67 | reading x-request-id off the connection never fails; a string header is the id verbatim, anything else (absent included) gives the generated uuid |
| `Hello.HelloHandler` | index.ts:66-69 | every request ends with exactly one status, then X-Request-Id set to the id resolved from its own header, then one body |
| `Hello.Serve` | index.ts:66-72 | the response hello writes has X-Request-Id = the resolved id as the only header the handler sets (its status and body: `ServeOutcome`) |
| `HelloProperties.ServeOutcome` | index.ts:59-69 | the response is 200 with the greeting when the checked query succeeds, else 400 with the failing stage's message; X-Request-Id is the resolved id on both |
| `HelloProperties.RequestIdOnEveryResponse` | index.ts:66-68 | every response has X-Request-Id as the only header the handler sets; its value is the x-request-id header verbatim when that is a string (even empty), else the generated uuid |
| `HelloProperties.UuidUnusedWhenHeaderGiven` | index.ts:28-32 | when the header is a string, the response does not depend on the generated uuid |
| `HelloProperties.SuccessPath` | index.ts:37-46 | a decoded query with age <= 41 gets status 200 and body exactly "Hello " + name + "!" |
| `HelloProperties.TooOldPath` | index.ts:59-63 | a decoded query with age > 41 gets status 400 and body exactly "too old!" |
| `HelloProperties.ShortCircuitOnDecodeFailure` | index.ts:59-63 | a query that fails to decode gets 400, the request id header, and the decoder's message unchanged as body |
| `HelloProperties.StatusClassification` | index.ts:59-63 | the handler writes status 200 or 400, and 200 exactly when the query decodes and age <= 41 |
| `HelloProperties.ErrorBodyNamesStage` | index.ts:24-35 | a 400 body is "too old!" exactly when the query decoded, and starts with the invalid-query prefix exactly when it did not |
| `HelloProperties.InvalidQueryListsFailures` | index.ts:20-26 | a decode failure's message is the prefix followed by every PathReporter line, in order, recoverable by splitting at newlines |
| `HelloProperties.ScenarioAlice` | index.ts:66-69 | name=Alice, age=30, x-request-id abc123: 200, X-Request-Id abc123, body "Hello Alice!" |
| `HelloProperties.ScenarioBob` | index.ts:59-63 | name=Bob, age=50, no header: 400, body "too old!", X-Request-Id the generated uuid |
| `HelloProperties.ScenarioMissingName` | index.ts:20-26 | age=30 without name: 400 with the prefix and the single line for the missing name |
| `HelloProperties.ScenarioBoundary` | index.ts:34-35 | age 41 with an empty name and an empty x-request-id: 200, "Hello !", X-Request-Id empty |

## Left out

- Express bootstrap, route registration, port 3000 and the startup log (index.ts:71-75). These are I/O.
- `uuidv4()` (index.ts:11, 31). It is randomness, so it is the parameter `uuid`.
  Nothing is claimed about two requests getting different ids.
- io-ts and io-ts-types internals (index.ts:9-10, 13-16). How `IntFromString` parses text is the
  parameter `parseInt`, and PathReporter's exact wording is the parameter `report`.
  `InvalidQueryListsFailures` assumes no `report` line contains a newline. PathReporter
  JSON-encodes the value it describes, so its lines have none. Other query keys never make
  the decode fail: in io-ts 2, `t.strict` is `t.exact`, which strips them. The model ignores
  them, which gives the same outcome; the stripping itself is not modelled. A query that is not an object does not occur (Express always
  parses one), so the object check io-ts runs first is not modelled.
- `toRequestHandler` and the Express connection. `ResponseOf` applies the recorded actions to a
  response that starts as 200 with no headers and an empty body. Node's `ServerResponse` is not
  part of this model.
- What Express's `res.send` adds to the handler's response: Content-Type, Content-Length, ETag
  and, by default, X-Powered-By. It also turns a 200 into a body-less 304 when the request's
  If-None-Match matches the ETag. Statements about headers and status here are about what the
  handler writes.
- Header lookup: header names are given already lower-cased. Express's case-insensitive lookup is
  not modelled.
- The asynchronous `TaskEither` inside the middleware. Every stage here completes at once, so
  nothing is lost by running them as plain functions.
- `R.orElse(badRequest)` also wraps `greenPath` (index.ts:62-63). `greenPath` only calls steps that
  cannot fail, so `WithRequestId` matches on the checked query instead.
- service.ts (`getTodo`, `bodyDecoder`) and the lookup variant of the pipeline. They make a
  network call, log to the console, and are not wired into index.ts.
