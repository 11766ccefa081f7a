/** The part of hyper-ts the handler builds its response with. A connection records the
    response actions in order; its phase is the index hyper-ts carries in the connection's type
    (StatusOpen, then HeadersOpen, then BodyOpen, then ResponseEnded), so each step requires the
    phase its type demands. */
module HyperTs {
  import opened IoTs

  datatype Phase = StatusOpen | HeadersOpen | BodyOpen | ResponseEnded

  datatype Action = SetStatus(code: int) | SetHeader(name: string, value: string) | SetBody(body: string)

  /** The request as the handler reads it: headers by lower-case name, and the parsed query. */
  datatype Request = Request(headers: map<string, Unknown>, query: map<string, Unknown>)

  datatype Conn = Conn(request: Request, phase: Phase, actions: seq<Action>)

  const OK := 200
  const BAD_REQUEST := 400

  /** The connection a request starts with: nothing written yet. */
  function Open(req: Request): Conn
  {
    Conn(req, StatusOpen, [])
  }

  /** c.getHeader(name): undefined when the request does not carry the header. */
  function GetHeader(c: Conn, name: string): Unknown
  {
    if name in c.request.headers then c.request.headers[name] else Undefined
  }

  function Status(c: Conn, code: int): Conn
    requires c.phase == StatusOpen
  {
    Conn(c.request, HeadersOpen, c.actions + [SetStatus(code)])
  }

  function Header(c: Conn, name: string, value: string): Conn
    requires c.phase == HeadersOpen
  {
    Conn(c.request, HeadersOpen, c.actions + [SetHeader(name, value)])
  }

  /** closeHeaders changes only the phase; it records no action. */
  function CloseHeaders(c: Conn): Conn
    requires c.phase == HeadersOpen
  {
    Conn(c.request, BodyOpen, c.actions)
  }

  function Send(c: Conn, body: string): Conn
    requires c.phase == BodyOpen
  {
    Conn(c.request, ResponseEnded, c.actions + [SetBody(body)])
  }

  /** The response as the handler writes it: status, the headers it sets, body. */
  datatype Response = Response(status: int, headers: map<string, string>, body: string)

  function Apply(r: Response, a: Action): Response
  {
    match a
    case SetStatus(code) => r.(status := code)
    case SetHeader(name, value) => r.(headers := r.headers[name := value])
    case SetBody(body) => r.(body := body)
  }

  /** The response the recorded actions write, applied in order to a 200 with no headers and no body. */
  function ResponseOf(actions: seq<Action>): Response
    decreases |actions|
  {
    if |actions| == 0 then Response(OK, map[], "")
    else Apply(ResponseOf(actions[..|actions| - 1]), actions[|actions| - 1])
  }

  /** A status, one header and a body, written in that order, give exactly that response. */
  lemma StatusHeaderBody(code: int, name: string, value: string, body: string)
    ensures ResponseOf([SetStatus(code), SetHeader(name, value), SetBody(body)])
         == Response(code, map[name := value], body)
  {
    var one := [SetStatus(code)];
    var two := one + [SetHeader(name, value)];
    var three := two + [SetBody(body)];
    assert one[..0] == [] && two[..1] == one && three[..2] == two;
    assert ResponseOf(one) == Response(code, map[], "");
    assert ResponseOf(two) == Response(code, map[name := value], "");
    assert three == [SetStatus(code), SetHeader(name, value), SetBody(body)];
  }
}
