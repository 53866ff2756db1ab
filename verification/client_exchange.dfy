/** One outbound HTTP request as a sequential state machine: `Setup` configures
    it, the transport's event handlers build its response, and exactly one of
    the two terminal handlers (completion or expiry) hands that response to the
    user callback. Errors reported by the transport, or raised by the callback,
    go into a write-once slot that a blocking wait later surfaces. */
module ClientExchange {
  import opened Wrappers
  import opened Text
  import opened Headers
  import opened Responses

  type ExchangeId = nat

  datatype Phase = Configured | InFlight | Completed | Expired

  /** A readable request-body source; reading it yields all that is left. */
  datatype BodySource = BodySource(unread: string)

  /** The caller's options; an absent entry is Ruby's nil. */
  datatype Options = Options(
    httpMethod: Option<string>,
    headers: Option<seq<(string, string)>>,  // a Hash, in its iteration order
    body: Option<BodySource>)

  /** What the exchange hands to the transport. */
  datatype Request = Request(
    url: string,
    httpMethod: string,
    headers: Fields,
    content: Option<string>)  // the request content source, if one was set

  datatype Exchange = Exchange(
    id: ExchangeId,
    phase: Phase,
    request: Request,
    response: Response,
    error: Option<Error>,          // first captured error; written at most once
    delivered: seq<Response>,      // a snapshot of the response at each callback call, in order
    outstanding: set<ExchangeId>)  // the owning client's registry of in-flight exchanges

  /** The transport's events for one exchange. */
  datatype Event =
    | Header(name: string, value: string)
    | Complete(status: int, content: Option<string>)
    | Expire
    | Exception(error: Error)
    | ConnectionFailed(error: Error)

  /** A configured exchange, and the caller's options as setup leaves them. */
  datatype SetupOutcome = SetupOutcome(exchange: Exchange, options: Options)

  /** What a blocking wait ends with: a plain return, or a `throw` whose tag is
      the captured error. */
  datatype WaitOutcome = Returned | Thrown(tag: Error)

  const DefaultMethod: string := "GET"
  const SecureScheme: string := "https"

  /** The request method: the given one upper-cased, `GET` when none is given. */
  function MethodOf(options: Options): (m: string)
    ensures IsUpper(m)
    ensures options.httpMethod.None? ==> m == DefaultMethod
    ensures options.httpMethod.Some? ==> EqualIgnoringCase(m, options.httpMethod.value)
  {
    UpcaseIdempotent(DefaultMethod);
    Upcase(options.httpMethod.GetOr(DefaultMethod))
  }

  /** `read` on a body source: all that is left, and the source at its end. */
  function Read(source: BodySource): (r: (string, BodySource))
    ensures r.0 == source.unread
    ensures r.1.unread == ""
  {
    (source.unread, BodySource(""))
  }

  /** `setup`: `target` is what the transport made of the URL, the scheme it
      parsed or the error its URL setter raised; in the latter case setup
      raises that error. Otherwise the request carries the upper-cased method,
      every header of the options, and, only when a body is given, all of its
      content; the response records the URL and whether the scheme is https.
      Reading the body leaves the caller's source at its end, so the options
      come back with a drained body and are otherwise unchanged. */
  function Setup(id: ExchangeId, outstanding: set<ExchangeId>, url: string,
                 target: Result<string, Error>, options: Options): (r: Result<SetupOutcome, Error>)
    ensures r.Failure? <==> target.Failure?
    ensures target.Failure? ==> r.error == target.error
    ensures r.Success? ==>
              && r.value.exchange.id == id
              && r.value.exchange.phase == Configured
              && r.value.exchange.outstanding == outstanding
              && r.value.exchange.error.None?
              && r.value.exchange.delivered == []
    ensures r.Success? ==>
              && r.value.exchange.response.url == url
              && (r.value.exchange.response.ssl <==> target.value == SecureScheme)
              && r.value.exchange.response.status.None?
              && r.value.exchange.response.body.None?
              && !r.value.exchange.response.timeout
              && r.value.exchange.response.headers == map[]
    ensures r.Success? ==>
              && r.value.exchange.request.url == url
              && IsUpper(r.value.exchange.request.httpMethod)
              && r.value.exchange.request.httpMethod == MethodOf(options)
              && r.value.exchange.request.headers == PutAll(map[], options.headers.GetOr([]))
              && (r.value.exchange.request.content.Some? <==> options.body.Some?)
              && (options.body.Some? ==> r.value.exchange.request.content.value == options.body.value.unread)
    ensures r.Success? ==>
              && r.value.options == options.(body := r.value.options.body)
              && (r.value.options.body.Some? <==> options.body.Some?)
              && (r.value.options.body.Some? ==> r.value.options.body.value.unread == "")
  {
    match target
    case Failure(e) => Failure(e)
    case Success(scheme) =>
      var response := New(url).(ssl := scheme == SecureScheme);
      var headers := PutAll(map[], options.headers.GetOr([]));
      var exchange := Exchange(id, Configured, Request(url, MethodOf(options), headers, None),
                               response, None, [], outstanding);
      match options.body
      case None => Success(SetupOutcome(exchange, options))
      case Some(source) =>
        var (content, drained) := Read(source);
        Success(SetupOutcome(exchange.(request := exchange.request.(content := Some(content))),
                             options.(body := Some(drained))))
  }

  /** Setting up again with the options a setup returned sends an empty body:
      the first `read` consumed the source. */
  lemma SecondSetupSendsNothing(id: ExchangeId, outstanding: set<ExchangeId>, url: string,
                                target: Result<string, Error>, options: Options)
    requires target.Success? && options.body.Some?
    ensures var first := Setup(id, outstanding, url, target, options).value;
            var second := Setup(id, outstanding, url, target, first.options).value;
            && first.exchange.request.content == Some(options.body.value.unread)
            && second.exchange.request.content == Some("")
  {
  }

  /** Every request header of the options reaches the request, a name given
      twice keeping its later value, and no other header is set. */
  lemma SetupRequestHeaders(id: ExchangeId, outstanding: set<ExchangeId>, url: string,
                            target: Result<string, Error>, options: Options, name: string)
    requires target.Success?
    ensures var x := Setup(id, outstanding, url, target, options).value.exchange;
            var given := LastValue(options.headers.GetOr([]), name);
            && (name in x.request.headers <==> given.Some?)
            && (given.Some? ==> x.request.headers[name] == given.value)
  {
    PutAllLookup(map[], options.headers.GetOr([]), name);
  }

  /** Hands a configured exchange to the transport: the owning client records
      it as outstanding. */
  function Submit(x: Exchange): (r: Exchange)
    ensures r.phase == InFlight
    ensures r.outstanding == x.outstanding + {x.id}
    ensures r == x.(phase := InFlight, outstanding := r.outstanding)
  {
    x.(phase := InFlight, outstanding := x.outstanding + {x.id})
  }

  /** `on_response_header`: the header is stored on the response, replacing an
      earlier one of the same name; nothing else changes. */
  function OnResponseHeader(x: Exchange, name: string, value: string): (r: Exchange)
    ensures name in r.response.headers && r.response.headers[name] == value
    ensures r.response.headers.Keys == x.response.headers.Keys + {name}
    ensures forall k :: k in x.response.headers && k != name ==>
              r.response.headers[k] == x.response.headers[k]
    ensures r.response == x.response.(headers := r.response.headers)
    ensures r == x.(response := r.response)
  {
    x.(response := SetHeader(x.response, name, value))
  }

  /** The write-once error slot: the first error stays, later ones are dropped. */
  function Capture(slot: Option<Error>, e: Error): (r: Option<Error>)
    ensures r.Some?
    ensures slot.Some? ==> r == slot
    ensures slot.None? ==> r == Some(e)
  {
    if slot.Some? then slot else Some(e)
  }

  /** `on_exception`: captures `e` unless an error is already held; the
      response is not finished and the callback is not run. */
  function OnException(x: Exchange, e: Error): (r: Exchange)
    ensures x.error.Some? ==> r == x
    ensures x.error.None? ==> r == x.(error := Some(e))
  {
    x.(error := Capture(x.error, e))
  }

  /** `on_connection_failed`: feeds the same slot, in the same way. */
  function OnConnectionFailed(x: Exchange, e: Error): (r: Exchange)
    ensures r == OnException(x, e)
  {
    x.(error := Capture(x.error, e))
  }

  /** `@client.clear(self)`: the exchange leaves the client's registry. */
  function Clear(x: Exchange): (r: Exchange)
    ensures x.id !in r.outstanding
    ensures r.outstanding == x.outstanding - {x.id}
    ensures r == x.(outstanding := r.outstanding)
  {
    x.(outstanding := x.outstanding - {x.id})
  }

  /** `run_callback`: the callback is called once with the current response;
      an error it raises is routed into the error slot, not propagated. */
  function RunCallback(x: Exchange, cb: Callback): (r: Exchange)
    ensures r.delivered == x.delivered + [x.response]
    ensures r.error == (if x.error.Some? then x.error else cb(x.response))
    ensures r == x.(delivered := r.delivered, error := r.error)
  {
    var called := x.(delivered := x.delivered + [x.response]);
    match cb(x.response)
    case None => called
    case Some(e) => OnException(called, e)
  }

  /** `on_response_complete`: leaves the registry, takes status and content
      from the transport, then runs the callback once with that response; the
      timeout flag is left as it was. */
  function OnResponseComplete(x: Exchange, status: int, content: Option<string>, cb: Callback): (r: Exchange)
    ensures r.phase == Completed
    ensures r.outstanding == x.outstanding - {x.id}
    ensures r.response.status == Some(status) && r.response.body == content
    ensures r.response == x.response.(status := Some(status), body := content)
    ensures r.delivered == x.delivered + [r.response]
    ensures r.error == (if x.error.Some? then x.error else cb(r.response))
    ensures r.id == x.id && r.request == x.request
  {
    var cleared := Clear(x);
    var finished := cleared.(phase := Completed,
                             response := cleared.response.(status := Some(status), body := content));
    RunCallback(finished, cb)
  }

  /** `on_expire`: leaves the registry, marks the response timed out with
      status -1 and no body, then runs the callback once with that response. */
  function OnExpire(x: Exchange, cb: Callback): (r: Exchange)
    ensures r.phase == Expired
    ensures r.outstanding == x.outstanding - {x.id}
    ensures r.response.timeout && r.response.status == Some(TimeoutStatus) && r.response.body.None?
    ensures r.response == x.response.(timeout := true, status := Some(TimeoutStatus), body := None)
    ensures r.delivered == x.delivered + [r.response]
    ensures r.error == (if x.error.Some? then x.error else cb(r.response))
    ensures r.id == x.id && r.request == x.request
  {
    var cleared := Clear(x);
    var finished := cleared.(phase := Expired,
                             response := cleared.response.(timeout := true, status := Some(TimeoutStatus), body := None));
    RunCallback(finished, cb)
  }

  /** Dispatches one transport event to its handler. */
  function Step(x: Exchange, ev: Event, cb: Callback): (r: Exchange)
    ensures r.id == x.id && r.request == x.request
    ensures r.outstanding <= x.outstanding
    ensures x.error.Some? ==> r.error == x.error
    ensures r.error.None? ==> x.error.None?
  {
    match ev
    case Header(name, value) => OnResponseHeader(x, name, value)
    case Complete(status, content) => OnResponseComplete(x, status, content, cb)
    case Expire => OnExpire(x, cb)
    case Exception(e) => OnException(x, e)
    case ConnectionFailed(e) => OnConnectionFailed(x, e)
  }

  /** `wait_for_done`, after the transport's own wait has returned: throws the
      captured error if there is one, and returns otherwise. */
  function WaitForDone(x: Exchange): (r: WaitOutcome)
    ensures r.Thrown? <==> x.error.Some?
    ensures r.Thrown? ==> r.tag == x.error.value
  {
    match x.error
    case Some(e) => Thrown(e)
    case None => Returned
  }
}
