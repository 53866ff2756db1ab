/** The listener used with the newer transport API: when the transport reports
    a finished request/response pair, the listener completes its own future
    first, then builds a response record from the pair and its buffered
    content and calls the callback with it. */
module ResponseListener {
  import opened Wrappers
  import opened Responses
  import ClientExchange
  import ExchangeTraces

  datatype HttpRequest = HttpRequest(uri: string, scheme: string)
  datatype HttpResponse = HttpResponse(status: int)
  datatype HttpResult = HttpResult(request: HttpRequest, response: HttpResponse)

  /** What the listener has done, in order. */
  datatype Action =
    | FutureCompleted(result: HttpResult)   // the superclass's completion
    | CallbackCalled(response: Response)

  /** `content` is what the listener has buffered of the response body. */
  datatype Listener = Listener(content: string, actions: seq<Action>)

  /** The listener after `onComplete`, and the error the callback raised, if
      any; nothing rescues it, so it propagates to the transport. */
  datatype Completion = Completion(listener: Listener, raised: Option<Error>)

  /** The response record for a finished pair. */
  function BuildResponse(result: HttpResult, content: string): (r: Response)
    ensures r.url == result.request.uri
    ensures r.ssl <==> result.request.scheme == ClientExchange.SecureScheme
    ensures r.status == Some(result.response.status)
    ensures r.body == Some(content)
    ensures !r.timeout && r.headers == map[]
  {
    New(result.request.uri).(ssl := result.request.scheme == ClientExchange.SecureScheme,
                             status := Some(result.response.status),
                             body := Some(content))
  }

  /** `onComplete`: the future is completed before the response is built, and
      the callback is then called exactly once, with that response. */
  function OnComplete(l: Listener, result: HttpResult, cb: Callback): (c: Completion)
    ensures c.listener.content == l.content
    ensures |c.listener.actions| == |l.actions| + 2
    ensures c.listener.actions[..|l.actions|] == l.actions
    ensures c.listener.actions[|l.actions|] == FutureCompleted(result)
    ensures c.listener.actions[|l.actions| + 1] == CallbackCalled(BuildResponse(result, l.content))
    ensures c.raised == cb(BuildResponse(result, l.content))
  {
    var completed := l.(actions := l.actions + [FutureCompleted(result)]);
    var response := BuildResponse(result, completed.content);
    Completion(completed.(actions := completed.actions + [CallbackCalled(response)]), cb(response))
  }

  /** How many times the callback has been called. */
  function Calls(actions: seq<Action>): nat
  {
    if |actions| == 0 then 0
    else Calls(actions[..|actions| - 1]) + (if actions[|actions| - 1].CallbackCalled? then 1 else 0)
  }

  lemma {:induction false} CallsAppend(a: seq<Action>, b: seq<Action>)
    ensures Calls(a + b) == Calls(a) + Calls(b)
    decreases |b|
  {
    if |b| == 0 {
      assert a + b == a;
    } else {
      assert (a + b)[..|a + b| - 1] == a + b[..|b| - 1];
      CallsAppend(a, b[..|b| - 1]);
    }
  }

  /** Each `onComplete` adds exactly one callback call. */
  lemma OnCompleteCallsOnce(l: Listener, result: HttpResult, cb: Callback)
    ensures Calls(OnComplete(l, result, cb).listener.actions) == Calls(l.actions) + 1
  {
    var c := OnComplete(l, result, cb);
    var added := [FutureCompleted(result), CallbackCalled(BuildResponse(result, l.content))];
    assert c.listener.actions == l.actions + added;
    CallsAppend(l.actions, added);
    assert added[..1] == [FutureCompleted(result)];
    assert added[..1][..0] == [];
  }

  /** Both client paths agree: an exchange set up for the same URI and scheme
      that receives no header and completes with the same status and content
      hands its callback the same response the listener builds. */
  lemma AgreesWithExchange(id: ClientExchange.ExchangeId, outstanding: set<ClientExchange.ExchangeId>,
                           options: ClientExchange.Options, result: HttpResult, content: string, cb: Callback)
    ensures var s := ClientExchange.Setup(id, outstanding, result.request.uri,
                                          Success(result.request.scheme), options);
            var evs := [ClientExchange.Complete(result.response.status, Some(content))];
            && s.Success?
            && ExchangeTraces.Run(ClientExchange.Submit(s.value.exchange), evs, cb).delivered == [BuildResponse(result, content)]
  {
    var s := ClientExchange.Setup(id, outstanding, result.request.uri, Success(result.request.scheme), options);
    var evs := [ClientExchange.Complete(result.response.status, Some(content))];
    assert ExchangeTraces.Terminals(evs[..0]) == 0;
    assert ExchangeTraces.TransportOrder(evs);
    assert ExchangeTraces.FirstTerminal(evs) == 0;
    assert ExchangeTraces.HeaderPairs(evs[..0]) == [];
    ExchangeTraces.WellOrderedRun(ClientExchange.Submit(s.value.exchange), evs, cb);
  }
}
