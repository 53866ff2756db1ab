/** Whole runs of the exchange state machine over a sequence of transport
    events, and what the transport's ordering promise buys: one terminal event,
    no header after it. Under that promise the callback is called exactly once,
    with a response built from the headers that preceded the terminal event,
    and the first error reported stays in the slot. */
module ExchangeTraces {
  import opened Wrappers
  import opened Headers
  import opened Responses
  import opened ClientExchange

  /** Applies `evs` in order, one handler per event. First write wins: once
      an error is held, no later event replaces it. */
  function Run(x: Exchange, evs: seq<Event>, cb: Callback): (r: Exchange)
    ensures r.id == x.id && r.request == x.request
    ensures r.outstanding <= x.outstanding
    ensures x.error.Some? ==> r.error == x.error
    decreases |evs|
  {
    if |evs| == 0 then x
    else Step(Run(x, evs[..|evs| - 1], cb), evs[|evs| - 1], cb)
  }

  predicate IsTerminal(ev: Event) {
    ev.Complete? || ev.Expire?
  }

  /** How many terminal events `evs` holds. */
  function Terminals(evs: seq<Event>): nat
  {
    if |evs| == 0 then 0
    else Terminals(evs[..|evs| - 1]) + (if IsTerminal(evs[|evs| - 1]) then 1 else 0)
  }

  /** The header pairs of `evs`, in arrival order. */
  function HeaderPairs(evs: seq<Event>): seq<(string, string)>
  {
    if |evs| == 0 then []
    else
      var last := evs[|evs| - 1];
      HeaderPairs(evs[..|evs| - 1]) + (if last.Header? then [(last.name, last.value)] else [])
  }

  /** The transport's promise for one exchange: exactly one terminal event,
      and no header event after it. */
  predicate TransportOrder(evs: seq<Event>) {
    && Terminals(evs) == 1
    && forall i, j :: 0 <= i < j < |evs| && IsTerminal(evs[i]) ==> !evs[j].Header?
  }

  /** Position of the first terminal event. */
  function FirstTerminal(evs: seq<Event>): (k: nat)
    requires Terminals(evs) >= 1
    ensures k < |evs| && IsTerminal(evs[k])
    ensures Terminals(evs[..k]) == 0
    decreases |evs|
  {
    var n := |evs|;
    if Terminals(evs[..n - 1]) >= 1 then
      var k := FirstTerminal(evs[..n - 1]);
      assert evs[..n - 1][..k] == evs[..k];
      k
    else
      n - 1
  }

  /** Reference definition of the response a well-ordered run delivers: the
      initial response with every header before the terminal event applied in
      order, finished the way the terminal event finishes it. */
  function Expected(initial: Response, evs: seq<Event>): Response
    requires TransportOrder(evs)
  {
    var k := FirstTerminal(evs);
    var withHeaders := initial.(headers := PutAll(initial.headers, HeaderPairs(evs[..k])));
    match evs[k]
    case Complete(status, content) => withHeaders.(status := Some(status), body := content)
    case Expire => withHeaders.(timeout := true, status := Some(TimeoutStatus), body := None)
  }

  lemma {:induction false} RunAppend(x: Exchange, a: seq<Event>, b: seq<Event>, cb: Callback)
    ensures Run(x, a + b, cb) == Run(Run(x, a, cb), b, cb)
    decreases |b|
  {
    if |b| == 0 {
      assert a + b == a;
    } else {
      assert (a + b)[..|a + b| - 1] == a + b[..|b| - 1];
      RunAppend(x, a, b[..|b| - 1], cb);
    }
  }

  lemma {:induction false} TerminalsAppend(a: seq<Event>, b: seq<Event>)
    ensures Terminals(a + b) == Terminals(a) + Terminals(b)
    decreases |b|
  {
    if |b| == 0 {
      assert a + b == a;
    } else {
      assert (a + b)[..|a + b| - 1] == a + b[..|b| - 1];
      TerminalsAppend(a, b[..|b| - 1]);
    }
  }

  lemma {:induction false} NoTerminalsAt(evs: seq<Event>, i: int)
    requires Terminals(evs) == 0 && 0 <= i < |evs|
    ensures !IsTerminal(evs[i])
    decreases |evs|
  {
    if i < |evs| - 1 {
      NoTerminalsAt(evs[..|evs| - 1], i);
    }
  }

  /** The callback runs once per terminal event, whatever else happens. */
  lemma {:induction false} DeliveredPerTerminal(x: Exchange, evs: seq<Event>, cb: Callback)
    ensures |Run(x, evs, cb).delivered| == |x.delivered| + Terminals(evs)
    ensures x.delivered <= Run(x, evs, cb).delivered
    decreases |evs|
  {
    if |evs| > 0 {
      DeliveredPerTerminal(x, evs[..|evs| - 1], cb);
    }
  }

  /** Before any terminal event only the headers move: the response gathers
      them in order and the phase, the registry and the deliveries stay. */
  lemma {:induction false} BeforeTerminal(x: Exchange, evs: seq<Event>, cb: Callback)
    requires Terminals(evs) == 0
    ensures Run(x, evs, cb).response == x.response.(headers := PutAll(x.response.headers, HeaderPairs(evs)))
    ensures Run(x, evs, cb).phase == x.phase
    ensures Run(x, evs, cb).outstanding == x.outstanding
    ensures Run(x, evs, cb).delivered == x.delivered
    decreases |evs|
  {
    if |evs| > 0 {
      var n := |evs|;
      BeforeTerminal(x, evs[..n - 1], cb);
      if evs[n - 1].Header? {
        assert HeaderPairs(evs) == HeaderPairs(evs[..n - 1]) + [(evs[n - 1].name, evs[n - 1].value)];
        var pairs := HeaderPairs(evs);
        assert pairs[..|pairs| - 1] == HeaderPairs(evs[..n - 1]);
      } else {
        assert !IsTerminal(evs[n - 1]);
        assert HeaderPairs(evs) == HeaderPairs(evs[..n - 1]) + [];
        assert HeaderPairs(evs) == HeaderPairs(evs[..n - 1]);
      }
    }
  }

  /** Error events change nothing but the error slot. */
  lemma {:induction false} ErrorsOnly(x: Exchange, evs: seq<Event>, cb: Callback)
    requires forall i :: 0 <= i < |evs| ==> evs[i].Exception? || evs[i].ConnectionFailed?
    ensures Run(x, evs, cb) == x.(error := Run(x, evs, cb).error)
    decreases |evs|
  {
    if |evs| > 0 {
      ErrorsOnly(x, evs[..|evs| - 1], cb);
    }
  }

  /** Under the transport's ordering promise the callback is called exactly
      once, with the response `Expected` describes; the exchange ends in the
      phase of its terminal event, out of the client's registry. */
  lemma {:induction false} WellOrderedRun(x: Exchange, evs: seq<Event>, cb: Callback)
    requires TransportOrder(evs)
    ensures Run(x, evs, cb).delivered == x.delivered + [Expected(x.response, evs)]
    ensures Run(x, evs, cb).response == Expected(x.response, evs)
    ensures Run(x, evs, cb).phase == (if evs[FirstTerminal(evs)].Complete? then Completed else Expired)
    ensures Run(x, evs, cb).outstanding == x.outstanding - {x.id}
  {
    var k := FirstTerminal(evs);
    var pre, post := evs[..k], evs[k + 1..];
    assert evs == pre + [evs[k]] + post;
    RunAppend(x, pre + [evs[k]], post, cb);
    RunAppend(x, pre, [evs[k]], cb);
    BeforeTerminal(x, pre, cb);
    var y := Run(x, pre, cb);
    assert Run(y, [evs[k]], cb) == Step(Run(y, [], cb), evs[k], cb) by {
      assert [evs[k]][..0] == [];
    }
    TerminalsAppend(pre + [evs[k]], post);
    assert (pre + [evs[k]])[..k] == pre;
    forall j | 0 <= j < |post|
      ensures post[j].Exception? || post[j].ConnectionFailed?
    {
      NoTerminalsAt(post, j);
      assert post[j] == evs[k + 1 + j];
    }
    ErrorsOnly(Run(x, pre + [evs[k]], cb), post, cb);
  }

  /** The response the callback receives holds, under each name, the value of
      the last header of that name that arrived before the terminal event. */
  lemma DeliveredHeader(x: Exchange, evs: seq<Event>, cb: Callback, name: string)
    requires TransportOrder(evs)
    requires x.response.headers == map[]
    ensures Run(x, evs, cb).delivered == x.delivered + [Run(x, evs, cb).response]
    ensures var delivered := Run(x, evs, cb).response.headers;
            var last := LastValue(HeaderPairs(evs[..FirstTerminal(evs)]), name);
            && (name in delivered <==> last.Some?)
            && (last.Some? ==> delivered[name] == last.value)
  {
    WellOrderedRun(x, evs, cb);
    PutAllLookup(map[], HeaderPairs(evs[..FirstTerminal(evs)]), name);
  }

  /** Under the transport's ordering promise, the callback is called exactly
      once. */
  lemma CallbackOnce(x: Exchange, evs: seq<Event>, cb: Callback)
    requires TransportOrder(evs)
    ensures |Run(x, evs, cb).delivered| == |x.delivered| + 1
  {
    DeliveredPerTerminal(x, evs, cb);
  }

  /** A completion hands over the transport's status and content, never a
      timeout when the response was not marked timed out before; an expiry
      always hands over status -1, no body and the timeout flag. */
  lemma TerminalOutcome(x: Exchange, evs: seq<Event>, cb: Callback)
    requires TransportOrder(evs)
    ensures |Run(x, evs, cb).delivered| == |x.delivered| + 1
    ensures var r := Run(x, evs, cb).delivered[|x.delivered|];
            var t := evs[FirstTerminal(evs)];
            && (t.Complete? ==> r.status == Some(t.status) && r.body == t.content && r.timeout == x.response.timeout)
            && (t.Expire? ==> r.status == Some(TimeoutStatus) && r.body.None? && r.timeout)
            && r.url == x.response.url && r.ssl == x.response.ssl
  {
    WellOrderedRun(x, evs, cb);
  }

  /** The first transport error of a run is the one a later wait throws, no
      matter which errors, or callback failures, follow it. */
  lemma FirstErrorSurfaces(x: Exchange, pre: seq<Event>, ev: Event, post: seq<Event>, cb: Callback)
    requires ev.Exception? || ev.ConnectionFailed?
    requires Run(x, pre, cb).error.None?
    ensures WaitForDone(Run(x, pre + [ev] + post, cb)) == Thrown(ev.error)
  {
    RunAppend(x, pre + [ev], post, cb);
    RunAppend(x, pre, [ev], cb);
    assert [ev][..0] == [];
  }

  /** A callback that raises on the response it is handed does not stop the
      run; a later wait throws what it raised, provided no transport error
      came first. */
  lemma CallbackErrorSurfaces(x: Exchange, evs: seq<Event>, cb: Callback)
    requires TransportOrder(evs)
    requires Run(x, evs[..FirstTerminal(evs)], cb).error.None?
    requires cb(Expected(x.response, evs)).Some?
    ensures WaitForDone(Run(x, evs, cb)) == Thrown(cb(Expected(x.response, evs)).value)
  {
    var k := FirstTerminal(evs);
    var pre, post := evs[..k], evs[k + 1..];
    assert evs == pre + [evs[k]] + post;
    RunAppend(x, pre + [evs[k]], post, cb);
    RunAppend(x, pre, [evs[k]], cb);
    assert [evs[k]][..0] == [];
    BeforeTerminal(x, pre, cb);
  }
}
