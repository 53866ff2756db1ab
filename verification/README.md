# Mizuno client exchange, response listener and logger — a Dafny model

Mizuno is a Rack handler for Jetty on JRuby. This project models three pieces
of its Ruby code:

- **`ClientExchange`**: the per-request exchange of the HTTP client. `setup`
  configures the request. The transport's event handlers then fill in a
  response record. Exactly one terminal handler, completion or expiry, hands
  that record to the user callback. Transport errors and errors raised by the
  callback go into a write-once error slot, and `wait_for_done` throws what
  that slot holds.
- **`ClientResponseListener#onComplete`**: the newer transport API's
  completion hook. It completes its own future first, then builds the same
  response record from a finished request/response pair and calls the
  callback.
- **`Mizuno::Logger`**: the threshold level chosen from the log options. It
  also covers the log4j property configuration (a console appender or a file
  appender, or nothing when log4j is configured elsewhere), the map from Ruby
  severities to log4j levels, and which text `add`, `write` and `puts` log.

Modules, one per concern:

| file | module | contents |
|---|---|---|
| wrappers.dfy | `Wrappers` | `Option` (Ruby `nil`) and `Result` (a call that may raise) |
| text.dfy | `Text` | ASCII upper-casing and case-insensitive equality |
| headers.dfy | `Headers` | header fields where a later value for a name replaces an earlier one |
| responses.dfy | `Responses` | the response record, the error type, the callback type |
| client_exchange.dfy | `ClientExchange` | exchange state, `Setup`, each event handler, `WaitForDone` |
| exchange_traces.dfy | `ExchangeTraces` | runs over event sequences, and what follows from the assumed transport ordering |
| client_response_listener.dfy | `ResponseListener` | `onComplete` and its agreement with the exchange path |
| logger.dfy | `Logging` | threshold, configuration directives, `LEVELS`, `add`/`write`/`puts` |

The exchange is an immutable record with these fields:

- its identity and phase (`Configured`, `InFlight`, `Completed`, `Expired`);
- the request it hands to the transport;
- the response being built;
- the error slot;
- a snapshot of the response at each callback call, in order;
- the owning client's set of outstanding exchanges. `@client.clear(self)` is
  modelled as removal from that set.

Each handler is a pure function from the old record to the new one. The
handlers have no phase guards, because the Ruby code has none. Nothing in the
code makes the callback run exactly once. The model therefore ASSUMES, as
`ExchangeTraces.TransportOrder`, that the transport delivers exactly one
terminal event and no header after it; `CallbackOnce`, `WellOrderedRun` and
the other run lemmas hold only under that assumption. Without a terminal
event the code does nothing final: an exchange that only ever receives
`on_exception` or `on_connection_failed` never runs its callback, stays in
its phase and stays in the client's outstanding set. `BeforeTerminal` and
`ErrorsOnly` state this. The source leaves that path open (its comment at
lib/mizuno/client_exchange.rb:7 asks what should happen on a timeout or
error), and only a later `wait_for_done` surfaces the captured error.

Things the transport supplies are inputs:

- what its URL setter made of the URL (the scheme, or the error it raised);
- the status and content it passes at completion;
- the errors it reports.

The user callback is a parameter `Response -> Option<Error>`: the error it
raises on a given response, if any. It is passed to the handlers that run it
and is not a field of the record, so that records can be compared for
equality.

`Submit` stands for the client handing a configured exchange to the
transport. `Mizuno::Client` is not part of this model, so that the client
records the exchange as outstanding at that point is an assumption (see
"Left out").

Readings of the code the model commits to:

- `wait_for_done` uses `throw`, not `raise`. `WaitForDone` returns
  `Thrown(tag)` with the captured error as the tag, rather than re-raising
  the error.
- The response class is not part of this model. Its `[]=` is assumed to
  overwrite, so the response's headers are a name-to-value map without
  insertion order.
- The logger tests in `spec/logger_spec.rb` call `Mizuno::Logger.configure(...)`. The code
  defines `initialize_logging`, which reads `Mizuno.log_options` and `$DEBUG`.
  Both of those become parameters of `Logging.Configuration`.
- `run_callback` calls the camel-case `onException`. The model assumes that
  JRuby dispatches this call to the Ruby `on_exception` override, so a
  callback error reaches the same first-write-wins slot.

## Model

| member | source | states |
|---|---|---|
| ClientExchange.MethodOf | lib/mizuno/client_exchange.rb:20 | the method is the given one upper-cased, `GET` when absent; it is always upper-case and equal to the given one ignoring case |
| Text.Upcase | lib/mizuno/client_exchange.rb:20 | upcasing keeps the length, leaves no lower-case letter and changes each character only by ASCII case |
| Text.UpcaseCaseInsensitive | lib/mizuno/client_exchange.rb:20 | two methods normalise to the same string exactly when they are equal ignoring case |
| Text.UpcaseIdempotent | lib/mizuno/client_exchange.rb:20 | an already upper-case method is unchanged, and normalising twice equals normalising once |
| ClientExchange.Setup | lib/mizuno/client_exchange.rb:15-27 | setup fails exactly when the URL setter raises, and then with that error; otherwise the response records the URL, `ssl` holds iff the scheme is `https`, and the request carries the normalised method and the option headers; a content source is set iff a body is given, and it holds all of the body's content; the caller's options come back with that body source read to its end and nothing else changed; no error, no delivery, registry untouched |
| ClientExchange.Read | lib/mizuno/client_exchange.rb:25 | `read` yields all that is left of the source and leaves it at its end |
| ClientExchange.SecondSetupSendsNothing | lib/mizuno/client_exchange.rb:24-26 | a second setup with the options the first returned sends an empty body, because the first `read` drained the source |
| ClientExchange.SetupRequestHeaders | lib/mizuno/client_exchange.rb:21-23 | each option header reaches the request with its last value; no header that the options do not name is set |
| Headers.PutAllLookup | lib/mizuno/client_exchange.rb:21-23 | applying headers in order leaves each name with the value of its last occurrence; names that do not occur keep their prior value |
| Headers.Put | lib/mizuno/client_exchange.rb:30 | setting a header stores its value under its name and keeps every other name's value |
| Responses.New | lib/mizuno/client_exchange.rb:17 | a new response holds the URL and nothing received yet |
| Responses.SetHeader | lib/mizuno/client_exchange.rb:30 | `[]=` stores the header and changes no other field |
| ClientExchange.OnResponseHeader | lib/mizuno/client_exchange.rb:29-31 | the header is stored under its name, overwriting an earlier one; other headers, other response fields and the rest of the exchange are unchanged |
| ClientExchange.Clear | lib/mizuno/client_exchange.rb:34 | the exchange is no longer in the client's registry; the registry loses only it, and nothing else changes |
| ClientExchange.RunCallback | lib/mizuno/client_exchange.rb:56-60 | the callback is called once, with the current response; an error it raises lands in the slot unless an error is already there; nothing else changes |
| ClientExchange.OnResponseComplete | lib/mizuno/client_exchange.rb:33-38 | the exchange leaves the registry and its response gets the transport's status and content, with timeout and all else untouched; that response is delivered to the callback once; phase `Completed` |
| ClientExchange.OnExpire | lib/mizuno/client_exchange.rb:40-46 | the exchange leaves the registry; the response gets timeout true, status -1 and no body and is delivered to the callback once; phase `Expired` |
| ClientExchange.Capture | lib/mizuno/client_exchange.rb:49 | `||=`: a held error stays, an empty slot takes the new error |
| ClientExchange.OnException | lib/mizuno/client_exchange.rb:48-50 | the first error is captured and a later one is ignored; neither the response nor the deliveries change |
| ClientExchange.OnConnectionFailed | lib/mizuno/client_exchange.rb:52-54 | behaves exactly like `on_exception`: same slot, same first-write-wins rule |
| ClientExchange.Step | lib/mizuno/client_exchange.rb:29-54 | no handler changes the identity or the request, adds to the registry, or replaces a held error |
| ClientExchange.WaitForDone | lib/mizuno/client_exchange.rb:62-65 | after the wait, it throws iff the slot is filled, with the captured error as the payload |
| ExchangeTraces.Run | lib/mizuno/client_exchange.rb:29-54 | over any event sequence, identity and request stay and the registry only shrinks; first write wins, so once an error is held no later event replaces it |
| ExchangeTraces.DeliveredPerTerminal | lib/mizuno/client_exchange.rb:33-46 | the callback runs once per terminal event, and the values recorded at earlier calls are kept as a prefix |
| ExchangeTraces.CallbackOnce | lib/mizuno/client_exchange.rb:37-45 | under the assumed transport ordering (one terminal event, no header after it) the callback is called exactly once |
| ExchangeTraces.BeforeTerminal | lib/mizuno/client_exchange.rb:29-31 | before any terminal event only headers accumulate, in arrival order; phase, registry and deliveries stay |
| ExchangeTraces.ErrorsOnly | lib/mizuno/client_exchange.rb:48-54 | error events change nothing but the error slot: they neither finish the response nor run the callback |
| ExchangeTraces.WellOrderedRun | lib/mizuno/client_exchange.rb:29-46 | a well-ordered run delivers exactly the reference response, which has the prior headers and the terminal event's status/body/timeout; it ends in that event's phase, out of the registry |
| ExchangeTraces.DeliveredHeader | lib/mizuno/client_exchange.rb:29-31 | the delivered response holds, under each name, the last value that arrived before the terminal event |
| ExchangeTraces.TerminalOutcome | lib/mizuno/client_exchange.rb:33-46 | completion delivers the transport's status and content and leaves the timeout flag; expiry delivers status -1, no body, timeout true; URL and `ssl` are kept |
| ExchangeTraces.FirstErrorSurfaces | lib/mizuno/client_exchange.rb:48-65 | the first exception or connection failure is what a later wait throws, whatever follows it |
| ExchangeTraces.CallbackErrorSurfaces | lib/mizuno/client_exchange.rb:56-65 | a callback that raises does not stop the run; a later wait throws its error when no transport error came first |
| ResponseListener.BuildResponse | lib/mizuno/client_response_listener.rb:20-23 | the URL is the request URI; `ssl` holds iff the request scheme is `https`; status is the transport response's status; body is the buffered content |
| ResponseListener.OnComplete | lib/mizuno/client_response_listener.rb:14-26 | the superclass completion is recorded first; then the callback is called once, with the freshly built response; what the callback raises propagates |
| ResponseListener.OnCompleteCallsOnce | lib/mizuno/client_response_listener.rb:25 | each `onComplete` adds exactly one callback call |
| ResponseListener.AgreesWithExchange | lib/mizuno/client_response_listener.rb:20-23 | for the same URI, scheme, status and content, the listener builds the response that a header-less exchange completion delivers |
| Logging.Levels | lib/mizuno/logger.rb:7-13 | exactly the five severities 0..4 have a log4j level; any other severity has none |
| Logging.LevelsKeepNames | lib/mizuno/logger.rb:7-13 | each listed Ruby severity maps to the log4j level of the same name |
| Logging.LevelsInjective | lib/mizuno/logger.rb:7-13 | distinct severities map to distinct levels |
| Logging.Threshold | lib/mizuno/logger.rb:23-24 | DEBUG iff `$DEBUG` or `debug`; otherwise WARN iff `warn`; otherwise ERROR |
| Logging.Configuration | lib/mizuno/logger.rb:26-52 | nothing is produced iff the `log4j` option is set; otherwise the base section, at the chosen level, comes first |
| Logging.ConfigurationContents | lib/mizuno/logger.rb:28-47 | root category, jetty logger and appender threshold share the chosen level; without `log` the appender is the console one with `%m\n`, with `log` the file one with `Append = true`, `File = <path>` and `%d %p %m\n`; exactly six lines (base plus console section) or eight (base plus file section), no key repeated |
| Logging.Add | lib/mizuno/logger.rb:72-75 | logs at `LEVELS[severity]` the message if present, else a non-nil block result, else the program name; the content is nil only when all three are absent |
| Logging.Write | lib/mizuno/logger.rb:81-83 | logs the message as is, at INFO |
| Logging.Puts | lib/mizuno/logger.rb:77-79 | logs the stringified message at INFO, so some text is always logged (`""` for nil) |
| Logging.SeverityMethodsLogText | spec/logger_spec.rb:16-49 | `debug`/`info`/`warn`/`error`/`fatal` with a text log that text at the same-named log4j level |

## Left out

- Jetty and the JVM: `ContentExchange`, `FutureResponseListener`, log4j's `Properties` and `PropertyConfigurator`, `java_import`. Their getters (`getScheme`, `getResponseStatus`, `getResponseContent`, `result.request`/`response`, the buffered `content`) are inputs; the configuration is modelled as the lines of its text, where the last line for a key wins (`Logging.Lookup`); applying the configuration to log4j is not modelled.
- The blocking part of `wait_for_done` (`super`): `WaitForDone` describes the state once that wait has returned.
- `Mizuno::Client` (request, stop, the shared default client) and the response class: not part of this model. The registry is a plain set. `clear` is removal from it, and nothing is claimed about its idempotence or thread safety. The response's `success?` and `chunked?` predicates are not modelled.
- Concurrency: handlers run one after another. First-write-wins under truly concurrent writers, and several exchanges interleaving on one client, are not modelled.
- `require_jars`, `import_logging_classes`, the `Logger.logger` singleton, `initialize` (fetching the `ruby` log4j logger), and the no-op `flush`/`close`: loading, lookup and no-ops with nothing to state.
- ClientExchange.MethodOf: Ruby's `String#upcase` also maps non-ASCII letters; the model upper-cases ASCII letters only.
- ClientExchange.OnResponseHeader: `name.to_s`/`value.to_s` are taken as already strings.
- ClientExchange.SetupRequestHeaders: request header names are compared exactly, without the transport's case-insensitive matching of header names.
- ClientExchange.Submit: registering the exchange as outstanding when it is handed to the transport is an assumption about the client, which is not part of this model; the only code shown for the exchange's client is `@client = client` (lib/mizuno/client_exchange.rb:12).
- ClientExchange.RunCallback: `rescue => error` catches only `StandardError`; the model routes every error the callback raises into the slot.
- ClientExchange.RunCallback: the source passes the exchange's one mutable response object to every call, so later handlers (a header at lib/mizuno/client_exchange.rb:30, an expiry at lines 42-44) change what an earlier call's callback holds; `delivered` records only the response's value at each call.
- ClientExchange.RunCallback: the callback is modelled as free of effects apart from the error it raises; a real callback can use the shared client (for example, to issue a follow-up request), so the registry could grow during a run, and `ExchangeTraces.Run`'s "the registry only shrinks" holds only under that restriction.
- ClientExchange.RunCallback: `setup` without a block leaves `@callback` nil, so `@callback.call` raises `NoMethodError` into the slot and nothing is delivered; the model always has a callback and always records a delivery.
- Ruby truthiness of `false` option values and non-string messages: options are booleans or absent strings, messages are strings or nil.
- Logging.ConfigurationContents: the log path is interpolated into properties text that `Properties.load` then parses, but the model keeps it as one verbatim line. For paths with special characters the statements about the loaded result do not hold of the source: a line break in the path splits it into further lines, which can set any key (`log4j.rootCategory`, say); a backslash is an escape (`C:\logs\app.log` loads as `C:logsapp.log`); and a trailing backslash joins the `File` line with the next, so the file pattern is never set.
- ClientExchange.Setup: the source's "call exactly once, before submission" discipline is not enforced; nothing rejects a second setup.
- ClientExchange.Setup: a `read` that raises (on a closed stream, say) makes the source's setup raise; the model's body source always reads successfully, so its setup fails only when the URL setter raises.
- ResponseListener.OnComplete: a listener built without a block has a nil `@callback`, so `@callback.call` raises `NoMethodError` and no callback runs; the model always has a callback and records the call.
- ResponseListener.OnCompleteCallsOnce: for the same reason, "exactly one callback call per `onComplete`" holds only for a listener given a block.
