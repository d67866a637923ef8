# JSON-RPC over WebSockets: the correlation engine and the subscriber list

This project models, in Dafny, the core of a Swift client for JSON-RPC 2.0 over one WebSocket
connection:

- **`Client`** (`Client.swift`, the final variant). `call` builds a request envelope with a fresh id,
  schedules a one-shot timeout timer, stores a `ReceivableSubscriber` (timer plus response closure)
  in `receivableSubscribers` under the id, and sends the request. Every inbound string message is
  offered to every stored closure. A closure whose document decodes as its `Response<U>` and carries
  its own id invalidates its timer, removes its entry and invokes the caller's completion with the
  result. A timer that fires removes its entry and never invokes the completion. `subscribe`, `on`
  and `unsubscribe` maintain `notificationSubscribers`, an array with at most one entry per method.
- **`JSONRPCClient`** (`JSONRPCClient.swift`, the earlier variant): the same map of response
  closures with no timer, so an entry leaves only when its response arrives.
- **`Request`** (`Request.swift`): the JSON-RPC 2.0 request object (section 4 of the JSON-RPC 2.0
  specification) with the tag `"2.0"`, a generated id, the method and the parameters.

Layout, one module per file:

| file | module | models |
|---|---|---|
| `wrappers.dfy` | `Wrappers` | `Option`, `Outcome`, `Result` |
| `json_data.dfy` | `JsonData` | JSON documents and the `Decodable` types a payload may have |
| `envelope.dfy` | `Envelope` | `Request.init`, the `Response<U>` decoder, WebSocket messages |
| `correlation.dfy` | `Correlation` | the decision of a call's response closure (shared by both clients) |
| `subscriptions.dfy` | `Subscriptions` | `subscribe`, `on`, `unsubscribe` and the closure `on` installs |
| `client_engine.dfy` | `ClientEngine` | `Client`'s registry as a state machine with events call / timeout / receive |
| `client.dfy` | `WebSocketClient` | class `Client`, each method proved equal to an engine step |
| `legacy_engine.dfy` | `LegacyEngine` | `JSONRPCClient`'s registry as a state machine with events call / receive |
| `legacy_client.dfy` | `LegacyClient` | class `JSONRPCClient`, each method proved equal to an engine step |

Modelling choices:

- The caller's completion closures are recorded, not run: each invocation appends a `Completion(id,
  result)` to the `completions` log. "Completes at most once" is a statement about that log.
- A timer is an id in `scheduledTimers` while it is scheduled and has neither fired nor been
  invalidated. The timer firing is the explicit event `FireTimer(id)` / `Timeout(id)`.
- `UUID()` is a caller-supplied `freshId`. Its uniqueness is the precondition `freshId !in issuedIds`,
  where the ghost set `issuedIds` holds every id generated so far.
- `forEach` over a Swift dictionary iterates a copy of it, so the closures a message reaches are those
  registered when the dispatch runs (the `Receive` event). In `Client` that is when the block queued on
  the main queue runs, not when the message arrived. The `Receive` methods loop over that snapshot in an arbitrary order.
  They are proved to have the effect of `Dispatch`, a keyed lookup of the response's id. Under the
  invariant, at most one closure can take a given document.
- Each class's `Valid()` is the engine invariant: every entry is keyed by its own request id, the
  scheduled timers are exactly the pending calls, and a completed call is no longer pending. In
  `Client` it also requires at most one subscriber per method.

The code is modelled where it differs from the library's intended design. A request that cannot be
encoded stops the program (`fatalError`); no error is returned. A send error is only printed. The
receive loop offers messages to the response closures only; no notification handler is ever
invoked.

## Model

| member | source | states |
|---|---|---|
| `Envelope.NewRequest` | Sources/JSONRPCWebSockets/Request.swift:16-21 | a built request has tag "2.0", carries an id (so the `if let id` branches of `call` are always taken), and stores method and params as passed |
| `Envelope.RequestDocument` | Sources/JSONRPCWebSockets/Request.swift:10-14 | the wire form of a request is an object holding only the members jsonrpc, method and params, plus id exactly when the request has one, each with the stored value; `Envelope.NewRequestDocument` states it for a request built by `init` |
| `Envelope.NewRequestDocument` | Sources/JSONRPCWebSockets/Request.swift:10-21 | the wire form of a built request is an object with exactly the members jsonrpc, id, method and params, the id as a string |
| `Envelope.DecodeResponse` | Sources/JSONRPCWebSockets/JSONRPCResponse.swift:10-14 | decoding succeeds iff the document is an object with string `jsonrpc` and `id` members and a `result` member that is missing, null or a value of the expected type; the decoded tag and id are the document's, and the decoded result is its `result` member, None when missing or null |
| `Correlation.RejectsNonConformingResult` | Sources/JSONRPCWebSockets/Client.swift:43 | a response for the call's id whose result is neither null nor a value of the expected type `U` is never taken |
| `Correlation.RejectsIntOutOfRange` | Sources/JSONRPCWebSockets/Client.swift:43 | for an `Int` call, a response whose result is a number outside the 64-bit signed range is never taken, whatever that number is |
| `Correlation.RejectsNonConformingElement` | Sources/JSONRPCWebSockets/JSONRPCClient.swift:34 | for an `[E]` call, a response whose array result has any one element that is not an `E` is never taken |
| `Envelope.ResponseRoundTrip` | Sources/JSONRPCWebSockets/JSONRPCResponse.swift:10-14 | decoding a response's wire form gives the response back exactly when its result is absent or of the expected type |
| `Correlation.Accept` | Sources/JSONRPCWebSockets/Client.swift:43-44 | a response closure takes a document iff it decodes as `Response<U>` and carries the closure's own id; it then completes with the decoded result |
| `Correlation.AcceptsOwnResponse` | Sources/JSONRPCWebSockets/JSONRPCClient.swift:34-42 | the response built for a call's id, with a result of the expected type, is taken with exactly that result |
| `Correlation.IgnoresOtherIds` | Sources/JSONRPCWebSockets/JSONRPCClient.swift:35 | a response for any other id is never taken |
| `Subscriptions.FirstIndex` | Sources/JSONRPCWebSockets/Client.swift:79 | the result is the first index whose entry is for the method, and None iff no entry is |
| `Subscriptions.Subscribe` | Sources/JSONRPCWebSockets/Client.swift:69-76 | throws `duplicateSubscription` iff an entry for the method exists, leaving the list as it was; otherwise appends one entry without a handler and keeps one entry per method |
| `Subscriptions.On` | Sources/JSONRPCWebSockets/Client.swift:78-96 | without an entry for the method nothing changes; otherwise only the entry for the method changes, and it gets the new handler; the methods of all entries stay |
| `Subscriptions.Unsubscribe` | Sources/JSONRPCWebSockets/Client.swift:98-102 | removes the first entry for the method, or nothing if there is none; with one entry per method, none for the method remains and uniqueness is kept |
| `Subscriptions.CapturedIndexOutcome` | Sources/JSONRPCWebSockets/Client.swift:80-94 | the installed closure delivers iff the document decodes as `T` and the entry at its captured index is for its method; it traps iff the document decodes and the index is out of range |
| `Subscriptions.CapturedIndexGoesStale` | Sources/JSONRPCWebSockets/Client.swift:79-101 | after `on("b")` and `unsubscribe("a")` the handler for "b" traps; after "a" subscribes again it ignores documents although "b" is still subscribed |
| `Subscriptions.GuardIgnoresDocumentMethod` | Sources/JSONRPCWebSockets/Client.swift:86-89 | the guard never looks at the document: a notification for "a" that decodes as the payload type of "b" is delivered to the handler for "b"; the corrected handler ignores it |
| `Subscriptions.MethodLookupOutcome` | Sources/JSONRPCWebSockets/Client.swift:86-93 | corrected handler: never traps, and delivers iff the document decodes as `T`, its `method` member is the handler's method, and that method is subscribed |
| `Subscriptions.LookupAgreesWhileIndexHolds` | Sources/JSONRPCWebSockets/Client.swift:86-89 | for a document of the handler's method, while the captured index still points at that method, the corrected and the written handler agree |
| `Subscriptions.LookupSurvivesUnsubscribe` | Sources/JSONRPCWebSockets/Client.swift:98-101 | unsubscribing another method does not stop the corrected handler from delivering documents of its method |
| `ClientEngine.CallStep` | Sources/JSONRPCWebSockets/Client.swift:28-67 | after a call the registry holds the new id with the call's closure and timer, every earlier entry is unchanged, the timer is scheduled, the request with that id is sent and no completion runs |
| `ClientEngine.TimeoutStep` | Sources/JSONRPCWebSockets/Client.swift:35-40 | a fired timer removes only its id from both the entries and the scheduled timers, never invokes a completion, and is a no-op for an id already removed |
| `ClientEngine.MatchingKey` | Sources/JSONRPCWebSockets/Client.swift:115-117 | the matching entry is registered, takes the document and is keyed by the document's id; under the invariant it is the only entry that takes it |
| `ClientEngine.Dispatch` | Sources/JSONRPCWebSockets/Client.swift:115-117 | offering a document to the registered closures (each one as in lines 43-52) only removes entries, never changes one that stays, appends at most one completion, and that one exactly when a registered closure takes the document; sent requests and ids are unchanged. `ClientEngine.DispatchConsumesMatch` says which entry goes and with what result |
| `ClientEngine.DispatchConsumesMatch` | Sources/JSONRPCWebSockets/Client.swift:43-52 | a response for a registered id removes exactly that entry and its timer, leaves all other entries and timers, completes the call once with the response's result, and sends nothing |
| `ClientEngine.DispatchIgnoresUnmatched` | Sources/JSONRPCWebSockets/Client.swift:43-44 | a document that is not a response, has an unregistered id, or no closure can decode changes nothing |
| `ClientEngine.DispatchIdempotent` | Sources/JSONRPCWebSockets/Client.swift:50-52 | a second identical response completes nothing |
| `ClientEngine.ReceiveStep` | Sources/JSONRPCWebSockets/Client.swift:105-125 | a data message or a failed receive leaves the state as it was; any completion of `receive` only removes entries and appends at most one completion |
| `ClientEngine.OnlyStringMessagesDispatched` | Sources/JSONRPCWebSockets/Client.swift:108-125 | data messages and receive failures reach no closure |
| `ClientEngine.Step` | Sources/JSONRPCWebSockets/Client.swift:28-129 | each event appends at most one completion and never rewrites earlier ones |
| `ClientEngine.Run` | Sources/JSONRPCWebSockets/Client.swift:28-129 | over any event sequence the completion log only grows |
| `ClientEngine.StepPreservesInv` | Sources/JSONRPCWebSockets/Client.swift:35-59 | every event keeps: keys equal ids, timers scheduled exactly for pending calls, completed calls not pending and distinct |
| `ClientEngine.RunPreservesInv` | Sources/JSONRPCWebSockets/Client.swift:35-59 | the invariant holds after any admissible event sequence |
| `ClientEngine.CompletionsAtMostOnce` | Sources/JSONRPCWebSockets/Client.swift:47-52 | whatever happens, no call's completion is invoked twice |
| `ClientEngine.RemovedCallNeverCompletes` | Sources/JSONRPCWebSockets/Client.swift:35-52 | once a call's entry is gone, by response or by timeout, it is never registered again and never completes again |
| `ClientEngine.EntryLeavesOnlyByResponseOrTimeout` | Sources/JSONRPCWebSockets/Client.swift:35-52 | a registered entry leaves only by its own timer or by a response that completes it |
| `ClientEngine.CallThenResponse` | Sources/JSONRPCWebSockets/Client.swift:28-59 | a call and its response complete the call once with the result and leave the registry and timers as before; a repeat is ignored |
| `ClientEngine.CallThenTimeout` | Sources/JSONRPCWebSockets/Client.swift:35-40 | a call whose timer fires leaves the registry as before, never completes, and its late response is ignored |
| `WebSocketClient.Client.constructor` | Sources/JSONRPCWebSockets/Client.swift:16-17 | a new client has no pending calls, no timers, no subscribers |
| `WebSocketClient.Client.Call` | Sources/JSONRPCWebSockets/Client.swift:28-67 | the new state is `CallStep` of the old one; the subscriber list is untouched; `Valid` is kept |
| `WebSocketClient.Client.FireTimer` | Sources/JSONRPCWebSockets/Client.swift:35-40 | the new state is `TimeoutStep` of the old one |
| `WebSocketClient.Client.RunReceivable` | Sources/JSONRPCWebSockets/Client.swift:42-55 | a registered closure either leaves everything unchanged or removes its own entry and timer and appends exactly one completion with the decoded result |
| `WebSocketClient.Client.Receive` | Sources/JSONRPCWebSockets/Client.swift:104-129 | offering a string message to every registered closure, in any order, has the effect of `Dispatch`; other messages change nothing |
| `WebSocketClient.Client.Subscribe` | Sources/JSONRPCWebSockets/Client.swift:69-76 | returns the error and changes nothing on a duplicate, otherwise the list is `Subscriptions.Subscribe` of the old one |
| `WebSocketClient.Client.On` | Sources/JSONRPCWebSockets/Client.swift:78-96 | the list becomes `Subscriptions.On` of the old one; the call registry is untouched |
| `WebSocketClient.Client.Unsubscribe` | Sources/JSONRPCWebSockets/Client.swift:98-102 | the list becomes `Subscriptions.Unsubscribe` of the old one; the call registry is untouched |
| `LegacyEngine.CallStep` | Sources/JSONRPCWebSockets/JSONRPCClient.swift:26-53 | after a call `receivables` holds the new id with its closure, all other keys are unchanged, the request is sent and no completion runs |
| `LegacyEngine.MatchingKey` | Sources/JSONRPCWebSockets/JSONRPCClient.swift:64-66 | the matching entry is registered, takes the document and is keyed by its id; under the invariant it is the only one |
| `LegacyEngine.Dispatch` | Sources/JSONRPCWebSockets/JSONRPCClient.swift:64-66 | offering a document to the registered closures (each one as in lines 34-42) only removes keys, never changes one that stays, appends at most one completion, and that one exactly when a registered closure takes the document; `LegacyEngine.DispatchConsumesMatch` says which key goes and with what result |
| `LegacyEngine.DispatchConsumesMatch` | Sources/JSONRPCWebSockets/JSONRPCClient.swift:34-42 | a response for a registered id removes exactly that key and completes it with the response's result |
| `LegacyEngine.DispatchIgnoresUnmatched` | Sources/JSONRPCWebSockets/JSONRPCClient.swift:34-35 | an undecodable document or an unregistered id leaves `receivables` unchanged |
| `LegacyEngine.DispatchIdempotent` | Sources/JSONRPCWebSockets/JSONRPCClient.swift:37 | a second response with an already-consumed id reaches no completion |
| `LegacyEngine.ReceiveStep` | Sources/JSONRPCWebSockets/JSONRPCClient.swift:56-72 | a data message or a failed receive leaves the state as it was; any completion of `receive` only removes keys and appends at most one completion |
| `LegacyEngine.OnlyStringMessagesDispatched` | Sources/JSONRPCWebSockets/JSONRPCClient.swift:59-72 | data messages and receive failures reach no closure |
| `LegacyEngine.Step` | Sources/JSONRPCWebSockets/JSONRPCClient.swift:26-77 | each event appends at most one completion and never rewrites earlier ones |
| `LegacyEngine.Run` | Sources/JSONRPCWebSockets/JSONRPCClient.swift:26-77 | over any event sequence the completion log only grows |
| `LegacyEngine.StepPreservesInv` | Sources/JSONRPCWebSockets/JSONRPCClient.swift:33-45 | every event keeps: keys equal ids, completed calls not pending and distinct |
| `LegacyEngine.RunPreservesInv` | Sources/JSONRPCWebSockets/JSONRPCClient.swift:33-45 | the invariant holds after any admissible event sequence |
| `LegacyEngine.CompletionsAtMostOnce` | Sources/JSONRPCWebSockets/JSONRPCClient.swift:37-42 | whatever happens, no call's completion is invoked twice |
| `LegacyEngine.EntryLeavesOnlyByResponse` | Sources/JSONRPCWebSockets/JSONRPCClient.swift:26-53 | with no timeout, a registered entry leaves only by a response that completes it |
| `LegacyEngine.CallThenResponse` | Sources/JSONRPCWebSockets/JSONRPCClient.swift:26-45 | a call and its response complete the call once and leave `receivables` as before; a repeat is ignored |
| `LegacyClient.JSONRPCClient.constructor` | Sources/JSONRPCWebSockets/JSONRPCClient.swift:15 | a new client has no receivables |
| `LegacyClient.JSONRPCClient.Call` | Sources/JSONRPCWebSockets/JSONRPCClient.swift:26-53 | the new state is `LegacyEngine.CallStep` of the old one; `Valid` is kept |
| `LegacyClient.JSONRPCClient.RunReceivable` | Sources/JSONRPCWebSockets/JSONRPCClient.swift:33-45 | a registered closure either changes nothing or removes its own key and appends exactly one completion with the decoded result |
| `LegacyClient.JSONRPCClient.Receive` | Sources/JSONRPCWebSockets/JSONRPCClient.swift:55-77 | offering a string message to every registered closure, in any order, has the effect of `LegacyEngine.Dispatch`; other messages change nothing |

## Findings

| source | as written | input that shows it | evidently intended | confidence | as-written member | corrected member |
|---|---|---|---|---|---|---|
| Sources/JSONRPCWebSockets/Client.swift:79-89 | the closure `on` installs captures the array index of its entry and reads `notificationSubscribers[index]` when it runs | subscribe "a", subscribe "b", `on("b")` (index 1), unsubscribe "a": the list has one entry, so reading index 1 traps; after subscribing "a" again, index 1 is "a" and the handler for "b" ignores every document | the handler neither traps nor goes silent when an earlier entry is removed: it finds its method wherever its entry now sits (this row is about the stale index only) | medium, not executed; the receive loop of this file never invokes these handlers, so the fault is latent | `Subscriptions.CapturedIndexOutcome`, `Subscriptions.CapturedIndexGoesStale` | `Subscriptions.MethodLookupOutcome` |
| Sources/JSONRPCWebSockets/Client.swift:86-89 | the guard commented "two methods point to one type" compares the entry's method with the method the handler was installed for, which are equal whenever the index is accurate | subscribe "b" with a struct payload type, `on("b")`; the document `{"jsonrpc":"2.0","method":"a"}` decodes as that type and is delivered to the handler for "b" | the guard compares the document's `method` member with the handler's method, so a notification for another method with the same payload type is ignored | low, not executed; the intent is read from the comment, and these handlers are never invoked | `Subscriptions.CapturedIndexOutcome`, `Subscriptions.GuardIgnoresDocumentMethod` | `Subscriptions.MethodLookupOutcome` |

## Left out

- `NativeWebSocket.swift` and `WebSocketProvider.swift`: socket lifecycle, the self-re-arming receive, the keepalive ping and the delegate callbacks are I/O around a platform API. Each `Inbound` value stands for one completion of `receive`; the re-arm is not modelled.
- `connect` and the `didOpenWithProtocol` callback: URLSession setup. The model assumes the socket task exists, so `webSocketTask?.send` always records the request in `sent`.
- JSON encoding and decoding are foreign library calls. Inbound text is an already parsed `Document`; text that is not JSON is `None`. Numbers are integers, so floating-point results are not modelled.
- JsonData.Conforms: a `Codable` struct type is approximated by "any object" (`ObjectPayload`). Its member names and types are not checked, so `DecodeResponse` and `Accept` may accept a result object that `JSONDecoder` would reject for a given struct.
- Subscriptions.FirstIndex, Subscriptions.Subscribe, Subscriptions.On and Subscriptions.Unsubscribe compare method names code point by code point. Swift's `String ==` (Client.swift lines 71, 79, 87 and 99) compares by Unicode canonical equivalence. Names that differ only in normalization, such as "\u{E9}" and "e\u{301}", are one method in Swift and two in the model. Request ids are ASCII UUIDs, so id matching is unaffected.
- The `fatalError` on a request that cannot be encoded is not modelled, because a `Json` value always encodes. The `fatalError` in the plain `default:` branch for other message kinds (`Client.swift` line 120, `JSONRPCClient.swift` line 68) is not modelled either, because `Message` has only the two known cases.
- `UUID()`: the id is a caller-supplied `freshId`, required to be new. `JSONRPCRequest` is not part of this model; the earlier client is modelled as sending the same envelope as `Request.init`.
- `Response<U>`, decoded in `Client.swift` line 43, is not declared in any of this model's source files. The model assumes it has the shape of `JSONRPCResponse<T>` (`JSONRPCResponse.swift` lines 10-14): a string `jsonrpc`, a string `id` and an optional `result`. `ReceivableSubscriber`, `NotificationSubscriber` and `ClientError` are not part of this model's source files either. They are modelled from how `Client.swift` uses them.
- Timer intervals and the passage of time: a timer firing is an explicit event. The interval is stored and does not constrain when the event happens.
- `DispatchQueue.main.async` hops and the concurrent receive thread of `JSONRPCClient`: all events are sequential. Races between them are not modelled.
- Caller completions and notification handlers are never executed. A completion invocation is a log entry. A notification handler's behaviour is a function of the list and a document (`CapturedIndexOutcome`), and nothing calls it, as in the source.
- `print`/`debugPrint` logging and send-error reporting.
- The type parameter of `subscribe(to:type:)` is unused by its body and is dropped.
