/**
 * The correlation engine of `Client` as a state machine over values: the registry of pending
 * calls keyed by request id, the timers those calls scheduled, and the events that change
 * them (a call, a timer firing, an inbound message).
 */
module ClientEngine {
  import opened Wrappers
  import opened JsonData
  import opened Envelope
  import opened Correlation

  /** The timeout, in seconds, of a call whose caller gives none. */
  const DefaultTimeout: real := 5.0

  /** A one-shot `Timer` and its interval in seconds. */
  datatype Timer = Timer(interval: real)

  /** `ReceivableSubscriber`: a pending call's timeout timer and its response closure. */
  datatype ReceivableSubscriber = ReceivableSubscriber(timer: Timer, completion: ResponseHandler)

  /**
   * The engine's state. `scheduledTimers` holds the ids whose timer is scheduled and has neither
   * fired nor been invalidated; `completions` every invocation of a caller's completion, in order;
   * `sent` every request handed to the socket; `issued` every id generated so far.
   */
  datatype State = State(
    receivableSubscribers: map<string, ReceivableSubscriber>,
    scheduledTimers: set<string>,
    completions: seq<Completion>,
    sent: seq<Request>,
    issued: set<string>)

  /** The state before the first call. */
  const Initial := State(map[], {}, [], [], {})

  /**
   * Every entry is keyed by its own request id, a timer is scheduled exactly for the pending
   * calls, and a completed call is no longer pending and has completed once.
   */
  ghost predicate Inv(s: State)
  {
    && (forall k :: k in s.receivableSubscribers ==> s.receivableSubscribers[k].completion.requestId == k)
    && s.scheduledTimers == s.receivableSubscribers.Keys
    && s.receivableSubscribers.Keys <= s.issued
    && (forall i :: 0 <= i < |s.completions| ==>
          s.completions[i].requestId in s.issued && s.completions[i].requestId !in s.receivableSubscribers)
    && DistinctCompletions(s.completions)
  }

  /**
   * `call(method:params:response:timeout:completion:)` with the generated id `freshId`: build the
   * request, schedule its timer, register its closure under the id and send the request.
   */
  function CallStep(s: State, freshId: string, methodName: string, params: Json, expected: PayloadType, timeout: real): (s': State)
    requires freshId !in s.issued
    ensures s'.receivableSubscribers.Keys == s.receivableSubscribers.Keys + {freshId}
    ensures s'.receivableSubscribers[freshId].completion == ResponseHandler(freshId, expected)
    ensures s'.receivableSubscribers[freshId].timer == Timer(timeout)
    ensures Inv(s) ==> forall k :: k in s.receivableSubscribers ==> s'.receivableSubscribers[k] == s.receivableSubscribers[k]
    ensures s'.scheduledTimers == s.scheduledTimers + {freshId}
    ensures s'.completions == s.completions
    ensures s'.sent == s.sent + [NewRequest(methodName, params, freshId)]
    ensures s'.issued == s.issued + {freshId}
  {
    var request := NewRequest(methodName, params, freshId);
    var receivable := ReceivableSubscriber(Timer(timeout), ResponseHandler(request.id.value, expected));
    State(s.receivableSubscribers[request.id.value := receivable],
          s.scheduledTimers + {request.id.value},
          s.completions,
          s.sent + [request],
          s.issued + {request.id.value})
  }

  /** The timer of call `id` fires: its entry, if still there, is removed and no completion runs. */
  function TimeoutStep(s: State, id: string): (s': State)
    ensures id !in s'.receivableSubscribers && id !in s'.scheduledTimers
    ensures forall k :: k != id ==> (k in s'.receivableSubscribers <==> k in s.receivableSubscribers)
    ensures forall k :: k in s'.receivableSubscribers ==> s'.receivableSubscribers[k] == s.receivableSubscribers[k]
    ensures s'.scheduledTimers == s.scheduledTimers - {id}
    ensures s'.completions == s.completions && s'.sent == s.sent && s'.issued == s.issued
    ensures Inv(s) && id !in s.receivableSubscribers ==> s' == s
  {
    s.(receivableSubscribers := s.receivableSubscribers - {id}, scheduledTimers := s.scheduledTimers - {id})
  }

  /** The registered entry whose closure takes `doc`, if any. */
  function MatchingKey(s: State, doc: Document): (r: Option<string>)
    ensures r.Some? ==> r.value in s.receivableSubscribers && Accept(s.receivableSubscribers[r.value].completion, doc).Some?
    ensures r.Some? ==> ResponseId(doc) == r
    ensures Inv(s) ==> forall k :: k in s.receivableSubscribers && Accept(s.receivableSubscribers[k].completion, doc).Some? ==> r == Some(k)
  {
    match ResponseId(doc)
    case None => None
    case Some(k) =>
      if k in s.receivableSubscribers && Accept(s.receivableSubscribers[k].completion, doc).Some? then Some(k) else None
  }

  /**
   * The net effect of offering `doc` to every registered closure: the one entry whose closure
   * takes it is removed, its timer invalidated and its completion invoked with the decoded result.
   */
  function Dispatch(s: State, doc: Document): (s': State)
    ensures s'.sent == s.sent && s'.issued == s.issued
    ensures s'.receivableSubscribers.Keys <= s.receivableSubscribers.Keys
    ensures forall k :: k in s'.receivableSubscribers ==> s'.receivableSubscribers[k] == s.receivableSubscribers[k]
    ensures s.completions <= s'.completions && |s'.completions| <= |s.completions| + 1
    ensures |s'.completions| == |s.completions| + 1 <==> MatchingKey(s, doc).Some?
    ensures MatchingKey(s, doc).Some? ==> s'.completions[|s.completions|].requestId == MatchingKey(s, doc).value
    ensures MatchingKey(s, doc).None? ==> s' == s
  {
    match MatchingKey(s, doc)
    case None => s
    case Some(k) =>
      s.(receivableSubscribers := s.receivableSubscribers - {k},
         scheduledTimers := s.scheduledTimers - {k},
         completions := s.completions + [Completion(k, Accept(s.receivableSubscribers[k].completion, doc).value)])
  }

  /** One completion of the socket's `receive`: only string messages reach the closures. */
  function ReceiveStep(s: State, inbound: Inbound): (s': State)
    ensures !(inbound.Received? && inbound.message.StringMessage?) ==> s' == s
    ensures s'.sent == s.sent && s'.issued == s.issued
    ensures s'.receivableSubscribers.Keys <= s.receivableSubscribers.Keys
    ensures s.completions <= s'.completions && |s'.completions| <= |s.completions| + 1
  {
    match inbound
    case Received(StringMessage(doc)) => Dispatch(s, doc)
    case _ => s
  }

  /**
   * A response carrying a registered id, decoding as that call's `Response<U>`, removes exactly
   * that entry and its timer and completes the call once with the response's result.
   */
  lemma DispatchConsumesMatch(s: State, doc: Document, k: string, response: Response)
    requires Inv(s) && k in s.receivableSubscribers
    requires DecodeResponse(doc, s.receivableSubscribers[k].completion.expected) == Some(response)
    requires response.id == k
    ensures var s' := Dispatch(s, doc);
            && k !in s'.receivableSubscribers && k !in s'.scheduledTimers
            && (forall j :: j != k ==> (j in s'.receivableSubscribers <==> j in s.receivableSubscribers))
            && (forall j :: j in s'.receivableSubscribers ==> s'.receivableSubscribers[j] == s.receivableSubscribers[j])
            && s'.scheduledTimers == s.scheduledTimers - {k}
            && s'.completions == s.completions + [Completion(k, response.result)]
            && s'.sent == s.sent && s'.issued == s.issued
  {
  }

  /**
   * A document that is not a response, or whose id is not registered, or that no registered
   * closure can decode, changes nothing and completes nothing.
   */
  lemma DispatchIgnoresUnmatched(s: State, doc: Document)
    ensures ResponseId(doc).None? ==> Dispatch(s, doc) == s
    ensures ResponseId(doc).Some? && ResponseId(doc).value !in s.receivableSubscribers ==> Dispatch(s, doc) == s
    ensures (forall k :: k in s.receivableSubscribers ==> DecodeResponse(doc, s.receivableSubscribers[k].completion.expected).None?)
            ==> Dispatch(s, doc) == s
  {
  }

  /** The same document dispatched twice completes nothing the second time. */
  lemma DispatchIdempotent(s: State, doc: Document)
    ensures Dispatch(Dispatch(s, doc), doc) == Dispatch(s, doc)
  {
  }

  /** Data messages and receive failures reach no closure. */
  lemma OnlyStringMessagesDispatched(s: State, inbound: Inbound)
    requires !(inbound.Received? && inbound.message.StringMessage?)
    ensures ReceiveStep(s, inbound) == s
  {
  }

  /** The events that drive the engine. */
  datatype Event =
    | Call(freshId: string, methodName: string, params: Json, expected: PayloadType, timeout: real)
    | Timeout(id: string)
    | Receive(inbound: Inbound)

  /** A call needs an id never generated before. */
  predicate Enabled(s: State, e: Event)
  {
    e.Call? ==> e.freshId !in s.issued
  }

  function Step(s: State, e: Event): (s': State)
    requires Enabled(s, e)
    ensures s.completions <= s'.completions && |s'.completions| <= |s.completions| + 1
    ensures s.issued <= s'.issued
  {
    match e
    case Call(id, m, p, t, timeout) => CallStep(s, id, m, p, t, timeout)
    case Timeout(id) => TimeoutStep(s, id)
    case Receive(inbound) => ReceiveStep(s, inbound)
  }

  /** Every call in `evs` has a fresh id when it happens. */
  predicate Admissible(s: State, evs: seq<Event>)
    decreases |evs|
  {
    |evs| == 0 || (Enabled(s, evs[0]) && Admissible(Step(s, evs[0]), evs[1..]))
  }

  /** The state after the events `evs`. */
  function Run(s: State, evs: seq<Event>): (s': State)
    requires Admissible(s, evs)
    ensures s.completions <= s'.completions
    ensures s.issued <= s'.issued
    decreases |evs|
  {
    if |evs| == 0 then s else Run(Step(s, evs[0]), evs[1..])
  }

  lemma StepPreservesInv(s: State, e: Event)
    requires Inv(s) && Enabled(s, e)
    ensures Inv(Step(s, e))
  {
  }

  /** The invariant holds after any admissible sequence of events. */
  lemma {:induction false} RunPreservesInv(s: State, evs: seq<Event>)
    requires Inv(s) && Admissible(s, evs)
    ensures Inv(Run(s, evs))
    decreases |evs|
  {
    if |evs| > 0 {
      StepPreservesInv(s, evs[0]);
      RunPreservesInv(Step(s, evs[0]), evs[1..]);
    }
  }

  /** Whatever happens, no call's completion is invoked twice. */
  lemma CompletionsAtMostOnce(s: State, evs: seq<Event>)
    requires Inv(s) && Admissible(s, evs)
    ensures DistinctCompletions(Run(s, evs).completions)
  {
    RunPreservesInv(s, evs);
  }

  /**
   * A call whose entry is gone, removed by its response or by its timer, never completes again:
   * no later event completes it or registers it anew.
   */
  lemma {:induction false} RemovedCallNeverCompletes(s: State, evs: seq<Event>, id: string)
    requires Inv(s) && Admissible(s, evs)
    requires id in s.issued && id !in s.receivableSubscribers
    ensures id !in Run(s, evs).receivableSubscribers
    ensures !CompletedFor(Run(s, evs).completions[|s.completions|..], id)
    decreases |evs|
  {
    if |evs| > 0 {
      var s1 := Step(s, evs[0]);
      StepPreservesInv(s, evs[0]);
      if |s1.completions| > |s.completions| {
        var m := MatchingKey(s, evs[0].inbound.message.text);
        assert s1.completions[|s.completions|].requestId == m.value;
      }
      RemovedCallNeverCompletes(s1, evs[1..], id);
    }
  }

  /** A registered entry leaves only by a matching response, which completes it, or by its timer. */
  lemma {:induction false} EntryLeavesOnlyByResponseOrTimeout(s: State, evs: seq<Event>, id: string)
    requires Admissible(s, evs) && id in s.receivableSubscribers
    ensures var s' := Run(s, evs);
            || id in s'.receivableSubscribers
            || Timeout(id) in evs
            || CompletedFor(s'.completions[|s.completions|..], id)
    decreases |evs|
  {
    if |evs| > 0 {
      var s1 := Step(s, evs[0]);
      var s' := Run(s, evs);
      assert s' == Run(s1, evs[1..]);
      if id in s1.receivableSubscribers {
        EntryLeavesOnlyByResponseOrTimeout(s1, evs[1..], id);
        if Timeout(id) in evs[1..] {
          var j :| 0 <= j < |evs[1..]| && evs[1..][j] == Timeout(id);
          assert evs[j + 1] == Timeout(id);
        }
      } else if evs[0] != Timeout(id) {
        assert s1.completions[|s.completions|].requestId == id;
        assert s'.completions[|s.completions|] == s1.completions[|s.completions|];
      }
    }
  }

  /**
   * End to end: a call followed by the response the server builds for it completes the call once
   * with the result and leaves the registry as it was; a second identical response is ignored.
   */
  lemma CallThenResponse(s: State, freshId: string, methodName: string, params: Json, expected: PayloadType,
                         timeout: real, jsonrpc: string, result: Option<Json>)
    requires Inv(s) && freshId !in s.issued
    requires result.None? || Conforms(result.value, expected)
    ensures var s1 := CallStep(s, freshId, methodName, params, expected, timeout);
            var doc := ResponseDocument(Response(jsonrpc, freshId, result));
            var s2 := Dispatch(s1, doc);
            && s2.completions == s.completions + [Completion(freshId, result)]
            && s2.receivableSubscribers == s.receivableSubscribers
            && s2.scheduledTimers == s.scheduledTimers
            && Dispatch(s2, doc) == s2
  {
  }

  /**
   * A call whose timer fires first leaves the registry as it was, its completion never runs,
   * and its late response is ignored.
   */
  lemma CallThenTimeout(s: State, freshId: string, methodName: string, params: Json, expected: PayloadType,
                        timeout: real, late: Response)
    requires Inv(s) && freshId !in s.issued && late.id == freshId
    ensures var s2 := TimeoutStep(CallStep(s, freshId, methodName, params, expected, timeout), freshId);
            && s2.receivableSubscribers == s.receivableSubscribers
            && s2.completions == s.completions
            && Dispatch(s2, ResponseDocument(late)) == s2
  {
  }
}
