/**
 * The correlation engine of the earlier `JSONRPCClient` as a state machine over values: a map
 * from request id to response closure, with no timeout, so an entry leaves only when its
 * response arrives.
 */
module LegacyEngine {
  import opened Wrappers
  import opened JsonData
  import opened Envelope
  import opened Correlation

  /**
   * `receivables`, the completions invoked so far, the requests handed to the socket, and every
   * id generated so far.
   */
  datatype State = State(
    receivables: map<string, ResponseHandler>,
    completions: seq<Completion>,
    sent: seq<Request>,
    issued: set<string>)

  const Initial := State(map[], [], [], {})

  /** Every closure is keyed by its own request id, and a completed call is no longer pending. */
  ghost predicate Inv(s: State)
  {
    && (forall k :: k in s.receivables ==> s.receivables[k].requestId == k)
    && s.receivables.Keys <= s.issued
    && (forall i :: 0 <= i < |s.completions| ==>
          s.completions[i].requestId in s.issued && s.completions[i].requestId !in s.receivables)
    && DistinctCompletions(s.completions)
  }

  /** `call(method:params:response:completion:)` with the generated id `freshId`. */
  function CallStep(s: State, freshId: string, methodName: string, params: Json, expected: PayloadType): (s': State)
    requires freshId !in s.issued
    ensures s'.receivables.Keys == s.receivables.Keys + {freshId}
    ensures s'.receivables[freshId] == ResponseHandler(freshId, expected)
    ensures forall k :: k in s.receivables && k != freshId ==> s'.receivables[k] == s.receivables[k]
    ensures s'.completions == s.completions
    ensures s'.sent == s.sent + [NewRequest(methodName, params, freshId)]
    ensures s'.issued == s.issued + {freshId}
  {
    var request := NewRequest(methodName, params, freshId);
    State(s.receivables[request.id.value := ResponseHandler(request.id.value, expected)],
          s.completions,
          s.sent + [request],
          s.issued + {request.id.value})
  }

  /** The registered closure that takes `doc`, if any. */
  function MatchingKey(s: State, doc: Document): (r: Option<string>)
    ensures r.Some? ==> r.value in s.receivables && Accept(s.receivables[r.value], doc).Some?
    ensures r.Some? ==> ResponseId(doc) == r
    ensures Inv(s) ==> forall k :: k in s.receivables && Accept(s.receivables[k], doc).Some? ==> r == Some(k)
  {
    match ResponseId(doc)
    case None => None
    case Some(k) => if k in s.receivables && Accept(s.receivables[k], doc).Some? then Some(k) else None
  }

  /** The net effect of offering `doc` to every registered closure. */
  function Dispatch(s: State, doc: Document): (s': State)
    ensures s'.sent == s.sent && s'.issued == s.issued
    ensures s'.receivables.Keys <= s.receivables.Keys
    ensures forall k :: k in s'.receivables ==> s'.receivables[k] == s.receivables[k]
    ensures s.completions <= s'.completions && |s'.completions| <= |s.completions| + 1
    ensures |s'.completions| == |s.completions| + 1 <==> MatchingKey(s, doc).Some?
    ensures MatchingKey(s, doc).Some? ==> s'.completions[|s.completions|].requestId == MatchingKey(s, doc).value
    ensures MatchingKey(s, doc).None? ==> s' == s
  {
    match MatchingKey(s, doc)
    case None => s
    case Some(k) =>
      s.(receivables := s.receivables - {k},
         completions := s.completions + [Completion(k, Accept(s.receivables[k], doc).value)])
  }

  /** One completion of the socket's `receive`: only string messages reach the closures. */
  function ReceiveStep(s: State, inbound: Inbound): (s': State)
    ensures !(inbound.Received? && inbound.message.StringMessage?) ==> s' == s
    ensures s'.sent == s.sent && s'.issued == s.issued
    ensures s'.receivables.Keys <= s.receivables.Keys
    ensures s.completions <= s'.completions && |s'.completions| <= |s.completions| + 1
  {
    match inbound
    case Received(StringMessage(doc)) => Dispatch(s, doc)
    case _ => s
  }

  /** A response for a registered id that decodes removes exactly that entry and completes it. */
  lemma DispatchConsumesMatch(s: State, doc: Document, k: string, response: Response)
    requires Inv(s) && k in s.receivables
    requires DecodeResponse(doc, s.receivables[k].expected) == Some(response) && response.id == k
    ensures var s' := Dispatch(s, doc);
            && k !in s'.receivables
            && (forall j :: j != k ==> (j in s'.receivables <==> j in s.receivables))
            && (forall j :: j in s'.receivables ==> s'.receivables[j] == s.receivables[j])
            && s'.completions == s.completions + [Completion(k, response.result)]
            && s'.sent == s.sent && s'.issued == s.issued
  {
  }

  /** An undecodable document, or a response for an unregistered id, changes nothing. */
  lemma DispatchIgnoresUnmatched(s: State, doc: Document)
    ensures ResponseId(doc).None? ==> Dispatch(s, doc) == s
    ensures ResponseId(doc).Some? && ResponseId(doc).value !in s.receivables ==> Dispatch(s, doc) == s
    ensures (forall k :: k in s.receivables ==> DecodeResponse(doc, s.receivables[k].expected).None?)
            ==> Dispatch(s, doc) == s
  {
  }

  /** A second copy of a response reaches no completion. */
  lemma DispatchIdempotent(s: State, doc: Document)
    ensures Dispatch(Dispatch(s, doc), doc) == Dispatch(s, doc)
  {
  }

  /** Data messages and receive failures reach no closure. */
  lemma OnlyStringMessagesDispatched(s: State, inbound: Inbound)
    requires !(inbound.Received? && inbound.message.StringMessage?)
    ensures ReceiveStep(s, inbound) == s
  {
  }

  /** The events that drive this engine: there is no timer. */
  datatype Event =
    | Call(freshId: string, methodName: string, params: Json, expected: PayloadType)
    | Receive(inbound: Inbound)

  predicate Enabled(s: State, e: Event)
  {
    e.Call? ==> e.freshId !in s.issued
  }

  function Step(s: State, e: Event): (s': State)
    requires Enabled(s, e)
    ensures s.completions <= s'.completions && |s'.completions| <= |s.completions| + 1
  {
    match e
    case Call(id, m, p, t) => CallStep(s, id, m, p, t)
    case Receive(inbound) => ReceiveStep(s, inbound)
  }

  predicate Admissible(s: State, evs: seq<Event>)
    decreases |evs|
  {
    |evs| == 0 || (Enabled(s, evs[0]) && Admissible(Step(s, evs[0]), evs[1..]))
  }

  function Run(s: State, evs: seq<Event>): (s': State)
    requires Admissible(s, evs)
    ensures s.completions <= s'.completions
    decreases |evs|
  {
    if |evs| == 0 then s else Run(Step(s, evs[0]), evs[1..])
  }

  lemma StepPreservesInv(s: State, e: Event)
    requires Inv(s) && Enabled(s, e)
    ensures Inv(Step(s, e))
  {
  }

  lemma {:induction false} RunPreservesInv(s: State, evs: seq<Event>)
    requires Inv(s) && Admissible(s, evs)
    ensures Inv(Run(s, evs))
    decreases |evs|
  {
    if |evs| > 0 {
      StepPreservesInv(s, evs[0]);
      RunPreservesInv(Step(s, evs[0]), evs[1..]);
    }
  }

  /** Whatever happens, no call's completion is invoked twice. */
  lemma CompletionsAtMostOnce(s: State, evs: seq<Event>)
    requires Inv(s) && Admissible(s, evs)
    ensures DistinctCompletions(Run(s, evs).completions)
  {
    RunPreservesInv(s, evs);
  }

  /** With no timer, a registered entry leaves only by the response that completes it. */
  lemma {:induction false} EntryLeavesOnlyByResponse(s: State, evs: seq<Event>, id: string)
    requires Admissible(s, evs) && id in s.receivables
    ensures var s' := Run(s, evs);
            || id in s'.receivables
            || CompletedFor(s'.completions[|s.completions|..], id)
    decreases |evs|
  {
    if |evs| > 0 {
      var s1 := Step(s, evs[0]);
      var s' := Run(s, evs);
      assert s' == Run(s1, evs[1..]);
      if id in s1.receivables {
        EntryLeavesOnlyByResponse(s1, evs[1..], id);
      } else {
        assert s1.completions[|s.completions|].requestId == id;
        assert s'.completions[|s.completions|] == s1.completions[|s.completions|];
      }
    }
  }

  /** End to end: a call and its response complete the call once; a repeat is ignored. */
  lemma CallThenResponse(s: State, freshId: string, methodName: string, params: Json, expected: PayloadType,
                         jsonrpc: string, result: Option<Json>)
    requires Inv(s) && freshId !in s.issued
    requires result.None? || Conforms(result.value, expected)
    ensures var s1 := CallStep(s, freshId, methodName, params, expected);
            var doc := ResponseDocument(Response(jsonrpc, freshId, result));
            var s2 := Dispatch(s1, doc);
            && s2.completions == s.completions + [Completion(freshId, result)]
            && s2.receivables == s.receivables
            && Dispatch(s2, doc) == s2
  {
  }
}
