/** What the closure a call registers does with an inbound document; shared by both clients. */
module Correlation {
  import opened Wrappers
  import opened JsonData
  import opened Envelope

  /** The state a call's response closure captures: the request's id and the result type `U`. */
  datatype ResponseHandler = ResponseHandler(requestId: string, expected: PayloadType)

  /** One invocation of a caller's completion, `completion(response.result)`. */
  datatype Completion = Completion(requestId: string, result: Option<Json>)

  /**
   * The closure's decision on one document: `Some(result)` when the document decodes as
   * `Response<U>` and carries the call's own id (the closure then completes with `result`),
   * `None` when it is not for this call.
   */
  function Accept(h: ResponseHandler, doc: Document): (r: Option<Option<Json>>)
    ensures r.Some? <==> DecodeResponse(doc, h.expected).Some? && ResponseId(doc) == Some(h.requestId)
    ensures r.Some? ==> r.value == DecodeResponse(doc, h.expected).value.result
    ensures r.Some? && r.value.Some? ==> Conforms(r.value.value, h.expected)
  {
    match DecodeResponse(doc, h.expected)
    case None => None
    case Some(response) => if h.requestId == response.id then Some(response.result) else None
  }

  /** A response carrying the call's id and a result of the expected type completes the call with it. */
  lemma AcceptsOwnResponse(h: ResponseHandler, jsonrpc: string, result: Option<Json>)
    requires result.None? || Conforms(result.value, h.expected)
    ensures Accept(h, ResponseDocument(Response(jsonrpc, h.requestId, result))) == Some(result)
  {
  }

  /**
   * A response for the call's id whose result is neither `null` nor a `U` is never taken: the
   * decode fails. (A `null` result decodes as `nil` and is taken.)
   */
  lemma RejectsNonConformingResult(h: ResponseHandler, jsonrpc: string, v: Json)
    requires !v.JNull? && !Conforms(v, h.expected)
    ensures Accept(h, ResponseDocument(Response(jsonrpc, h.requestId, Some(v)))) == None
  {
    var doc := ResponseDocument(Response(jsonrpc, h.requestId, Some(v)));
    assert Member(doc, "result") == Some(v);
  }

  /** A number outside the 64-bit range does not decode as `Int`, so an `Int` call never takes it. */
  lemma RejectsIntOutOfRange(k: string, jsonrpc: string, n: int)
    requires !(IntMin <= n <= IntMax)
    ensures Accept(ResponseHandler(k, IntPayload), ResponseDocument(Response(jsonrpc, k, Some(JNumber(n))))) == None
  {
    RejectsNonConformingResult(ResponseHandler(k, IntPayload), jsonrpc, JNumber(n));
  }

  /** One element that is not an `E` makes the whole array fail to decode as `[E]`. */
  lemma RejectsNonConformingElement(k: string, jsonrpc: string, items: seq<Json>, e: PayloadType, i: nat)
    requires i < |items| && !Conforms(items[i], e)
    ensures Accept(ResponseHandler(k, ArrayPayload(e)), ResponseDocument(Response(jsonrpc, k, Some(JArray(items))))) == None
  {
    assert !Conforms(JArray(items), ArrayPayload(e)) by {
      assert JArray(items).items[i] == items[i];
    }
    RejectsNonConformingResult(ResponseHandler(k, ArrayPayload(e)), jsonrpc, JArray(items));
  }

  /** A response for another id is never taken, whatever it holds. */
  lemma IgnoresOtherIds(h: ResponseHandler, response: Response)
    requires response.id != h.requestId
    ensures Accept(h, ResponseDocument(response)) == None
  {
  }

  /** Some completion in `cs` is for `id`. */
  predicate CompletedFor(cs: seq<Completion>, id: string)
  {
    exists i :: 0 <= i < |cs| && cs[i].requestId == id
  }

  /** No call appears twice among the completions. */
  predicate DistinctCompletions(cs: seq<Completion>)
  {
    forall i, j :: 0 <= i < j < |cs| ==> cs[i].requestId != cs[j].requestId
  }
}
