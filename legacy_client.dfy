/** `JSONRPCClient`, the earlier client: `receivables` updated in place by `call` and by the closures. */
module LegacyClient {
  import opened Wrappers
  import opened JsonData
  import opened Envelope
  import opened Correlation
  import L = LegacyEngine

  class JSONRPCClient {
    var receivables: map<string, ResponseHandler>
    /** Every invocation of a caller's completion, in order. */
    var completions: seq<Completion>
    /** Every request handed to the socket, in order. */
    var sent: seq<Request>
    /** Every id generated so far. */
    ghost var issuedIds: set<string>

    ghost function Engine(): L.State
      reads this
    {
      L.State(receivables, completions, sent, issuedIds)
    }

    ghost predicate Valid()
      reads this
    {
      L.Inv(Engine())
    }

    constructor ()
      ensures Valid() && Engine() == L.Initial
    {
      receivables := map[];
      completions := [];
      sent := [];
      issuedIds := {};
    }

    /** `call(method:params:response:completion:)`, with `freshId` the generated id. */
    method Call(methodName: string, params: Json, expected: PayloadType, freshId: string)
      requires Valid() && freshId !in issuedIds
      modifies this
      ensures Valid()
      ensures Engine() == L.CallStep(old(Engine()), freshId, methodName, params, expected)
    {
      var request := NewRequest(methodName, params, freshId);
      receivables := receivables[request.id.value := ResponseHandler(request.id.value, expected)];
      issuedIds := issuedIds + {request.id.value};
      sent := sent + [request];
    }

    /** The closure of a registered call, run on one document. */
    method RunReceivable(handler: ResponseHandler, doc: Document)
      requires Valid()
      requires handler.requestId in receivables && receivables[handler.requestId] == handler
      modifies this
      ensures Valid()
      ensures match Accept(handler, doc)
              case None => Engine() == old(Engine())
              case Some(result) =>
                && receivables == old(receivables) - {handler.requestId}
                && completions == old(completions) + [Completion(handler.requestId, result)]
                && sent == old(sent) && issuedIds == old(issuedIds)
    {
      var decoded := DecodeResponse(doc, handler.expected);
      if decoded.Some? {
        var response := decoded.value;
        if handler.requestId == response.id {
          receivables := receivables - {handler.requestId};
          completions := completions + [Completion(handler.requestId, response.result)];
        }
      }
    }

    /** One completion of the socket's `receive`: a string message goes to every registered closure. */
    method Receive(inbound: Inbound)
      requires Valid()
      modifies this
      ensures Valid()
      ensures Engine() == L.ReceiveStep(old(Engine()), inbound)
    {
      match inbound
      case Received(StringMessage(doc)) =>
        ghost var s0 := Engine();
        ghost var target := L.MatchingKey(s0, doc);
        var snapshot := receivables;
        var remaining := snapshot.Keys;
        while remaining != {}
          invariant Valid()
          invariant remaining <= snapshot.Keys
          invariant forall k :: k in remaining ==> k in receivables && receivables[k] == snapshot[k]
          invariant target.Some? && target.value in remaining ==> Engine() == s0
          invariant target.Some? && target.value !in remaining ==> Engine() == L.Dispatch(s0, doc)
          invariant target.None? ==> Engine() == s0
          decreases remaining
        {
          var k :| k in remaining;
          RunReceivable(snapshot[k], doc);
          remaining := remaining - {k};
        }
      case _ =>
    }
  }
}
