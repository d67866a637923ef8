/**
 * `Client`: the pending-call registry and the notification-subscriber list, updated in place
 * by `call`, the timer a call schedules, the closures the receive loop runs, and
 * `subscribe`/`on`/`unsubscribe`. Each state-changing method is proved against the matching
 * step of `ClientEngine` or function of `Subscriptions`.
 */
module WebSocketClient {
  import opened Wrappers
  import opened JsonData
  import opened Envelope
  import opened Correlation
  import opened Subscriptions
  import E = ClientEngine

  class Client {
    var receivableSubscribers: map<string, E.ReceivableSubscriber>
    var notificationSubscribers: seq<NotificationSubscriber>
    /** The ids whose timer is scheduled and has neither fired nor been invalidated. */
    var scheduledTimers: set<string>
    /** Every invocation of a caller's completion, in order. */
    var completions: seq<Completion>
    /** Every request handed to the socket, in order. */
    var sent: seq<Request>
    /** Every id generated so far. */
    ghost var issuedIds: set<string>

    /** The correlation engine's part of the state, as a value. */
    ghost function Engine(): E.State
      reads this
    {
      E.State(receivableSubscribers, scheduledTimers, completions, sent, issuedIds)
    }

    ghost predicate Valid()
      reads this
    {
      E.Inv(Engine()) && UniqueMethods(notificationSubscribers)
    }

    constructor ()
      ensures Valid()
      ensures Engine() == E.Initial && notificationSubscribers == []
    {
      receivableSubscribers := map[];
      notificationSubscribers := [];
      scheduledTimers := {};
      completions := [];
      sent := [];
      issuedIds := {};
    }

    /**
     * `call(method:params:response:timeout:completion:)`, with `freshId` the generated id and
     * the source's default timeout of five seconds.
     */
    method Call(methodName: string, params: Json, expected: PayloadType, freshId: string, timeout: real := E.DefaultTimeout)
      requires Valid() && freshId !in issuedIds
      modifies this
      ensures Valid()
      ensures Engine() == E.CallStep(old(Engine()), freshId, methodName, params, expected, timeout)
      ensures notificationSubscribers == old(notificationSubscribers)
    {
      var request := NewRequest(methodName, params, freshId);
      // Timer.scheduledTimer: its closure removes the entry when it fires, see FireTimer.
      var timer := E.Timer(timeout);
      if request.id.Some? {
        scheduledTimers := scheduledTimers + {request.id.value};
      }
      var receivable := E.ReceivableSubscriber(timer, ResponseHandler(freshId, expected));
      if request.id.Some? {
        receivableSubscribers := receivableSubscribers[request.id.value := receivable];
        issuedIds := issuedIds + {request.id.value};
      }
      sent := sent + [request];
    }

    /** The closure of the timer of call `id`: it removes the entry and completes nothing. */
    method FireTimer(id: string)
      requires Valid()
      modifies this
      ensures Valid()
      ensures Engine() == E.TimeoutStep(old(Engine()), id)
      ensures notificationSubscribers == old(notificationSubscribers)
    {
      scheduledTimers := scheduledTimers - {id};
      receivableSubscribers := receivableSubscribers - {id};
    }

    /**
     * The response closure of a registered call, run on one document: if the document decodes
     * as the call's `Response<U>` and carries its id, invalidate the timer, remove the entry and
     * complete the call with the result; otherwise do nothing.
     */
    method RunReceivable(receivable: E.ReceivableSubscriber, doc: Document)
      requires Valid()
      requires receivable.completion.requestId in receivableSubscribers
      requires receivableSubscribers[receivable.completion.requestId] == receivable
      modifies this
      ensures Valid()
      ensures var id := receivable.completion.requestId;
              match Accept(receivable.completion, doc)
              case None => Engine() == old(Engine())
              case Some(result) =>
                && receivableSubscribers == old(receivableSubscribers) - {id}
                && scheduledTimers == old(scheduledTimers) - {id}
                && completions == old(completions) + [Completion(id, result)]
                && sent == old(sent) && issuedIds == old(issuedIds)
      ensures notificationSubscribers == old(notificationSubscribers)
    {
      var decoded := DecodeResponse(doc, receivable.completion.expected);
      if decoded.Some? {
        var response := decoded.value;
        var id := receivable.completion.requestId;
        if id == response.id {
          if id in receivableSubscribers {
            scheduledTimers := scheduledTimers - {id};
          }
          receivableSubscribers := receivableSubscribers - {id};
          completions := completions + [Completion(id, response.result)];
        }
      }
    }

    /**
     * The handler of one completion of the socket's `receive`: a string message is offered to
     * every closure registered when the dispatch runs, in any order.
     */
    method Receive(inbound: Inbound)
      requires Valid()
      modifies this
      ensures Valid()
      ensures Engine() == E.ReceiveStep(old(Engine()), inbound)
      ensures notificationSubscribers == old(notificationSubscribers)
    {
      match inbound
      case Received(StringMessage(doc)) =>
        ghost var s0 := Engine();
        ghost var target := E.MatchingKey(s0, doc);
        var snapshot := receivableSubscribers;
        var remaining := snapshot.Keys;
        while remaining != {}
          invariant Valid()
          invariant remaining <= snapshot.Keys
          invariant forall k :: k in remaining ==> k in receivableSubscribers && receivableSubscribers[k] == snapshot[k]
          invariant target.Some? && target.value in remaining ==> Engine() == s0
          invariant target.Some? && target.value !in remaining ==> Engine() == E.Dispatch(s0, doc)
          invariant target.None? ==> Engine() == s0
          invariant notificationSubscribers == old(notificationSubscribers)
          decreases remaining
        {
          var k :| k in remaining;
          RunReceivable(snapshot[k], doc);
          remaining := remaining - {k};
        }
      case _ =>
    }

    /** `subscribe(to:type:)`: `Fail(DuplicateSubscription)` stands for the thrown error. */
    method Subscribe(m: string) returns (outcome: Outcome<ClientError>)
      requires Valid()
      modifies this
      ensures Valid()
      ensures match Subscriptions.Subscribe(old(notificationSubscribers), m)
              case Failure(e) => outcome == Fail(e) && notificationSubscribers == old(notificationSubscribers)
              case Success(subs) => outcome == Pass && notificationSubscribers == subs
      ensures Engine() == old(Engine())
    {
      if FirstIndex(notificationSubscribers, m).Some? {
        return Fail(DuplicateSubscription);
      }
      notificationSubscribers := notificationSubscribers + [NotificationSubscriber(m, None)];
      outcome := Pass;
    }

    /** `on(method:type:completion:)`, with the caller's completion named by `callback`. */
    method On(m: string, payloadType: PayloadType, callback: nat)
      requires Valid()
      modifies this
      ensures Valid()
      ensures notificationSubscribers == Subscriptions.On(old(notificationSubscribers), m, payloadType, callback)
      ensures Engine() == old(Engine())
    {
      var index := FirstIndex(notificationSubscribers, m);
      if index.Some? {
        var i := index.value;
        var handler := NotificationHandler(i, m, payloadType, callback);
        notificationSubscribers := notificationSubscribers[i := notificationSubscribers[i].(completion := Some(handler))];
      }
    }

    /** `unsubscribe(from:)`. */
    method Unsubscribe(m: string)
      requires Valid()
      modifies this
      ensures Valid()
      ensures notificationSubscribers == Subscriptions.Unsubscribe(old(notificationSubscribers), m)
      ensures Engine() == old(Engine())
    {
      var index := FirstIndex(notificationSubscribers, m);
      if index.Some? {
        var i := index.value;
        notificationSubscribers := notificationSubscribers[..i] + notificationSubscribers[i + 1..];
      }
    }
  }
}
