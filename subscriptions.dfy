/**
 * The notification-subscriber list of `Client`: `subscribe`, `on` and `unsubscribe` over an
 * array that holds at most one entry per method, and the closure `on` installs.
 */
module Subscriptions {
  import opened Wrappers
  import opened JsonData
  import opened Envelope

  /** `ClientError`. */
  datatype ClientError = DuplicateSubscription

  /**
   * The closure `on(method:type:completion:)` installs. It captures the array index of the
   * entry it was installed at, the method, the payload type `T` and the caller's completion,
   * which is named here by an opaque token.
   */
  datatype NotificationHandler = NotificationHandler(index: nat, methodName: string, payloadType: PayloadType, callback: nat)

  /** `NotificationSubscriber`: a method and, once `on` has run, its handler. */
  datatype NotificationSubscriber = NotificationSubscriber(methodName: string, completion: Option<NotificationHandler>)

  /** Some entry of `subs` is for method `m`. */
  predicate HasSubscriber(subs: seq<NotificationSubscriber>, m: string)
  {
    exists j :: 0 <= j < |subs| && subs[j].methodName == m
  }

  /** At most one entry per method. */
  predicate UniqueMethods(subs: seq<NotificationSubscriber>)
  {
    forall i, j :: 0 <= i < j < |subs| ==> subs[i].methodName != subs[j].methodName
  }

  /** `firstIndex(where: { $0.method == m })`. */
  function FirstIndex(subs: seq<NotificationSubscriber>, m: string): (r: Option<nat>)
    ensures r.None? <==> !HasSubscriber(subs, m)
    ensures r.Some? ==> r.value < |subs| && subs[r.value].methodName == m
    ensures r.Some? ==> forall j :: 0 <= j < r.value ==> subs[j].methodName != m
    decreases |subs|
  {
    if |subs| == 0 then None
    else if subs[0].methodName == m then Some(0)
    else
      match FirstIndex(subs[1..], m)
      case None => None
      case Some(i) => Some(i + 1)
  }

  /** `subscribe(to:type:)`: throws on a duplicate, otherwise appends an entry without a handler. */
  function Subscribe(subs: seq<NotificationSubscriber>, m: string): (r: Result<seq<NotificationSubscriber>, ClientError>)
    ensures r.Failure? <==> HasSubscriber(subs, m)
    ensures r.Failure? ==> r.error == DuplicateSubscription
    ensures r.Success? ==> r.value == subs + [NotificationSubscriber(m, None)]
    ensures r.Success? ==> HasSubscriber(r.value, m)
    ensures r.Success? && UniqueMethods(subs) ==> UniqueMethods(r.value)
  {
    if FirstIndex(subs, m).Some? then Failure(DuplicateSubscription)
    else
      var r := subs + [NotificationSubscriber(m, None)];
      assert r[|subs|].methodName == m;
      Success(r)
  }

  /** `on(method:type:completion:)`: installs a handler on the first entry for `m`, if there is one. */
  function On(subs: seq<NotificationSubscriber>, m: string, payloadType: PayloadType, callback: nat): (r: seq<NotificationSubscriber>)
    ensures |r| == |subs|
    ensures forall j :: 0 <= j < |r| ==> r[j].methodName == subs[j].methodName
    ensures !HasSubscriber(subs, m) ==> r == subs
    ensures forall j :: 0 <= j < |r| && r[j] != subs[j] ==>
              subs[j].methodName == m && r[j].completion == Some(NotificationHandler(j, m, payloadType, callback))
    ensures UniqueMethods(subs) ==> forall j :: 0 <= j < |r| && r[j].methodName == m ==>
              r[j].completion == Some(NotificationHandler(j, m, payloadType, callback))
  {
    match FirstIndex(subs, m)
    case None => subs
    case Some(i) => subs[i := subs[i].(completion := Some(NotificationHandler(i, m, payloadType, callback)))]
  }

  /** `unsubscribe(from:)`: removes the first entry for `m`, if there is one. */
  function Unsubscribe(subs: seq<NotificationSubscriber>, m: string): (r: seq<NotificationSubscriber>)
    ensures !HasSubscriber(subs, m) ==> r == subs
    ensures HasSubscriber(subs, m) ==> |r| == |subs| - 1
    ensures HasSubscriber(subs, m) ==>
              exists i :: && 0 <= i < |subs| && subs[i].methodName == m
                          && (forall j :: 0 <= j < i ==> subs[j].methodName != m)
                          && r == subs[..i] + subs[i + 1..]
    ensures forall x :: x in r ==> x in subs
    ensures UniqueMethods(subs) ==> UniqueMethods(r) && !HasSubscriber(r, m)
  {
    match FirstIndex(subs, m)
    case None => subs
    case Some(i) =>
      var r := subs[..i] + subs[i + 1..];
      assert forall j :: 0 <= j < |r| ==> r[j] == if j < i then subs[j] else subs[j + 1];
      r
  }

  /** What the handler closure does when given a document. */
  datatype Delivery = Ignored | Delivered(callback: nat, payload: Json) | IndexOutOfRange

  /**
   * The handler closure as written: it decodes the whole document as `T`, then re-reads the
   * entry at its captured index, which traps when the index is out of range, and delivers only
   * when that entry is still for its method.
   */
  function CapturedIndexOutcome(subs: seq<NotificationSubscriber>, h: NotificationHandler, doc: Document): (o: Delivery)
    ensures o.Delivered? ==> doc.Some? && o.payload == doc.value && o.callback == h.callback
    ensures o.Delivered? <==> doc.Some? && Conforms(doc.value, h.payloadType)
                              && h.index < |subs| && subs[h.index].methodName == h.methodName
    ensures o == IndexOutOfRange <==> doc.Some? && Conforms(doc.value, h.payloadType) && h.index >= |subs|
  {
    if doc.None? || !Conforms(doc.value, h.payloadType) then Ignored
    else if h.index >= |subs| then IndexOutOfRange
    else if subs[h.index].methodName != h.methodName then Ignored
    else Delivered(h.callback, doc.value)
  }

  /**
   * Once an earlier entry is unsubscribed, a captured index goes stale: the handler for "b"
   * traps on a document it should deliver, and after "a" subscribes again it silently ignores it.
   */
  lemma CapturedIndexGoesStale()
    ensures var h := NotificationHandler(1, "b", StringPayload, 7);
            var installed := On([NotificationSubscriber("a", None), NotificationSubscriber("b", None)], "b", StringPayload, 7);
            var shifted := Unsubscribe(installed, "a");
            var resubscribed := Subscribe(shifted, "a");
            && shifted == [NotificationSubscriber("b", Some(h))]
            && CapturedIndexOutcome(shifted, h, Some(JString("x"))) == IndexOutOfRange
            && resubscribed == Success([NotificationSubscriber("b", Some(h)), NotificationSubscriber("a", None)])
            && CapturedIndexOutcome(resubscribed.value, h, Some(JString("x"))) == Ignored
  {
    var a, b := NotificationSubscriber("a", None), NotificationSubscriber("b", None);
    var h := NotificationHandler(1, "b", StringPayload, 7);
    var hb := NotificationSubscriber("b", Some(h));
    assert [a, b][1..] == [b];
    assert FirstIndex([b], "b") == Some(0);
    assert FirstIndex([a, b], "b") == Some(1);
    var installed := On([a, b], "b", StringPayload, 7);
    assert installed == [a, hb];
    assert FirstIndex(installed, "a") == Some(0);
    var shifted := Unsubscribe(installed, "a");
    assert installed[..0] + installed[1..] == [hb];
    assert shifted == [hb];
    assert [hb][1..] == [];
    assert FirstIndex([hb], "a") == None;
    assert [hb] + [NotificationSubscriber("a", None)] == [hb, a];
    assert Subscribe(shifted, "a") == Success([hb, a]);
  }

  /**
   * The guard meant to tell apart "two methods that point to one type" compares the entry's
   * method with the handler's own, never with the document's: while the index is accurate it
   * always passes, so a notification for "a" that decodes as the payload type of "b" reaches
   * the handler for "b".
   */
  lemma GuardIgnoresDocumentMethod()
    ensures var h := NotificationHandler(0, "b", ObjectPayload, 7);
            var doc := Some(JObject(map["jsonrpc" := JString("2.0"), "method" := JString("a")]));
            && CapturedIndexOutcome([NotificationSubscriber("b", Some(h))], h, doc) == Delivered(7, doc.value)
            && MethodLookupOutcome([NotificationSubscriber("b", Some(h))], h, doc) == Ignored
  {
  }

  /**
   * The handler corrected in both respects: it delivers only a document whose `method` member is
   * its own method, and it looks that method up in the list when it runs instead of trusting
   * the captured index, so it delivers exactly while its method is subscribed and never traps.
   */
  function MethodLookupOutcome(subs: seq<NotificationSubscriber>, h: NotificationHandler, doc: Document): (o: Delivery)
    ensures o != IndexOutOfRange
    ensures o.Delivered? <==> && doc.Some? && Conforms(doc.value, h.payloadType)
                              && Member(doc, "method") == Some(JString(h.methodName))
                              && HasSubscriber(subs, h.methodName)
    ensures o.Delivered? ==> o == Delivered(h.callback, doc.value)
  {
    if doc.None? || !Conforms(doc.value, h.payloadType) || Member(doc, "method") != Some(JString(h.methodName)) then Ignored
    else
      match FirstIndex(subs, h.methodName)
      case None => Ignored
      case Some(_) => Delivered(h.callback, doc.value)
  }

  /**
   * For a document of the handler's own method, and where the captured index is still
   * accurate, the corrected handler behaves as written.
   */
  lemma LookupAgreesWhileIndexHolds(subs: seq<NotificationSubscriber>, h: NotificationHandler, doc: Document)
    requires h.index < |subs| && subs[h.index].methodName == h.methodName
    requires Member(doc, "method") == Some(JString(h.methodName))
    ensures MethodLookupOutcome(subs, h, doc) == CapturedIndexOutcome(subs, h, doc)
  {
  }

  /** The corrected handler keeps delivering documents of its method after another method is unsubscribed. */
  lemma LookupSurvivesUnsubscribe(subs: seq<NotificationSubscriber>, h: NotificationHandler, m: string, doc: Document)
    requires UniqueMethods(subs) && h.methodName != m && HasSubscriber(subs, h.methodName)
    requires doc.Some? && Conforms(doc.value, h.payloadType) && Member(doc, "method") == Some(JString(h.methodName))
    ensures MethodLookupOutcome(Unsubscribe(subs, m), h, doc) == Delivered(h.callback, doc.value)
  {
    var k := FirstIndex(subs, h.methodName).value;
    var r := Unsubscribe(subs, m);
    if HasSubscriber(subs, m) {
      var i := FirstIndex(subs, m).value;
      assert r == subs[..i] + subs[i + 1..];
      var j := if k < i then k else k - 1;
      assert r[j] == subs[k];
    } else {
      assert r == subs;
    }
  }
}
