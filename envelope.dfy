/**
 * The JSON-RPC 2.0 envelopes the client exchanges (section 4 and section 5 of the
 * JSON-RPC 2.0 specification) and the WebSocket messages they travel in.
 */
module Envelope {
  import opened Wrappers
  import opened JsonData

  /** The protocol tag every request carries. */
  const JsonRpcVersion: string := "2.0"

  /** An outgoing request. `id` is absent only for notifications, which `Request.init` never builds. */
  datatype Request = Request(jsonrpc: string, id: Option<string>, methodName: string, params: Json)

  /**
   * `Request.init(method:params:)`. The identifier `UUID().uuidString` is generated inside the
   * initializer; here the caller supplies it.
   */
  function NewRequest(methodName: string, params: Json, freshId: string): (r: Request)
    ensures r.jsonrpc == JsonRpcVersion
    ensures r.id == Some(freshId)
    ensures r.methodName == methodName
    ensures r.params == params
  {
    Request(JsonRpcVersion, Some(freshId), methodName, params)
  }

  /** The wire form of a request: one member per stored property, with an absent `id` left out. */
  function RequestDocument(r: Request): (d: Json)
    ensures d.JObject? && d.fields.Keys <= {"jsonrpc", "id", "method", "params"}
    ensures "jsonrpc" in d.fields && d.fields["jsonrpc"] == JString(r.jsonrpc)
    ensures "method" in d.fields && d.fields["method"] == JString(r.methodName)
    ensures "params" in d.fields && d.fields["params"] == r.params
    ensures "id" in d.fields <==> r.id.Some?
    ensures r.id.Some? ==> d.fields["id"] == JString(r.id.value)
  {
    var base := map["jsonrpc" := JString(r.jsonrpc), "method" := JString(r.methodName), "params" := r.params];
    JObject(if r.id.Some? then base["id" := JString(r.id.value)] else base)
  }

  /** A request built by `init` is a call: its document carries the tag and its id as a string. */
  lemma NewRequestDocument(methodName: string, params: Json, freshId: string)
    ensures var doc := RequestDocument(NewRequest(methodName, params, freshId));
            && doc.fields.Keys == {"jsonrpc", "id", "method", "params"}
            && doc.fields["jsonrpc"] == JString("2.0")
            && doc.fields["id"] == JString(freshId)
            && doc.fields["method"] == JString(methodName)
            && doc.fields["params"] == params
  {
  }

  /** An inbound response, `Response<U>`: the result is absent when the member is missing or null. */
  datatype Response = Response(jsonrpc: string, id: string, result: Option<Json>)

  /** The text of a string message parsed as JSON, or None when the text is not JSON. */
  type Document = Option<Json>

  /** `URLSessionWebSocketTask.Message`. */
  datatype Message = DataMessage(bytes: seq<bv8>) | StringMessage(text: Document)

  /** What one completion of `webSocketTask.receive` hands to the client. */
  datatype Inbound = Received(message: Message) | ReceiveFailed

  /** The member `name` of a document that is an object, if it has one. */
  function Member(doc: Document, name: string): Option<Json>
  {
    if doc.Some? && doc.value.JObject? && name in doc.value.fields then Some(doc.value.fields[name]) else None
  }

  /** The id of a document shaped like a response envelope, whatever its result. */
  function ResponseId(doc: Document): Option<string>
  {
    if && doc.Some? && doc.value.JObject?
       && "jsonrpc" in doc.value.fields && doc.value.fields["jsonrpc"].JString?
       && "id" in doc.value.fields && doc.value.fields["id"].JString?
    then Some(doc.value.fields["id"].s)
    else None
  }

  /**
   * `JSONDecoder().decode(Response<U>.self, from: data)` with `U` given by `expected`:
   * `jsonrpc` and `id` must be strings (the tag's value is not checked), a missing or null
   * `result` decodes to nil, and any other `result` must be a value of `U`.
   */
  function DecodeResponse(doc: Document, expected: PayloadType): (r: Option<Response>)
    ensures r.Some? <==> && ResponseId(doc).Some?
                         && (|| Member(doc, "result").None?
                             || Member(doc, "result") == Some(JNull)
                             || Conforms(Member(doc, "result").value, expected))
    ensures r.Some? ==> ResponseId(doc) == Some(r.value.id)
    ensures r.Some? ==> Member(doc, "jsonrpc") == Some(JString(r.value.jsonrpc))
                        && Member(doc, "id") == Some(JString(r.value.id))
    ensures r.Some? ==> r.value.result == (if Member(doc, "result") == Some(JNull) then None else Member(doc, "result"))
    ensures r.Some? && r.value.result.Some? ==> Conforms(r.value.result.value, expected)
  {
    if ResponseId(doc).None? then None
    else
      var fields := doc.value.fields;
      var result := if "result" in fields then fields["result"] else JNull;
      if result == JNull then Some(Response(fields["jsonrpc"].s, fields["id"].s, None))
      else if Conforms(result, expected) then Some(Response(fields["jsonrpc"].s, fields["id"].s, Some(result)))
      else None
  }

  /** The wire form of a response, as a server sends it. */
  function ResponseDocument(r: Response): Document
  {
    var base := map["jsonrpc" := JString(r.jsonrpc), "id" := JString(r.id)];
    Some(JObject(if r.result.Some? then base["result" := r.result.value] else base))
  }

  /** Decoding inverts encoding exactly when the result, if any, is a value of the expected type. */
  lemma ResponseRoundTrip(r: Response, expected: PayloadType)
    ensures DecodeResponse(ResponseDocument(r), expected) == Some(r)
        <==> (r.result.None? || Conforms(r.result.value, expected))
  {
  }
}
