/** app/api/notifications/route.ts: `POST`, which answers by the notification type it is sent. */
module NotificationsRoute {
  import opened Wrappers

  /** A JSON value as `request.json()` yields it; numbers, booleans and arrays are not told apart. */
  datatype Json = JNull | JText(text: string) | JObject(fields: map<string, Json>) | JScalar

  /** The request body: text that is not JSON (with the parser's message), or a parsed value. */
  datatype Body = Unparsable(message: string) | Parsed(value: Json)

  /** A property read: `undefined` (`None`) when the value is not an object or lacks the property. */
  function Property(v: Json, key: string): Option<Json> {
    if v.JObject? && key in v.fields then Some(v.fields[key]) else None
  }

  const KnownTypes: seq<string> := ["move_out_intention", "inspection_finalized", "move_in_signed"]
  const Queued: string := "Email notification queued (placeholder)"
  const UnknownType: string := "Unknown notification type"
  const SendFailed: string := "Failed to send notification"

  /** Whether the value's `type` is one of the known notification texts. */
  predicate NamesKnownType(v: Json) {
    Property(v, "type").Some? && Property(v, "type").value.JText? && Property(v, "type").value.text in KnownTypes
  }

  /** `NextResponse.json(...)`: the status and the body's fields. */
  datatype Reply =
    | Success(message: string, notificationType: string)
    | Failure(status: nat, error: string)

  /** The thrown error's `message || 'Failed to send notification'`. */
  function ServerError(message: string): Reply {
    Failure(500, if message != "" then message else SendFailed)
  }

  function StatusOf(r: Reply): nat {
    if r.Success? then 200 else r.status
  }

  /**
   * `POST`. Destructuring a `null` body, and reading `data.recipients` when `data` is `null` or
   * missing, throw a `TypeError`; `runtimeMessage` is that error's message.
   */
  function Post(body: Body, runtimeMessage: string): (r: Reply)
    ensures StatusOf(r) in {200, 400, 500}
    ensures body == Parsed(JNull) ==> r == Failure(500, if runtimeMessage != "" then runtimeMessage else SendFailed)
    ensures body.Parsed? && NamesKnownType(body.value)
            && (Property(body.value, "data").None? || Property(body.value, "data").value.JNull?) ==>
              r == Failure(500, if runtimeMessage != "" then runtimeMessage else SendFailed)
  {
    match body
    case Unparsable(msg) => ServerError(msg)
    case Parsed(v) =>
      if v.JNull? then ServerError(runtimeMessage)
      else
        var t := Property(v, "type");
        if NamesKnownType(v) then
          var data := Property(v, "data");
          if data.None? || data.value.JNull? then ServerError(runtimeMessage)
          else Success(Queued, t.value.text)
        else Failure(400, UnknownType)
  }

  /** One of the three known types, with any `data` other than `null`, is queued and echoed back. */
  lemma KnownTypeQueued(t: string, data: Json, rest: map<string, Json>, runtimeMessage: string)
    requires t in KnownTypes && !data.JNull?
    ensures Post(Parsed(JObject(rest["type" := JText(t)]["data" := data])), runtimeMessage) == Success(Queued, t)
  {
    var fields := rest["type" := JText(t)]["data" := data];
    assert "type" != "data";
    assert fields["type"] == JText(t);
  }

  /**
   * A known type whose `data` is missing or `null` throws on `data.recipients`: 500 with the
   * runtime's message, or the default when that is empty.
   */
  lemma MissingDataIsServerError(t: string, rest: map<string, Json>, runtimeMessage: string)
    requires t in KnownTypes
    requires "data" !in rest || rest["data"] == JNull
    ensures Post(Parsed(JObject(rest["type" := JText(t)])), runtimeMessage)
              == Failure(500, if runtimeMessage != "" then runtimeMessage else SendFailed)
  {
    var fields := rest["type" := JText(t)];
    assert "type" != "data";
    assert fields["type"] == JText(t);
    assert "data" in fields ==> fields["data"] == JNull;
  }

  /** Every other `type`, a missing one included, is refused with 400 whatever `data` holds. */
  lemma UnknownTypeRefused(v: Json, runtimeMessage: string)
    requires !v.JNull?
    requires Property(v, "type").None? || !Property(v, "type").value.JText? || Property(v, "type").value.text !in KnownTypes
    ensures Post(Parsed(v), runtimeMessage) == Failure(400, UnknownType)
  {
  }

  /** A success always names a known type, and only a request the switch accepts reaches one. */
  lemma SuccessOnlyForKnownTypes(body: Body, runtimeMessage: string)
    ensures Post(body, runtimeMessage).Success? <==>
              body.Parsed? && !body.value.JNull?
              && Property(body.value, "type").Some? && Property(body.value, "type").value.JText?
              && Property(body.value, "type").value.text in KnownTypes
              && Property(body.value, "data").Some? && !Property(body.value, "data").value.JNull?
    ensures Post(body, runtimeMessage).Success? ==> Post(body, runtimeMessage).notificationType in KnownTypes
  {
  }

  /** A body that is not JSON gives 500 with the parser's message, or the default when that is empty. */
  lemma UnparsableIsServerError(msg: string, runtimeMessage: string)
    ensures StatusOf(Post(Unparsable(msg), runtimeMessage)) == 500
    ensures Post(Unparsable(msg), runtimeMessage).error == (if msg != "" then msg else SendFailed)
  {
  }
}
