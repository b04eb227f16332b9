/** The request envelope `send_msg` builds and the checks `verify_msg` makes
    of a reply: the reply must not be the device's "parse_fail", must answer
    the expected operation and must carry the expected transmission ID. */
module Replies {
  import opened Values

  /** `{"message": {"transmission_id": [id], "op": op, "parameters": params}}`,
      without the "parameters" key when there are no parameters. */
  function Envelope(id: int, op: string, params: Option<Json>): (e: Json)
    ensures e.JObject? && e.fields.Keys == {"message"}
    ensures var m := e.fields["message"];
      m.JObject? && "transmission_id" in m.fields && "op" in m.fields &&
      ("parameters" in m.fields <==> params.Some?) &&
      |m.fields.Keys| == if params.Some? then 3 else 2
  {
    var message :=
      if params.Some? then
        map["transmission_id" := JArray([JInt(id)]), "op" := JString(op), "parameters" := params.value]
      else
        map["transmission_id" := JArray([JInt(id)]), "op" := JString(op)];
    assert params.Some? ==> message.Keys == {"transmission_id", "op", "parameters"};
    assert params.None? ==> message.Keys == {"transmission_id", "op"};
    JObject(map["message" := JObject(message)])
  }

  /** `msg["message"]["transmission_id"][0]` */
  function MessageId(msg: Json): Result<Json>
  {
    var message :- Key(msg, "message");
    var ids :- Key(message, "transmission_id");
    Item(ids, 0)
  }

  /** `msg["message"]["op"]` */
  function MessageOp(msg: Json): Result<Json>
  {
    var message :- Key(msg, "message");
    Key(message, "op")
  }

  /** `msg["message"]["parameters"][name]` */
  function Param(msg: Json, name: string): Result<Json>
  {
    var message :- Key(msg, "message");
    var params :- Key(message, "parameters");
    Key(params, name)
  }

  /** Reading an envelope back yields what it was built from. */
  lemma {:induction false} EnvelopeReadBack(id: int, op: string, params: Option<Json>)
    ensures MessageId(Envelope(id, op, params)) == Ok(JInt(id))
    ensures MessageOp(Envelope(id, op, params)) == Ok(JString(op))
    // the ID is sent as the one-element list [id], and the parameters as given
    ensures var message := Key(Envelope(id, op, params), "message").value;
      Key(message, "transmission_id") == Ok(JArray([JInt(id)])) &&
      (params.Some? ==> Key(message, "parameters") == Ok(params.value)) &&
      (params.None? ==> Key(message, "parameters") == Err(KeyError))
    ensures params.Some? && params.value.JObject? ==>
      forall name :: name in params.value.fields ==>
        Param(Envelope(id, op, params), name) == Ok(params.value.fields[name])
  {
  }

  /** The reply's ID and op are readable and the ID is not the one expected. */
  predicate IdDiffers(msg: Json, id: Option<int>)
  {
    id.Some? && MessageId(msg).Ok? && MessageOp(msg).Ok? &&
    !EqualsInt(MessageId(msg).value, id.value)
  }

  /** `verify_msg(msg, op, transmission_id)` with the ID check raising
      `SolstisError` as evidently intended (see `VerifyMsgAsWritten`). The
      ID and the op are read first; a reply lacking either fails there. */
  function VerifyMsg(msg: Json, op: Option<string>, id: Option<int>): (r: Result<()>)
    // a reply that answers another transmission never passes
    ensures IdDiffers(msg, id) ==>
      r == Err(Solstis(IdMismatch(MessageId(msg).value, id.value)))
    // "parse_fail" never passes, whatever op is expected
    ensures MessageOp(msg) == Ok(JString("parse_fail")) ==> r.Err?
    // a reply passes exactly when it is readable, is not "parse_fail" and
    // matches the expected op and ID
    ensures r.Ok? <==>
      MessageId(msg).Ok? && MessageOp(msg).Ok? &&
      MessageOp(msg).value != JString("parse_fail") &&
      (op.Some? ==> MessageOp(msg).value == JString(op.value)) &&
      (id.Some? ==> EqualsInt(MessageId(msg).value, id.value))
  {
    var msgId :- MessageId(msg);
    var msgOp :- MessageOp(msg);
    if id.Some? && !EqualsInt(msgId, id.value) then
      Err(Solstis(IdMismatch(msgId, id.value)))
    else if EqualsStr(msgOp, "parse_fail") then
      Err(Solstis(ParseFailed(msgId)))
    else if op.Some? && !EqualsStr(msgOp, op.value) then
      // the error text is built with `+ msgOP +`, which needs a str
      if msgOp.JString? then Err(Solstis(OpMismatch(msgId, msgOp.s, op.value)))
      else Err(TypeError)
    else
      Ok(())
  }

  /** `verify_msg` as written: on an ID mismatch it rebinds `msg` to the text
      of the error and then subscripts that text, which raises TypeError. */
  function VerifyMsgAsWritten(msg: Json, op: Option<string>, id: Option<int>): (r: Result<()>)
    ensures IdDiffers(msg, id) ==> r == Err(TypeError)
  {
    var msgId :- MessageId(msg);
    var msgOp :- MessageOp(msg);
    if id.Some? && !EqualsInt(msgId, id.value) then
      Err(TypeError)
    else if EqualsStr(msgOp, "parse_fail") then
      Err(Solstis(ParseFailed(msgId)))
    else if op.Some? && !EqualsStr(msgOp, op.value) then
      if msgOp.JString? then Err(Solstis(OpMismatch(msgId, msgOp.s, op.value)))
      else Err(TypeError)
    else
      Ok(())
  }

  /** The two versions differ only on an ID mismatch, where the code as
      written raises TypeError instead of SolstisError. */
  lemma AsWrittenDiffersOnlyOnIdMismatch(msg: Json, op: Option<string>, id: Option<int>)
    ensures VerifyMsgAsWritten(msg, op, id) != VerifyMsg(msg, op, id) <==> IdDiffers(msg, id)
  {
  }

  /** A reply to transmission 2 checked against transmission 1. */
  lemma AsWrittenIdMismatchIsTypeError()
    ensures VerifyMsgAsWritten(Envelope(2, "start_link_reply", None), Some("start_link_reply"), Some(1))
      == Err(TypeError)
    ensures VerifyMsg(Envelope(2, "start_link_reply", None), Some("start_link_reply"), Some(1))
      == Err(Solstis(IdMismatch(JInt(2), 1)))
  {
    EnvelopeReadBack(2, "start_link_reply", None);
  }

  /** A reply shaped like the request it answers passes verification, unless
      its op is "parse_fail"; another expected op is reported as a mismatch. */
  lemma {:induction false} MatchingEnvelopePasses(id: int, op: string, params: Option<Json>, wanted: string)
    requires op != "parse_fail"
    ensures VerifyMsg(Envelope(id, op, params), Some(op), Some(id)) == Ok(())
    ensures VerifyMsg(Envelope(id, op, params), None, None) == Ok(())
    ensures wanted != op ==>
      VerifyMsg(Envelope(id, op, params), Some(wanted), Some(id)) ==
        Err(Solstis(OpMismatch(JInt(id), op, wanted)))
  {
    EnvelopeReadBack(id, op, params);
  }

  /** A "parse_fail" reply with the right ID raises its own SolstisError,
      whatever op the caller expected. */
  lemma {:induction false} ParseFailRaises(id: int, params: Option<Json>, wanted: Option<string>)
    ensures VerifyMsg(Envelope(id, "parse_fail", params), wanted, Some(id)) ==
      Err(Solstis(ParseFailed(JInt(id))))
  {
    EnvelopeReadBack(id, "parse_fail", params);
  }
}
