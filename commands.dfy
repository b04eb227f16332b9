/** The replies of the six commands the client implements. Each reply is
    verified first; then a command-specific status field decides between a
    return value and a `SolstisError`. `start_link` and `set_wave_m` read a
    scalar status, the others the first element of a status array.

    Each command's decoding is stated as a table (`Table`, `Decide`), the
    status-code to outcome map the source spells out as an if-chain, and the
    decoders are proved to follow their table for every reply. */
module Commands {
  import opened Values
  import opened Replies

  /** A status value the source compares against. */
  datatype Code = Int(n: int) | Str(s: string)

  /** What a status value leads to: return normally, return a "not tuning"
      flag (the two polling commands), or raise. */
  datatype Action = Proceed | Report(notTuning: bool) | Raise(reason: Reason)

  datatype Row = Row(code: Code, action: Action)

  /** Rows are tried in order, with Python's `==`; `otherwise` applies when
      none matches. */
  datatype Table = Table(rows: seq<Row>, otherwise: Action)

  predicate Matches(status: Json, code: Code)
  {
    match code
    case Int(n) => EqualsInt(status, n)
    case Str(s) => EqualsStr(status, s)
  }

  function FirstMatch(rows: seq<Row>, status: Json, otherwise: Action): Action
  {
    if rows == [] then otherwise
    else if Matches(status, rows[0].code) then rows[0].action
    else FirstMatch(rows[1..], status, otherwise)
  }

  function Decide(t: Table, status: Json): Action
  {
    FirstMatch(t.rows, status, t.otherwise)
  }

  const StartLinkTable := Table([Row(Str("ok"), Proceed), Row(Str("failed"), Raise(LinkNotFormed))],
                                Raise(LinkStatusUnknown))
  const SetWaveMTable := Table([Row(Int(1), Raise(NoMeter)), Row(Int(2), Raise(WavelengthOutOfRange))],
                               Proceed)
  const PollWaveMTable := Table([Row(Int(1), Raise(NoMeter)), Row(Int(0), Report(true)), Row(Int(3), Report(true))],
                                Report(false))
  const MoveWaveTTable := Table([Row(Int(0), Proceed), Row(Int(1), Raise(MoveNoMeter))],
                                Raise(MoveOutOfRange))
  const PollMoveWaveTTable := Table([Row(Int(2), Raise(PollMoveFailed)), Row(Int(1), Report(false))],
                                    Report(true))

  lemma FirstMatchStep(rows: seq<Row>, status: Json, otherwise: Action)
    requires rows != []
    ensures FirstMatch(rows, status, otherwise) ==
      if Matches(status, rows[0].code) then rows[0].action
      else FirstMatch(rows[1..], status, otherwise)
  {
  }

  /** The rows of the `start_link` table, read off for one status. */
  lemma StartLinkTableSays(status: Json)
    ensures status == JString("ok") ==> Decide(StartLinkTable, status) == Proceed
    ensures status == JString("failed") ==> Decide(StartLinkTable, status) == Raise(LinkNotFormed)
    ensures status != JString("ok") && status != JString("failed") ==>
      Decide(StartLinkTable, status) == Raise(LinkStatusUnknown)
  {
    var rows := StartLinkTable.rows;
    FirstMatchStep(rows, status, StartLinkTable.otherwise);
    FirstMatchStep(rows[1..], status, StartLinkTable.otherwise);
    assert rows[1..][1..] == [];
  }

  lemma SetWaveMTableSays(status: Json)
    ensures EqualsInt(status, 1) ==> Decide(SetWaveMTable, status) == Raise(NoMeter)
    ensures EqualsInt(status, 2) ==> Decide(SetWaveMTable, status) == Raise(WavelengthOutOfRange)
    ensures !EqualsInt(status, 1) && !EqualsInt(status, 2) ==> Decide(SetWaveMTable, status) == Proceed
  {
    var rows := SetWaveMTable.rows;
    FirstMatchStep(rows, status, SetWaveMTable.otherwise);
    FirstMatchStep(rows[1..], status, SetWaveMTable.otherwise);
    assert rows[1..][1..] == [];
  }

  lemma PollWaveMTableSays(status: Json)
    ensures EqualsInt(status, 1) ==> Decide(PollWaveMTable, status) == Raise(NoMeter)
    ensures EqualsInt(status, 0) || EqualsInt(status, 3) ==> Decide(PollWaveMTable, status) == Report(true)
    ensures !EqualsInt(status, 0) && !EqualsInt(status, 1) && !EqualsInt(status, 3) ==>
      Decide(PollWaveMTable, status) == Report(false)
  {
    var rows := PollWaveMTable.rows;
    FirstMatchStep(rows, status, PollWaveMTable.otherwise);
    FirstMatchStep(rows[1..], status, PollWaveMTable.otherwise);
    FirstMatchStep(rows[1..][1..], status, PollWaveMTable.otherwise);
    assert rows[1..][1..][1..] == [];
  }

  lemma MoveWaveTTableSays(status: Json)
    ensures EqualsInt(status, 0) ==> Decide(MoveWaveTTable, status) == Proceed
    ensures EqualsInt(status, 1) ==> Decide(MoveWaveTTable, status) == Raise(MoveNoMeter)
    ensures !EqualsInt(status, 0) && !EqualsInt(status, 1) ==>
      Decide(MoveWaveTTable, status) == Raise(MoveOutOfRange)
  {
    var rows := MoveWaveTTable.rows;
    FirstMatchStep(rows, status, MoveWaveTTable.otherwise);
    FirstMatchStep(rows[1..], status, MoveWaveTTable.otherwise);
    assert rows[1..][1..] == [];
  }

  lemma PollMoveWaveTTableSays(status: Json)
    ensures EqualsInt(status, 2) ==> Decide(PollMoveWaveTTable, status) == Raise(PollMoveFailed)
    ensures EqualsInt(status, 1) ==> Decide(PollMoveWaveTTable, status) == Report(false)
    ensures !EqualsInt(status, 1) && !EqualsInt(status, 2) ==>
      Decide(PollMoveWaveTTable, status) == Report(true)
  {
    var rows := PollMoveWaveTTable.rows;
    FirstMatchStep(rows, status, PollMoveWaveTTable.otherwise);
    FirstMatchStep(rows[1..], status, PollMoveWaveTTable.otherwise);
    assert rows[1..][1..] == [];
  }

  /** `val["message"]["parameters"][name][0]`: the first element of a field,
      where the device puts wavelengths and most status codes. */
  function First(val: Json, name: string): Result<Json>
  {
    var field :- Param(val, name);
    Item(field, 0)
  }

  function WithFlag(w: Result<Json>, flag: bool): Result<(Json, bool)>
  {
    match w
    case Ok(v) => Ok((v, flag))
    case Err(e) => Err(e)
  }

  /** `start_link`: status "ok" returns, "failed" means the link could not be
      formed, anything else is an unknown error. */
  function StartLinkReply(val: Json, id: int): (r: Result<()>)
    ensures VerifyMsg(val, Some("start_link_reply"), Some(id)).Err? ==>
      r == Err(VerifyMsg(val, Some("start_link_reply"), Some(id)).error)
    ensures VerifyMsg(val, Some("start_link_reply"), Some(id)).Ok? && Param(val, "status").Err? ==>
      r == Err(Param(val, "status").error)
    ensures VerifyMsg(val, Some("start_link_reply"), Some(id)).Ok? && Param(val, "status").Ok? ==>
      var a := Decide(StartLinkTable, Param(val, "status").value);
      (r.Ok? <==> a == Proceed) && (a.Raise? ==> r == Err(Solstis(a.reason)))
    ensures r.Ok? ==> Param(val, "status") == Ok(JString("ok"))
  {
    var verified :- VerifyMsg(val, Some("start_link_reply"), Some(id));
    var status :- Param(val, "status");
    StartLinkTableSays(status);
    if EqualsStr(status, "ok") then Ok(())
    else if EqualsStr(status, "failed") then Err(Solstis(LinkNotFormed))
    else Err(Solstis(LinkStatusUnknown))
  }

  /** The status check `set_wave_m` and `set_wave_m_f_r` make of the
      `set_wave_m_reply`: 1 means no meter, 2 out of range, anything else
      (0 among them) is accepted. */
  function SetWaveMAccepted(val: Json, id: int): (r: Result<()>)
    ensures VerifyMsg(val, Some("set_wave_m_reply"), Some(id)).Err? ==>
      r == Err(VerifyMsg(val, Some("set_wave_m_reply"), Some(id)).error)
    ensures VerifyMsg(val, Some("set_wave_m_reply"), Some(id)).Ok? && Param(val, "status").Err? ==>
      r == Err(Param(val, "status").error)
    ensures VerifyMsg(val, Some("set_wave_m_reply"), Some(id)).Ok? && Param(val, "status").Ok? ==>
      var a := Decide(SetWaveMTable, Param(val, "status").value);
      (r.Ok? <==> a == Proceed) && (a.Raise? ==> r == Err(Solstis(a.reason)))
  {
    var verified :- VerifyMsg(val, Some("set_wave_m_reply"), Some(id));
    var status :- Param(val, "status");
    SetWaveMTableSays(status);
    if EqualsInt(status, 1) then Err(Solstis(NoMeter))
    else if EqualsInt(status, 2) then Err(Solstis(WavelengthOutOfRange))
    else Ok(())
  }

  /** `set_wave_m`: once accepted, the reply's measured wavelength is
      returned unchanged. */
  function SetWaveMReply(val: Json, id: int): (r: Result<Json>)
    ensures SetWaveMAccepted(val, id).Err? ==> r == Err(SetWaveMAccepted(val, id).error)
    ensures SetWaveMAccepted(val, id).Ok? ==> r == First(val, "wavelength")
  {
    var accepted :- SetWaveMAccepted(val, id);
    First(val, "wavelength")
  }

  /** The final report `set_wave_m_f_r` waits for: only its op is checked,
      not its transmission ID, and its wavelength is returned. */
  function FinalReport(val: Json): (r: Result<Json>)
    ensures VerifyMsg(val, Some("set_wave_m_f_r"), None).Err? ==>
      r == Err(VerifyMsg(val, Some("set_wave_m_f_r"), None).error)
    ensures r.Ok? ==> MessageOp(val) == Ok(JString("set_wave_m_f_r"))
    ensures VerifyMsg(val, Some("set_wave_m_f_r"), None).Ok? ==> r == First(val, "wavelength")
  {
    var verified :- VerifyMsg(val, Some("set_wave_m_f_r"), None);
    First(val, "wavelength")
  }

  /** `poll_wave_m`: status[0] 1 means no meter; 0 and 3 mean tuning is done,
      anything else that it is still going on; the current wavelength is
      returned with that flag. */
  function PollWaveMReply(val: Json, id: int): (r: Result<(Json, bool)>)
    ensures VerifyMsg(val, Some("poll_wave_m_reply"), Some(id)).Err? ==>
      r == Err(VerifyMsg(val, Some("poll_wave_m_reply"), Some(id)).error)
    ensures VerifyMsg(val, Some("poll_wave_m_reply"), Some(id)).Ok? && First(val, "status").Err? ==>
      r == Err(First(val, "status").error)
    ensures VerifyMsg(val, Some("poll_wave_m_reply"), Some(id)).Ok? && First(val, "status").Ok? ==>
      var a := Decide(PollWaveMTable, First(val, "status").value);
      (a.Raise? ==> r == Err(Solstis(a.reason))) &&
      (a.Report? ==> r == WithFlag(First(val, "current_wavelength"), a.notTuning))
  {
    var verified :- VerifyMsg(val, Some("poll_wave_m_reply"), Some(id));
    var status :- First(val, "status");
    PollWaveMTableSays(status);
    if EqualsInt(status, 1) then Err(Solstis(NoMeter))
    else
      var notTuning := EqualsInt(status, 0) || EqualsInt(status, 3);
      var wavelength :- First(val, "current_wavelength");
      Ok((wavelength, notTuning))
  }

  /** `move_wave_t`: status[0] 0 returns, 1 means the wavemeter is not
      configured, anything else that the wavelength is out of range. */
  function MoveWaveTReply(val: Json, id: int): (r: Result<()>)
    ensures VerifyMsg(val, Some("move_wave_t_reply"), Some(id)).Err? ==>
      r == Err(VerifyMsg(val, Some("move_wave_t_reply"), Some(id)).error)
    ensures VerifyMsg(val, Some("move_wave_t_reply"), Some(id)).Ok? && First(val, "status").Err? ==>
      r == Err(First(val, "status").error)
    ensures VerifyMsg(val, Some("move_wave_t_reply"), Some(id)).Ok? && First(val, "status").Ok? ==>
      var a := Decide(MoveWaveTTable, First(val, "status").value);
      (r.Ok? <==> a == Proceed) && (a.Raise? ==> r == Err(Solstis(a.reason)))
  {
    var verified :- VerifyMsg(val, Some("move_wave_t_reply"), Some(id));
    var status :- First(val, "status");
    MoveWaveTTableSays(status);
    if EqualsInt(status, 0) then Ok(())
    else if EqualsInt(status, 1) then Err(Solstis(MoveNoMeter))
    else Err(Solstis(MoveOutOfRange))
  }

  /** `poll_move_wave_t`: status[0] 2 is a failure, 1 means still tuning,
      anything else that tuning is done; the wavelength is returned with that
      flag. */
  function PollMoveWaveTReply(val: Json, id: int): (r: Result<(Json, bool)>)
    ensures VerifyMsg(val, Some("poll_move_wave_t_reply"), Some(id)).Err? ==>
      r == Err(VerifyMsg(val, Some("poll_move_wave_t_reply"), Some(id)).error)
    ensures VerifyMsg(val, Some("poll_move_wave_t_reply"), Some(id)).Ok? && First(val, "status").Err? ==>
      r == Err(First(val, "status").error)
    ensures VerifyMsg(val, Some("poll_move_wave_t_reply"), Some(id)).Ok? && First(val, "status").Ok? ==>
      var a := Decide(PollMoveWaveTTable, First(val, "status").value);
      (a.Raise? ==> r == Err(Solstis(a.reason))) &&
      (a.Report? ==> r == WithFlag(First(val, "wavelength"), a.notTuning))
  {
    var verified :- VerifyMsg(val, Some("poll_move_wave_t_reply"), Some(id));
    var status :- First(val, "status");
    PollMoveWaveTTableSays(status);
    if EqualsInt(status, 2) then Err(Solstis(PollMoveFailed))
    else
      var notTuning := !EqualsInt(status, 1);
      var wavelength :- First(val, "wavelength");
      Ok((wavelength, notTuning))
  }

  /** A reply to transmission `id` with op `op` (such as "set_wave_m_reply")
      and the given parameters: it has the request envelope's shape. */
  function ReplyOf(id: int, op: string, params: map<string, Json>): Json
  {
    Envelope(id, op, Some(JObject(params)))
  }

  /** A `set_wave_m_reply` to the right transmission, carrying a status and
      a measured wavelength, is decoded as the table says for that status. */
  lemma SetWaveMOnReply(id: int, status: Json, w: Json)
    ensures SetWaveMReply(ReplyOf(id, "set_wave_m_reply",
      map["status" := status, "wavelength" := JArray([w])]), id) ==
      match Decide(SetWaveMTable, status)
      case Raise(e) => Err(Solstis(e))
      case _ => Ok(w)
  {
    var params := JObject(map["status" := status, "wavelength" := JArray([w])]);
    var val := Envelope(id, "set_wave_m_reply", Some(params));
    MatchingEnvelopePasses(id, "set_wave_m_reply", Some(params), "");
    EnvelopeReadBack(id, "set_wave_m_reply", Some(params));
    assert Param(val, "status") == Ok(status);
    assert First(val, "wavelength") == Ok(w);
    SetWaveMTableSays(status);
  }

  /** `set_wave_m` on a well-formed reply: status 0 returns the measured
      wavelength unchanged, 1 reports no meter, 2 out of range. */
  lemma SetWaveMStatuses(id: int, w: Json)
    ensures SetWaveMReply(ReplyOf(id, "set_wave_m_reply",
      map["status" := JInt(0), "wavelength" := JArray([w])]), id) == Ok(w)
    ensures SetWaveMReply(ReplyOf(id, "set_wave_m_reply",
      map["status" := JInt(1), "wavelength" := JArray([w])]), id) == Err(Solstis(NoMeter))
    ensures SetWaveMReply(ReplyOf(id, "set_wave_m_reply",
      map["status" := JInt(2), "wavelength" := JArray([w])]), id) == Err(Solstis(WavelengthOutOfRange))
  {
    SetWaveMOnReply(id, JInt(0), w);
    SetWaveMOnReply(id, JInt(1), w);
    SetWaveMOnReply(id, JInt(2), w);
    SetWaveMTableSays(JInt(0));
    SetWaveMTableSays(JInt(1));
    SetWaveMTableSays(JInt(2));
  }

  /** A reply that answers another transmission never returns normally from
      any command, and neither does "parse_fail". */
  lemma MismatchedReplyNeverReturns(val: Json, id: int)
    requires IdDiffers(val, Some(id)) || MessageOp(val) == Ok(JString("parse_fail"))
    ensures StartLinkReply(val, id).Err? && SetWaveMReply(val, id).Err?
    ensures PollWaveMReply(val, id).Err? && MoveWaveTReply(val, id).Err?
    ensures PollMoveWaveTReply(val, id).Err? && SetWaveMAccepted(val, id).Err?
  {
  }
}
