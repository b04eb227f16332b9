/** One connection to the laser: the socket, seen as the chunks it will
    deliver and the envelopes written to it, and the residual the frame
    extractor carries from one call to the next (a module-global in the
    original, a field here). Each command sends its request, receives one
    frame, decodes it with `json.loads` and hands it to its decoder. */
module Client {
  import opened Values
  import opened Framing
  import opened Replies
  import opened Commands

  class Session {
    /** Characters received after the end of the last frame. */
    var nextData: string
    /** The chunks `recv` will return, in order; when none is left, the
        read deadline passes. */
    var incoming: seq<string>
    /** The envelopes sent, in order. */
    var outgoing: seq<Json>
    /** `json.loads`: the document a string decodes to, or None. */
    const loads: string -> Option<Json>

    constructor (loads: string -> Option<Json>, incoming: seq<string>)
      ensures this.loads == loads && this.incoming == incoming
      ensures nextData == [] && outgoing == []
    {
      this.loads := loads;
      this.incoming := incoming;
      nextData := [];
      outgoing := [];
    }

    /** The decoded reply for the outcome of the frame extractor. */
    function Decoded(doc: Result<string>): (r: Result<Json>)
      ensures doc.Err? ==> r == Err(doc.error)
      // a frame that does not decode fails with JsonDecodeError; one that
      // does is returned as decoded
      ensures doc.Ok? ==> (r.Ok? <==> loads(doc.value).Some?)
      ensures doc.Ok? && r.Ok? ==> loads(doc.value) == Some(r.value)
      ensures doc.Ok? && r.Err? ==> r.error == JsonDecodeError
    {
      match doc
      case Err(e) => Err(e)
      case Ok(d) =>
        match loads(d)
        case None => Err(JsonDecodeError)
        case Some(v) => Ok(v)
    }

    /** `send_msg`: writes the envelope for one request. */
    method SendMsg(id: int, op: string, params: Option<Json> := None)
      modifies this`outgoing
      ensures outgoing == old(outgoing) + [Envelope(id, op, params)]
    {
      outgoing := outgoing + [Envelope(id, op, params)];
    }

    /** `s.recv`: the next chunk, or None once the deadline has passed. */
    method Recv() returns (chunk: Option<string>)
      modifies this`incoming
      ensures old(incoming) == [] ==> chunk == None && incoming == []
      ensures old(incoming) != [] ==> chunk == Some(old(incoming)[0]) && incoming == old(incoming)[1..]
    {
      if incoming == [] {
        chunk := None;
      } else {
        chunk := Some(incoming[0]);
        incoming := incoming[1..];
      }
    }

    /** `recv_msg`: returns the next frame, decoded. The residual changes only
        when a frame is found; on an error it keeps its old value and what was
        read during the call is dropped. */
    method RecvMsg() returns (r: Result<Json>)
      modifies this`nextData, this`incoming
      ensures var x := RecvOutcome(old(nextData), old(incoming));
        nextData == x.residual && incoming == x.rest && r == Decoded(x.doc)
    {
      ghost var stored, chunks := nextData, incoming;
      var i: nat := 0;
      var openCount: nat := 1;
      var closeCount: nat := 0;
      var data := nextData;

      // a stored residual must start a frame; it may already hold one
      if |data| > 0 {
        if data[0] != '{' {
          return Err(Solstis(StoredDataInvalid));
        }
        assert data[..1] == ['{'];
        var end;
        end, i, openCount, closeCount := ScanBraces(data, 0, openCount, closeCount);
        if end.Some? {
          GatherFinds(stored, data, chunks, end.value);
          nextData := data[end.value..];
          data := data[..end.value];
          r := Decoded(Ok(data));
          return;
        }
      }

      // read until there is some data
      while |data| == 0
        invariant nextData == stored
        invariant Gather(stored, data, incoming) == RecvOutcome(stored, chunks)
        invariant stored == [] ==> i == 0 && openCount == 1 && closeCount == 0
        invariant stored != [] ==>
          data == stored && data[0] == '{' && i == |data| - 1 &&
          openCount == Opens(data) && closeCount == Closes(data) && openCount > closeCount &&
          NoFrameUpTo(data, |data|)
        decreases |incoming|
      {
        GatherReads(stored, data, incoming);
        var chunk := Recv();
        if chunk.None? {
          return Err(Timeout);
        }
        data := data + chunk.value;
      }

      // freshly read data must start a frame
      if i == 0 {
        if data[0] != '{' {
          GatherRejects(stored, data, incoming);
          return Err(Solstis(ReceivedDataInvalid));
        }
      }
      assert data[..i+1] == if stored == [] then ['{'] else data;
      assert Scanned(data, i, openCount, closeCount);
      r := ScanAndRead(stored, data, i, openCount, closeCount);
    }

    /** The second half of `recv_msg`: counts on from index i of data, where
        the scan stopped, and reads a chunk whenever data is used up. */
    method ScanAndRead(ghost stored: string, data0: string, i0: nat, open0: nat, close0: nat)
      returns (r: Result<Json>)
      requires nextData == stored && Scanned(data0, i0, open0, close0)
      modifies this`nextData, this`incoming
      ensures var x := Gather(stored, data0, old(incoming));
        nextData == x.residual && incoming == x.rest && r == Decoded(x.doc)
    {
      ghost var chunks := incoming;
      var data := data0;
      var i: nat, openCount: nat, closeCount: nat := i0, open0, close0;
      while true
        invariant nextData == stored && Scanned(data, i, openCount, closeCount)
        invariant Gather(stored, data, incoming) == Gather(stored, data0, chunks)
        decreases |incoming|
      {
        if |data| > i + 1 {
          var end;
          end, i, openCount, closeCount := ScanBraces(data, i, openCount, closeCount);
          if end.Some? {
            GatherFinds(stored, data, incoming, end.value);
            nextData := data[end.value..];
            r := Decoded(Ok(data[..end.value]));
            return;
          }
        }
        assert data[..i+1] == data;
        GatherReads(stored, data, incoming);
        var chunk := Recv();
        if chunk.None? {
          return Err(Timeout);
        }
        ScannedAfterAppend(data, chunk.value, i, openCount, closeCount);
        data := data + chunk.value;
      }
    }

    /** `start_link`: asks the laser to open a link to `ipAddress`. */
    method StartLink(id: int := 1, ipAddress: string := "192.168.1.107") returns (r: Result<()>)
      modifies this`nextData, this`incoming, this`outgoing
      ensures outgoing == old(outgoing) +
        [Envelope(id, "start_link", Some(JObject(map["ip_address" := JString(ipAddress)])))]
      ensures var x := RecvOutcome(old(nextData), old(incoming));
        nextData == x.residual && incoming == x.rest &&
        r == match Decoded(x.doc)
             case Err(e) => Err(e)
             case Ok(val) => StartLinkReply(val, id)
    {
      SendMsg(id, "start_link", Some(JObject(map["ip_address" := JString(ipAddress)])));
      var val :- RecvMsg();
      r := StartLinkReply(val, id);
    }

    /** `set_wave_m`: tunes to `wavelength` (nm) under wavelength-meter
        control and returns the meter's latest reading. */
    method SetWaveM(wavelength: real, id: int := 1) returns (r: Result<Json>)
      modifies this`nextData, this`incoming, this`outgoing
      ensures outgoing == old(outgoing) +
        [Envelope(id, "set_wave_m", Some(JObject(map["wavelength" := JArray([JFloat(wavelength)])])))]
      ensures var x := RecvOutcome(old(nextData), old(incoming));
        nextData == x.residual && incoming == x.rest &&
        r == match Decoded(x.doc)
             case Err(e) => Err(e)
             case Ok(val) => SetWaveMReply(val, id)
    {
      SendMsg(id, "set_wave_m", Some(JObject(map["wavelength" := JArray([JFloat(wavelength)])])));
      var val :- RecvMsg();
      r := SetWaveMReply(val, id);
    }

    /** `set_wave_m_f_r`: as `SetWaveM`, but asks for a final report and, once
        the request is accepted, returns the wavelength of that report. */
    method SetWaveMFR(wavelength: real, id: int := 1) returns (r: Result<Json>)
      modifies this`nextData, this`incoming, this`outgoing
      ensures outgoing == old(outgoing) +
        [Envelope(id, "set_wave_m", Some(JObject(map["wavelength" := JArray([JFloat(wavelength)]),
                                                     "report" := JString("finished")])))]
      ensures var x := RecvOutcome(old(nextData), old(incoming));
        var accepted := match Decoded(x.doc)
                        case Err(e) => Err(e)
                        case Ok(val) => SetWaveMAccepted(val, id);
        if accepted.Err? then
          nextData == x.residual && incoming == x.rest && r == Err(accepted.error)
        else
          var y := RecvOutcome(x.residual, x.rest);
          nextData == y.residual && incoming == y.rest &&
          r == match Decoded(y.doc)
               case Err(e) => Err(e)
               case Ok(report) => FinalReport(report)
    {
      SendMsg(id, "set_wave_m", Some(JObject(map["wavelength" := JArray([JFloat(wavelength)]),
                                                  "report" := JString("finished")])));
      var val :- RecvMsg();
      var accepted :- SetWaveMAccepted(val, id);
      var report :- RecvMsg();
      r := FinalReport(report);
    }

    /** `poll_wave_m`: the latest meter reading and whether tuning is over. */
    method PollWaveM(id: int := 1) returns (r: Result<(Json, bool)>)
      modifies this`nextData, this`incoming, this`outgoing
      ensures outgoing == old(outgoing) + [Envelope(id, "poll_wave_m", None)]
      ensures var x := RecvOutcome(old(nextData), old(incoming));
        nextData == x.residual && incoming == x.rest &&
        r == match Decoded(x.doc)
             case Err(e) => Err(e)
             case Ok(val) => PollWaveMReply(val, id)
    {
      SendMsg(id, "poll_wave_m");
      var val :- RecvMsg();
      r := PollWaveMReply(val, id);
    }

    /** `move_wave_t`: tunes to `wavelength` (nm) using the wavelength table. */
    method MoveWaveT(wavelength: real, id: int := 1) returns (r: Result<()>)
      modifies this`nextData, this`incoming, this`outgoing
      ensures outgoing == old(outgoing) +
        [Envelope(id, "move_wave_t", Some(JObject(map["wavelength" := JArray([JFloat(wavelength)])])))]
      ensures var x := RecvOutcome(old(nextData), old(incoming));
        nextData == x.residual && incoming == x.rest &&
        r == match Decoded(x.doc)
             case Err(e) => Err(e)
             case Ok(val) => MoveWaveTReply(val, id)
    {
      SendMsg(id, "move_wave_t", Some(JObject(map["wavelength" := JArray([JFloat(wavelength)])])));
      var val :- RecvMsg();
      r := MoveWaveTReply(val, id);
    }

    /** `poll_move_wave_t`: the wavelength set from the table and whether
        tuning is over. */
    method PollMoveWaveT(id: int := 1) returns (r: Result<(Json, bool)>)
      modifies this`nextData, this`incoming, this`outgoing
      ensures outgoing == old(outgoing) + [Envelope(id, "poll_move_wave_t", None)]
      ensures var x := RecvOutcome(old(nextData), old(incoming));
        nextData == x.residual && incoming == x.rest &&
        r == match Decoded(x.doc)
             case Err(e) => Err(e)
             case Ok(val) => PollMoveWaveTReply(val, id)
    {
      SendMsg(id, "poll_move_wave_t");
      var val :- RecvMsg();
      r := PollMoveWaveTReply(val, id);
    }
  }
}
