# SolsTiS client protocol core

A model of the protocol core of `solstis_functions.py`, the Python client for
the M Squared SolsTiS laser. The laser is driven by JSON documents over TCP.
Each request is wrapped in an envelope
`{"message": {"transmission_id": [id], "op": op, "parameters": {...}}}`. The
replies come back on the same connection with no length prefix and no
delimiter.

The model has five parts:

- `values.dfy` (module `Values`) holds the parsed JSON document as a datatype
  and the errors the client raises. It also gives Python's subscripting and
  `==` as the client relies on them:
  - a missing key raises KeyError;
  - an index past the end raises IndexError;
  - subscripting a number or a string with a key raises TypeError;
  - `True == 1`, and `1.0 == 1`.
- `framing.dfy` (module `Framing`) is the brace-balancing frame extractor of
  `recv_msg`:
  - A document ends at the first '}' that brings the count of '}' up to the
    count of '{'.
  - Every brace counts, including braces inside quoted strings.
  - Characters after the end are kept as a residual for the next call.
  - `RecvOutcome` is the pure specification of one call. `Expected` is a reference
    definition over the whole stream. The lemmas state the promised
    properties: shortest balanced prefix, nothing lost or duplicated,
    independence from chunk boundaries, and no read while the residual already
    holds a document.
  - Chunk boundaries do not matter up to the first error: two splittings of
    the same stream give the same document and the same remaining stream, so
    successive calls agree. After an error they can diverge. In the stream
    `{}\n{}{}`, a stray '\n' that arrives in the same read as the first
    document sticks to the residual, and every later call rejects it. The
    same '\n' arriving in a read of its own is rejected and dropped, and the
    next document still arrives.
  - `ScanBraces` is the brace-counting loop itself.
- `replies.dfy` (module `Replies`) covers the envelope `send_msg` builds and
  the checks `verify_msg` makes of a reply.
- `commands.dfy` (module `Commands`) holds the six commands' reply decoders.
  Each command's status codes are written as a table (`Table`, `Decide`), and
  each decoder is proved to follow its table for every reply.
- `session.dfy` (module `Client`) is the connection, as a class:
  - `nextData` is the residual, which is a module-global in the original.
  - `incoming` is the chunks the socket will deliver.
  - `outgoing` is the envelopes sent.
  - `loads` is the JSON decoder.
  - `RecvMsg` is the imperative `recv_msg`, and it is proved to do what
    `RecvOutcome` specifies. The command methods send their request, receive, and
    decode.

## Model

| member | source | states |
|---|---|---|
| Framing.FrameEnd | solstis_functions.py:57-65 | the end found is the shortest non-empty prefix with as many '}' as '{'; when there is none, no prefix is balanced |
| Framing.FrameEndIs | solstis_functions.py:83-93 | any shortest balanced prefix is the one the scan stops at |
| Framing.NoFrameEndIs | solstis_functions.py:83-94 | with no balanced prefix the scan finds nothing and has to read more |
| Framing.FrameEndOfExtension | solstis_functions.py:84-94 | a frame found in the data so far is not moved by characters read later |
| Framing.FrameShape | solstis_functions.py:46-47 | a frame that starts with '{' is at least two characters long, ends with '}', and has more '{' than '}' in every proper prefix |
| Framing.ScanBraces | solstis_functions.py:57-62 | the counting loop returns the end of the first balanced prefix, or reports that there is none with the counts of the whole data |
| Framing.Gather | solstis_functions.py:72-96 | the read-and-scan loop: an error keeps the old residual and a timeout has used every chunk; the following rows state each step (reject, find, read or time out) |
| Framing.GatherRejects | solstis_functions.py:78-80 | freshly read data not starting with '{' raises SolstisError, keeps the old residual and reads nothing more |
| Framing.GatherFinds | solstis_functions.py:90-93 | once a balanced prefix is seen, it is returned and what follows becomes the residual, with no further read |
| Framing.GatherReads | solstis_functions.py:72-75 | without a frame, one more chunk is read, or the call times out when none comes |
| Framing.GatherKeeps | solstis_functions.py:72-96 | chunks are taken only from the front: what is left unread is a suffix of the chunks given |
| Framing.GatherConserves | solstis_functions.py:63-64 | the document, the new residual and the unread chunks together are all the data it was given |
| Framing.RecvOutcome | solstis_functions.py:43-96 | one call: a non-empty residual not starting with '{' fails with SolstisError before any read; chunks are consumed from the front; on any error the residual is unchanged; document plus residual plus unread chunks equals old residual plus all chunks; a residual already holding a frame is served without reading |
| Framing.GatherMatchesReference | solstis_functions.py:72-96 | reading chunk by chunk gives the outcome the reference definition assigns to the whole stream |
| Framing.OutcomeMatchesReference | solstis_functions.py:43-96 | the outcome of one call depends only on the old residual followed by the chunks, as the reference definition says |
| Framing.ReturnedFrameIsShortestBalancedPrefix | solstis_functions.py:83-93 | a returned document is a prefix of the stream; it starts with '{', ends with '}' and is balanced; no shorter non-empty prefix is balanced |
| Framing.NothingLostOrDuplicated | solstis_functions.py:63-64 | document followed by new residual equals old residual followed by exactly the chunks read during the call |
| Framing.RemainingStream | solstis_functions.py:91-92 | after a success, new residual plus unread chunks is the stream after the document |
| Framing.ChunkBoundaryIndependence | solstis_functions.py:84-94 | splitting the same stream differently into chunks gives the same outcome and leaves the same remaining stream, unless the freshly read data is rejected |
| Framing.ExpectedOfPrefix | solstis_functions.py:52-54 | the reference outcome of a stream does not depend on how much of it was already stored, as long as it succeeds |
| Framing.OutcomeOnStream | solstis_functions.py:43-96 | one call succeeds exactly when the whole stream, residual first, starts with a document, and it then returns that document and leaves the rest of the stream |
| Framing.SameStreamSameOutcome | solstis_functions.py:43-96 | two calls whose residual and chunks spell the same stream both succeed or both fail, and on success return the same document and leave the same remaining stream |
| Framing.StrayCharacterInSameRead | solstis_functions.py:52-54 | in `{}\n{}{}` read as two chunks, the '\n' stays in the residual and the next call raises the stored-data error |
| Framing.StrayCharacterInOwnRead | solstis_functions.py:78-80 | in `{}\n{}{}` read as three chunks, the call that reads the '\n' raises the received-data error and drops it, and the next call returns `{}` |
| Framing.TwoDocumentsInOneRead | solstis_functions.py:57-65 | two documents arriving in one chunk are returned by two successive calls, the second without a read |
| Framing.QuotedBraceEndsFrame | solstis_functions.py:86-90 | a '}' inside a quoted string ends the frame early |
| Replies.Envelope | solstis_functions.py:32-39 | the envelope has the single key "message", holding the ID and op, with "parameters" present exactly when parameters are given |
| Replies.EnvelopeReadBack | solstis_functions.py:32-39 | "transmission_id" is exactly the one-element list [id], "op" is op, "parameters" is the given parameters themselves and is absent without them; the ID, op and each parameter read back are what the envelope was built from |
| Replies.VerifyMsg | solstis_functions.py:98-112 | an ID mismatch raises SolstisError; "parse_fail" never passes; a reply passes exactly when it is readable, is not "parse_fail", and its op and ID match what is expected |
| Replies.VerifyMsgAsWritten | solstis_functions.py:98-112 | as written, an ID mismatch ends in TypeError |
| Replies.AsWrittenDiffersOnlyOnIdMismatch | solstis_functions.py:101-105 | the code as written and the corrected check disagree exactly on replies whose readable ID differs |
| Replies.AsWrittenIdMismatchIsTypeError | solstis_functions.py:101-105 | a reply to transmission 2 checked against ID 1 raises TypeError as written, and SolstisError once corrected |
| Replies.MatchingEnvelopePasses | solstis_functions.py:108-112 | a reply with the expected op and ID passes, and one with another op raises an op mismatch |
| Replies.ParseFailRaises | solstis_functions.py:105-107 | a "parse_fail" reply raises SolstisError whatever op is expected |
| Commands.StartLinkTableSays | solstis_functions.py:118-123 | "ok" returns, "failed" means the link was not formed, anything else is an unknown status |
| Commands.SetWaveMTableSays | solstis_functions.py:138-143 | 1 means no meter, 2 out of range, anything else proceeds |
| Commands.PollWaveMTableSays | solstis_functions.py:186-193 | 1 means no meter, 0 or 3 not tuning, anything else still tuning |
| Commands.MoveWaveTTableSays | solstis_functions.py:209-215 | 0 returns, 1 means the wavemeter is not configured, anything else out of range |
| Commands.PollMoveWaveTTableSays | solstis_functions.py:231-238 | 2 fails, 1 still tuning, anything else not tuning |
| Commands.StartLinkReply | solstis_functions.py:117-123 | a failed check propagates its error, a missing status its error, otherwise the start_link table decides; success only on status "ok" |
| Commands.SetWaveMAccepted | solstis_functions.py:137-142 | a failed check or missing status propagates its error, otherwise the set_wave_m table decides acceptance |
| Commands.SetWaveMReply | solstis_functions.py:137-143 | once accepted, the reply's wavelength[0] is returned, otherwise the rejection |
| Commands.FinalReport | solstis_functions.py:166-169 | a failed verify_msg (for instance KeyError when the report has no transmission ID, or "parse_fail") propagates its error; the final report must have op "set_wave_m_f_r", its ID is not checked, and its wavelength[0] is returned |
| Commands.PollWaveMReply | solstis_functions.py:184-193 | a failed check or missing status[0] propagates its error; otherwise the poll_wave_m table decides, and a report returns current_wavelength[0] with the not-tuning flag |
| Commands.MoveWaveTReply | solstis_functions.py:207-215 | a failed check or missing status[0] propagates its error, otherwise the move_wave_t table decides |
| Commands.PollMoveWaveTReply | solstis_functions.py:229-238 | a failed check or missing status[0] propagates its error; otherwise the poll_move_wave_t table decides, and a report returns wavelength[0] with the not-tuning flag |
| Commands.SetWaveMOnReply | solstis_functions.py:135-143 | a well-formed reply to the right transmission is decoded as the table says for its status, returning the measured wavelength unchanged |
| Commands.SetWaveMStatuses | solstis_functions.py:138-143 | on a well-formed reply, status 0 returns the wavelength, 1 reports no meter, 2 out of range |
| Commands.MismatchedReplyNeverReturns | solstis_functions.py:101-107 | a reply answering another transmission, or a "parse_fail", makes every decoder fail, including the first-reply check of set_wave_m_f_r |
| Client.Session.Decoded | solstis_functions.py:91-93 | a received frame is decoded exactly when `loads` accepts it, a rejected frame fails with `JsonDecodeError`, and a receive error is passed on unchanged |
| Client.Session.SendMsg | solstis_functions.py:24-41 | exactly the request's envelope is appended to what was sent |
| Client.Session.Recv | solstis_functions.py:73 | the next chunk is taken from the front of the socket's input, or nothing once the input is exhausted |
| Client.Session.RecvMsg | solstis_functions.py:43-96 | the residual, the unread chunks and the result are those of `RecvOutcome` on the old residual and chunks, with the document decoded |
| Client.Session.ScanAndRead | solstis_functions.py:82-96 | the scan-and-read loop ends in the state `Gather` specifies for the data scanned so far and the remaining chunks |
| Client.Session.StartLink | solstis_functions.py:114-123 | sends the start_link envelope with the IP address, then decodes the received frame with `StartLinkReply` |
| Client.Session.SetWaveM | solstis_functions.py:125-143 | sends set_wave_m with [wavelength], then decodes with `SetWaveMReply` |
| Client.Session.SetWaveMFR | solstis_functions.py:146-169 | sends set_wave_m with a report request; a rejected first reply ends the call, otherwise a second frame is received and decoded as the final report |
| Client.Session.PollWaveM | solstis_functions.py:171-193 | sends poll_wave_m without parameters, then decodes with `PollWaveMReply` |
| Client.Session.MoveWaveT | solstis_functions.py:195-215 | sends move_wave_t with [wavelength], then decodes with `MoveWaveTReply` |
| Client.Session.PollMoveWaveT | solstis_functions.py:217-238 | sends poll_move_wave_t without parameters, then decodes with `PollMoveWaveTReply` |

## Left out

- Socket I/O is not modelled. `init_socket` (solstis_functions.py:18-22), `sendall` and `sock.settimeout` are out. `recv` is the chunk sequence `incoming`, and `outgoing` records the envelopes sent.
- The wall-clock timeout (solstis_functions.py:70-75, 95-96) is modelled as running out of chunks. A deadline that passes while data still arrives is not modelled, and neither is the `timeout` parameter of `recv_msg`.
- `json.dumps` is not modelled: `outgoing` holds the envelope as a document, not as text. `json.loads` is the function `Session.loads`, given when the session is made.
- Decoding 1024-byte chunks from UTF-8 is not modelled. Chunks are already strings, so a multi-byte character split across two reads is out of scope.
- The texts of the SolstisError messages are represented by `Reason` tags, which carry the IDs and ops the texts mention.
- Wavelengths are passed through unchanged as JSON values. Floating point is modelled as `real`.
- The scripts that drive the laser are not part of this model. They are device loops with plotting, file output and sleeps.
- The commands the scripts call but `solstis_functions.py` does not define are not part of this model.
- Python's JSON decoding error is the tag `JsonDecodeError`; its place among Python's exception classes (a ValueError) is not modelled. As in the source, the residual has already moved past the document when decoding fails.
- The residual is a field of each `Session`. In the source, `next_data` (solstis_functions.py:6, 44) is one module-global shared by every socket in the process, so two connections interleaved in one process would share a residual; the model does not capture that sharing.
- Commands.StartLinkReply: uses the corrected ID check `Replies.VerifyMsg`, so a reply with another transmission ID gives `Err(Solstis(IdMismatch(..)))` where the source raises TypeError (solstis_functions.py:103-105, reached from line 117).
- Commands.SetWaveMAccepted: uses the corrected ID check; on a reply with another transmission ID the source raises TypeError (reached from line 137 and line 159).
- Commands.SetWaveMReply: uses the corrected ID check through `SetWaveMAccepted`; the source raises TypeError on another transmission ID (reached from line 137).
- Commands.PollWaveMReply: uses the corrected ID check; the source raises TypeError on another transmission ID (reached from line 185).
- Commands.MoveWaveTReply: uses the corrected ID check; the source raises TypeError on another transmission ID (reached from line 208).
- Commands.PollMoveWaveTReply: uses the corrected ID check; the source raises TypeError on another transmission ID (reached from line 230).
- Client.Session.StartLink: decodes with `StartLinkReply`, so it reports a mismatched transmission ID as `IdMismatch` rather than the source's TypeError.
- Client.Session.SetWaveM: decodes with `SetWaveMReply`, so it reports a mismatched transmission ID as `IdMismatch` rather than the source's TypeError.
- Client.Session.SetWaveMFR: checks the first reply with `SetWaveMAccepted`, so it reports a mismatched transmission ID as `IdMismatch` rather than the source's TypeError.
- Client.Session.PollWaveM: decodes with `PollWaveMReply`, so it reports a mismatched transmission ID as `IdMismatch` rather than the source's TypeError.
- Client.Session.MoveWaveT: decodes with `MoveWaveTReply`, so it reports a mismatched transmission ID as `IdMismatch` rather than the source's TypeError.
- Client.Session.PollMoveWaveT: decodes with `PollMoveWaveTReply`, so it reports a mismatched transmission ID as `IdMismatch` rather than the source's TypeError.

## Findings

| source | as written | input that shows it | evidently intended | confidence | as-written member | corrected member |
|---|---|---|---|---|---|---|
| solstis_functions.py:101-105 | on an ID mismatch, `msg` is rebound to the error text and then subscripted with "message", raising TypeError; no SolstisError is ever raised for a mismatched ID | a reply `{"message": {"transmission_id": [2], "op": "start_link_reply"}}` checked against transmission ID 1 | raise SolstisError naming both IDs, as the parse_fail and op checks do | high; not executed | Replies.VerifyMsgAsWritten, Replies.AsWrittenIdMismatchIsTypeError | Replies.VerifyMsg |
