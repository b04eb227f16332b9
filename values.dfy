/** JSON values as the client sees them after decoding, the errors the client
    raises, and the two Python operations the protocol code applies to decoded
    replies: subscripting (`v["key"]`, `v[0]`) and comparison with a literal. */
module Values {

  datatype Option<+T> = None | Some(value: T)

  /** A decoded JSON document. Integers and floats stay apart, as `json.loads`
      keeps them apart; floats are modelled as reals. */
  datatype Json =
    | JNull
    | JBool(b: bool)
    | JInt(i: int)
    | JFloat(f: real)
    | JString(s: string)
    | JArray(items: seq<Json>)
    | JObject(fields: map<string, Json>)

  /** Why a `SolstisError` was raised: one tag per raise site. */
  datatype Reason =
    | StoredDataInvalid                                   // residual does not start with '{'
    | ReceivedDataInvalid                                 // fresh data does not start with '{'
    | IdMismatch(replyId: Json, sentId: int)              // reply answers another transmission
    | ParseFailed(id: Json)                               // device answered "parse_fail"
    | OpMismatch(id: Json, replyOp: string, wantedOp: string) // reply carries another operation
    | LinkNotFormed                                       // start_link status "failed"
    | LinkStatusUnknown                                   // start_link status neither "ok" nor "failed"
    | NoMeter                                             // no wavelength meter found
    | WavelengthOutOfRange                                // set_wave_m status 2
    | MoveNoMeter                                         // move_wave_t status 1
    | MoveOutOfRange                                      // move_wave_t status other than 0 and 1
    | PollMoveFailed                                      // poll_move_wave_t status 2

  /** Every exception the protocol core can raise. */
  datatype Error =
    | Solstis(reason: Reason)
    | Timeout          // no complete frame before the transport ran dry
    | JsonDecodeError  // a balanced frame that is not valid JSON
    | KeyError         // a missing key in a JSON object
    | IndexError       // an index past the end of an array or string
    | TypeError        // subscripting a value that does not support it, or str + non-str

  datatype Result<+T> = Ok(value: T) | Err(error: Error) {
    predicate IsFailure() { Err? }

    function PropagateFailure<U>(): Result<U>
      requires Err?
    {
      Err(error)
    }

    function Extract(): T
      requires Ok?
    {
      value
    }
  }

  /** Python's `v[k]` for a string key. */
  function Key(v: Json, k: string): Result<Json>
  {
    match v
    case JObject(fields) => if k in fields then Ok(fields[k]) else Err(KeyError)
    case _ => Err(TypeError)
  }

  /** Python's `v[n]` for a non-negative integer index. A string yields its
      n-th character; an object has no integer keys once decoded from JSON. */
  function Item(v: Json, n: nat): Result<Json>
  {
    match v
    case JArray(items) => if n < |items| then Ok(items[n]) else Err(IndexError)
    case JString(s) => if n < |s| then Ok(JString([s[n]])) else Err(IndexError)
    case JObject(_) => Err(KeyError)
    case _ => Err(TypeError)
  }

  /** Python's `v == n` for an int literal n: booleans count as 0 and 1, and a
      float compares by value. */
  predicate EqualsInt(v: Json, n: int)
  {
    match v
    case JBool(b) => (if b then 1 else 0) == n
    case JInt(i) => i == n
    case JFloat(f) => f == n as real
    case _ => false
  }

  /** Python's `v == s` for a str literal s. */
  predicate EqualsStr(v: Json, s: string)
  {
    v == JString(s)
  }
}
