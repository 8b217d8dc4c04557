/** JSON-RPC 2.0 frames as the line parser hands them over: one object of
    each kind the parser distinguishes (request, notification, success,
    error, invalid). Text parsing and serialisation are not modelled. */
module Frames {
  import opened Js

  /** A correlation id: the integer whose decimal string is sent on the wire. */
  type Id = nat

  /** Parameters and results are carried, never inspected. */
  datatype Json =
    | JNull
    | JBool(b: bool)
    | JNum(n: int)
    | JStr(s: string)
    | JArr(items: seq<Json>)
    | JObj(fields: map<string, Json>)

  /** The Error object of section 5.1 of the JSON-RPC 2.0 Specification. */
  datatype RpcError = RpcError(message: string, code: int)

  datatype Message =
    | Request(id: Id, name: string, params: Json)          // section 4
    | Notification(name: string, params: Json)             // section 4.1
    | Success(id: Id, result: Json)                        // section 5
    | Failure(errorId: Option<Id>, error: RpcError)        // section 5, null id allowed
    | Invalid(error: RpcError)                             // anything the parser rejects

  /** The kinds of frame that are answers to a call. */
  predicate IsResponse(m: Message) {
    m.Success? || m.Failure?
  }

  /** The id a response frame is addressed to, if it has one. */
  function ResponseId(m: Message): (r: Option<Id>)
    ensures r.Some? ==> IsResponse(m)
    ensures m.Success? ==> r == Some(m.id)
    ensures m.Failure? ==> r == m.errorId
  {
    match m
    case Success(id, _) => Some(id)
    case Failure(id, _) => id
    case _ => None
  }

  /** Error code of the error payload a call resolves with when it times out. */
  const TimeoutCode: int := 11

  /** `newTimeout(id)`: the error response synthesised for a call that timed out. */
  function TimeoutError(id: Id): (m: Message)
    ensures IsResponse(m) && ResponseId(m) == Some(id)
    ensures m.Failure? && m.error == RpcError("timeout", TimeoutCode)
  {
    Failure(Some(id), RpcError("timeout", TimeoutCode))
  }

  /** What the parser returns for one line: a single frame, or the frames
      of a batch (section 6). */
  datatype Parsed = Single(frame: Message) | Batch(frames: seq<Message>)

  /** A single frame becomes a one-element list; a batch is kept as it is. */
  function Normalize(p: Parsed): seq<Message> {
    match p
    case Single(m) => [m]
    case Batch(ms) => ms
  }
}
