/** The three OCPP-J frames (CALL, CALLRESULT, CALLERROR of section 4 of the
    OCPP-J 1.6 specification), their wire arrays, decoding of a parsed frame,
    the factories on a Call and the mapping of a CallError to a failure. */
module Messages {
  import opened Outcomes
  import opened JsonValues
  import opened Errors

  const CallTypeId: int := 2
  const CallResultTypeId: int := 3
  const CallErrorTypeId: int := 4

  /** A frame in memory. Decoded fields keep whatever JSON value the wire
      carried; Null plays the part of Python's None. A CallResult's action
      is never on the wire. */
  datatype Message =
    | Call(uniqueId: Json, action: Json, payload: Json)
    | CallResult(uniqueId: Json, payload: Json, action: Json)
    | CallError(uniqueId: Json, errorCode: Json, errorDescription: Json, errorDetails: Json)
  {
    /** The class-level `message_type_id`. */
    function TypeId(): int {
      match this
      case Call(_, _, _) => CallTypeId
      case CallResult(_, _, _) => CallResultTypeId
      case CallError(_, _, _, _) => CallErrorTypeId
    }
  }

  /** The full positional argument list of the message's constructor, in
      declaration order, with the optional arguments spelled out. */
  function Arguments(m: Message): seq<Json> {
    match m
    case Call(u, a, p) => [u, a, p]
    case CallResult(u, p, a) => [u, p, a]
    case CallError(u, c, d, x) => [u, c, d, x]
  }

  /** How many positional arguments each constructor accepts: Call takes
      three; CallResult's action and CallError's details default to None. */
  function MinArity(typeId: int): nat {
    if typeId == CallTypeId then 3 else if typeId == CallResultTypeId then 2 else 3
  }

  function MaxArity(typeId: int): nat {
    if typeId == CallTypeId then 3 else if typeId == CallResultTypeId then 3 else 4
  }

  /** `cls(*args)` for the class with the given discriminator. A field count
      the constructor does not accept raises a TypeError. */
  function Construct(typeId: int, args: seq<Json>): (r: Result<Message, Error>)
    requires typeId in {CallTypeId, CallResultTypeId, CallErrorTypeId}
    ensures r.Ok? <==> MinArity(typeId) <= |args| <= MaxArity(typeId)
    ensures r.Err? ==> r.error == ArityMismatch(typeId, |args|)
    ensures r.Ok? ==> r.value.TypeId() == typeId
    ensures r.Ok? ==> Arguments(r.value) == args + Nulls(MaxArity(typeId) - |args|)
  {
    if !(MinArity(typeId) <= |args| <= MaxArity(typeId)) then
      Err(ArityMismatch(typeId, |args|))
    else
      var full := args + Nulls(MaxArity(typeId) - |args|);
      if typeId == CallTypeId then Ok(Call(full[0], full[1], full[2]))
      else if typeId == CallResultTypeId then Ok(CallResult(full[0], full[1], full[2]))
      else Ok(CallError(full[0], full[1], full[2], full[3]))
  }

  /** `unpack`: turns the parsed frame text into a message. `parsed` is None
      when the text is not JSON. The discriminator is compared with 2, 3 and
      4 in that order; the remaining elements are the constructor's
      arguments. */
  function Unpack(parsed: Option<Json>): (r: Result<Message, Error>)
    ensures r == Err(FormatViolation) <==> parsed.None?
    ensures r == Err(ProtocolError(NotAList)) <==> parsed.Some? && !parsed.value.Array?
    ensures r == Err(ProtocolError(MissingMessageTypeId)) <==> parsed == Some(Array([]))
    ensures r.Err? && r.error.PropertyConstraintViolation? <==>
              parsed.Some? && parsed.value.Array? && |parsed.value.items| > 0
              && parsed.value.items[0] !in {Int(CallTypeId), Int(CallResultTypeId), Int(CallErrorTypeId)}
    ensures parsed.Some? && parsed.value.Array? && |parsed.value.items| > 0
            && parsed.value.items[0] !in {Int(CallTypeId), Int(CallResultTypeId), Int(CallErrorTypeId)} ==>
              r == Err(PropertyConstraintViolation(parsed.value.items[0]))
    ensures parsed.Some? && parsed.value.Array? && |parsed.value.items| > 0
            && parsed.value.items[0] in {Int(CallTypeId), Int(CallResultTypeId), Int(CallErrorTypeId)} ==>
              var items := parsed.value.items;
              var t := items[0].i;
              && (r.Ok? <==> MinArity(t) <= |items| - 1 <= MaxArity(t))
              && (r.Err? ==> r.error == ArityMismatch(t, |items| - 1))
              && (r.Ok? ==> Arguments(r.value) == items[1..] + Nulls(MaxArity(t) - (|items| - 1)))
    ensures r.Ok? ==>
              && parsed.Some? && parsed.value.Array? && |parsed.value.items| > 0
              && parsed.value.items[0] == Int(r.value.TypeId())
              && MinArity(r.value.TypeId()) < |parsed.value.items| <= 1 + |Arguments(r.value)|
              && Arguments(r.value)[..|parsed.value.items| - 1] == parsed.value.items[1..]
  {
    match parsed
    case None => Err(FormatViolation)
    case Some(Array(items)) =>
      if |items| == 0 then Err(ProtocolError(MissingMessageTypeId))
      else if items[0] == Int(CallTypeId) then Construct(CallTypeId, items[1..])
      else if items[0] == Int(CallResultTypeId) then Construct(CallResultTypeId, items[1..])
      else if items[0] == Int(CallErrorTypeId) then Construct(CallErrorTypeId, items[1..])
      else Err(PropertyConstraintViolation(items[0]))
    case Some(_) => Err(ProtocolError(NotAList))
  }

  /** What survives a trip over the wire: everything except a CallResult's
      in-memory action. */
  function OnTheWire(m: Message): Message {
    match m
    case CallResult(u, p, _) => CallResult(u, p, Null)
    case _ => m
  }

  /** `pack` (each class's `to_json`): the discriminator followed by the
      fields in wire order. Unpacking it gives the message back, except a
      CallResult's action, which is not encoded. */
  function Pack(m: Message): (j: Json)
    ensures j.Array? && |j.items| == 1 + MaxArity(m.TypeId()) - (if m.CallResult? then 1 else 0)
    ensures j.items[0] == Int(m.TypeId())
    ensures Unpack(Some(j)) == Ok(OnTheWire(m))
  {
    match m
    case Call(u, a, p) => Array([Int(CallTypeId), u, a, p])
    case CallResult(u, p, _) => Array([Int(CallResultTypeId), u, p])
    case CallError(u, c, d, x) => Array([Int(CallErrorTypeId), u, c, d, x])
  }

  /** Decoding then encoding gives back the frame, with the defaults the
      decoder filled in (a trailing null details) and without the optional
      trailing action of a CallResult, which `to_json` drops. */
  lemma UnpackThenPack(j: Json, m: Message)
    requires Unpack(Some(j)) == Ok(m)
    ensures j.Array?
    ensures Pack(m).items == (j.items + [Null])[..|Pack(m).items|]
    ensures m.CallResult? ==> m.action == (if |j.items| == 4 then j.items[3] else Null)
  {
  }

  /** `Call.create_call_result`: a CallResult answering the call, which
      keeps the call's action in memory so the response can be validated. */
  function CreateCallResult(call: Message, payload: Json): (r: Message)
    requires call.Call?
    ensures r.CallResult? && r.uniqueId == call.uniqueId && r.payload == payload
    ensures r.action == call.action
    ensures Pack(r) == Array([Int(CallResultTypeId), call.uniqueId, payload])
  {
    CallResult(call.uniqueId, payload, call.action)
  }

  const InternalErrorCode: string := "InternalError"
  const InternalErrorDescription: string := "An unexpected error occured."

  /** `Call.create_call_error`: a CallError answering the call. A protocol
      error contributes its own code, description and details; any other
      exception becomes an InternalError with empty details. */
  function CreateCallError(call: Message, failure: Failure): (r: Message)
    requires call.Call?
    ensures r.CallError? && r.uniqueId == call.uniqueId
    ensures failure.OcppError? ==>
              r.errorCode == Str(failure.code)
              && r.errorDescription == failure.description
              && r.errorDetails == failure.details
    ensures failure.Unexpected? ==>
              r.errorCode == Str(InternalErrorCode)
              && r.errorDescription == Str(InternalErrorDescription)
              && r.errorDetails == Object([])
  {
    match failure
    case OcppError(code, description, details) =>
      CallError(call.uniqueId, Str(code), description, details)
    case Unexpected =>
      CallError(call.uniqueId, Str(InternalErrorCode), Str(InternalErrorDescription), Object([]))
  }

  /** The position of the first registered error class whose code equals
      `code`, scanning in registration order. */
  function FirstMatch(registry: seq<string>, code: Json): (r: Option<nat>)
    ensures r.None? <==> forall i :: 0 <= i < |registry| ==> Str(registry[i]) != code
    ensures r.Some? ==> r.value < |registry| && Str(registry[r.value]) == code
    ensures r.Some? ==> forall i :: 0 <= i < r.value ==> Str(registry[i]) != code
  {
    if |registry| == 0 then None
    else if Str(registry[0]) == code then Some(0)
    else match FirstMatch(registry[1..], code)
      case None => None
      case Some(k) => Some(k + 1)
  }

  /** `CallError.to_exception`: the first registered protocol error class
      whose code is the frame's error code, built from the frame's
      description and details; an unregistered code raises
      UnknownCallErrorCode. */
  function ToException(err: Message, registry: seq<string>): (r: Result<Failure, Error>)
    requires err.CallError?
    ensures r.Ok? <==> exists i :: 0 <= i < |registry| && Str(registry[i]) == err.errorCode
    ensures r.Err? ==> r.error == UnknownCallErrorCode(err.errorCode)
    ensures r.Ok? ==>
              && r.value.OcppError? && Str(r.value.code) == err.errorCode
              && r.value.description == err.errorDescription
              && r.value.details == err.errorDetails
  {
    match FirstMatch(registry, err.errorCode)
    case None => Err(UnknownCallErrorCode(err.errorCode))
    case Some(k) => Ok(OcppError(registry[k], err.errorDescription, err.errorDetails))
  }

  /** A protocol error turned into a CallError and back is the same error,
      provided its code is registered; otherwise the receiver cannot name it. */
  lemma CallErrorRoundTrip(call: Message, failure: Failure, registry: seq<string>)
    requires call.Call? && failure.OcppError?
    ensures var back := ToException(OnTheWire(CreateCallError(call, failure)), registry);
            (failure.code in registry ==> back == Ok(failure))
            && (failure.code !in registry ==> back == Err(UnknownCallErrorCode(Str(failure.code))))
  {
  }

  /** Any other exception reaches the receiver as an InternalError. */
  lemma UnexpectedFailureRoundTrip(call: Message, registry: seq<string>)
    requires call.Call?
    ensures var back := ToException(CreateCallError(call, Unexpected), registry);
            (InternalErrorCode in registry ==>
               back == Ok(OcppError(InternalErrorCode, Str(InternalErrorDescription), Object([]))))
            && (InternalErrorCode !in registry ==>
               back == Err(UnknownCallErrorCode(Str(InternalErrorCode))))
  {
  }
}
