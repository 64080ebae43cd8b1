/** `validate_payload`: checks a Call's or CallResult's payload against the
    schema of its action, direction and protocol version. */
module Validation {
  import opened Outcomes
  import opened JsonValues
  import opened Errors
  import opened Messages
  import opened Schemas

  /** The outcome of validating, with the schema cache after the call. */
  datatype Validated = Validated(outcome: Outcome<Error>, cache: Cache)

  /** Messages the validator can be handed: a CallError (rejected at once)
      or a Call or CallResult whose action is a string. A CallResult decoded
      from the wire has no action and is not one of them. */
  predicate Validatable(m: Message) {
    m.CallError? || m.action.Str?
  }

  /** `validate_payload`. A CallError is rejected before any schema lookup.
      An unsupported version's error passes through unwrapped; a schema that
      cannot be loaded, and a payload that does not conform (`conforms`
      stands for the JSON Schema validator), become ValidationErrors. The
      cache keeps what the lookup stored even when validation then fails. */
  function ValidatePayload(m: Message, version: string, cache: Cache,
                           load: string -> Load, conforms: (Json, Schema) -> bool): (r: Validated)
    requires Validatable(m)
    ensures m.CallError? ==> r == Validated(Fail(ValidationError(NotCallOrCallResult)), cache)
    ensures Extends(cache, r.cache)
    ensures r.outcome.Fail? ==> r.outcome.error.UnsupportedVersion? || r.outcome.error.ValidationError?
    ensures r.outcome.Fail? && r.outcome.error.UnsupportedVersion? <==>
              !m.CallError? && version != V16 && version != V20
    ensures !m.CallError? ==>
              (r.outcome == Fail(ValidationError(SchemaLoadFailed(m.action.s))) <==>
              && SchemaPath(m.TypeId(), m.action.s, version).Ok?
              && SchemaPath(m.TypeId(), m.action.s, version).value !in cache
              && load(SchemaPath(m.TypeId(), m.action.s, version).value).LoadFailed?)
    ensures r.outcome.Fail? && r.outcome.error.ValidationError? && r.outcome.error.validationFault.PayloadInvalid? ==>
              && !m.CallError?
              && r.outcome.error.validationFault == PayloadInvalid(m.payload, m.action.s)
              && !conforms(m.payload, GetSchema(cache, m.TypeId(), m.action.s, version, load).result.value)
    ensures !m.CallError? ==> r.cache == GetSchema(cache, m.TypeId(), m.action.s, version, load).cache
    ensures !m.CallError? && GetSchema(cache, m.TypeId(), m.action.s, version, load).result.Ok? ==>
              var schema := GetSchema(cache, m.TypeId(), m.action.s, version, load).result.value;
              r.outcome == (if conforms(m.payload, schema) then Pass
                            else Fail(ValidationError(PayloadInvalid(m.payload, m.action.s))))
    ensures r.outcome.Pass? ==>
              && !m.CallError?
              && GetSchema(cache, m.TypeId(), m.action.s, version, load).result.Ok?
              && conforms(m.payload, GetSchema(cache, m.TypeId(), m.action.s, version, load).result.value)
  {
    if m.CallError? then Validated(Fail(ValidationError(NotCallOrCallResult)), cache)
    else
      var action := m.action.s;
      var lookup := GetSchema(cache, m.TypeId(), action, version, load);
      match lookup.result
      case Err(SchemaUnavailable(_)) =>
        Validated(Fail(ValidationError(SchemaLoadFailed(action))), lookup.cache)
      case Err(e) => Validated(Fail(e), lookup.cache)
      case Ok(schema) =>
        if conforms(m.payload, schema) then Validated(Pass, lookup.cache)
        else Validated(Fail(ValidationError(PayloadInvalid(m.payload, action))), lookup.cache)
  }

  /** What validation decides with no cache: the reference the cached
      validator is compared against. */
  function Verdict(m: Message, version: string, load: string -> Load,
                   conforms: (Json, Schema) -> bool): Outcome<Error>
    requires Validatable(m)
  {
    if m.CallError? then Fail(ValidationError(NotCallOrCallResult))
    else if version != V16 && version != V20 then Fail(UnsupportedVersion(version))
    else match Fetch(m.TypeId(), m.action.s, version, load)
      case Err(_) => Fail(ValidationError(SchemaLoadFailed(m.action.s)))
      case Ok(schema) =>
        if conforms(m.payload, schema) then Pass
        else Fail(ValidationError(PayloadInvalid(m.payload, m.action.s)))
  }

  /** With schema files that do not change, a consistent cache never alters
      a verdict: validating through the cache decides exactly what an
      uncached validation decides, and the cache stays consistent. */
  lemma ValidationIsCacheIndependent(m: Message, version: string, cache: Cache,
                                     load: string -> Load, conforms: (Json, Schema) -> bool)
    requires Validatable(m)
    requires Consistent(cache, load)
    ensures ValidatePayload(m, version, cache, load, conforms).outcome == Verdict(m, version, load, conforms)
    ensures Consistent(ValidatePayload(m, version, cache, load, conforms).cache, load)
  {
    if !m.CallError? {
      CachedLookupIsTransparent(cache, m.TypeId(), m.action.s, version, load);
    }
  }

  /** A response built by the Call it answers is validated against the
      response schema of the call's action. */
  lemma CreatedResultUsesResponseSchema(call: Message, payload: Json, version: string,
                                        load: string -> Load, conforms: (Json, Schema) -> bool)
    requires call.Call? && call.action.Str?
    requires version == V16 || version == V20
    ensures Validatable(CreateCallResult(call, payload))
    ensures var path := SchemaPath(CallResultTypeId, call.action.s, version).value;
            ValidatePayload(CreateCallResult(call, payload), version, map[], load, conforms).outcome ==
              match load(path)
              case LoadFailed => Fail(ValidationError(SchemaLoadFailed(call.action.s)))
              case Loaded(s) =>
                if conforms(payload, s) then Pass
                else Fail(ValidationError(PayloadInvalid(payload, call.action.s)))
  {
  }

  /** The same response after a trip over the wire has lost its action and
      can no longer be validated without the caller supplying one. */
  lemma DecodedResultIsNotValidatable(call: Message, payload: Json)
    requires call.Call?
    ensures Unpack(Some(Pack(CreateCallResult(call, payload)))).Ok?
    ensures !Validatable(Unpack(Some(Pack(CreateCallResult(call, payload)))).value)
  {
  }
}
