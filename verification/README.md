# OCPP message envelope, modelled in Dafny

This project models the message-envelope layer of the `ocpp` Python package
(`ocpp/messages.py`). That layer implements the OCPP-J RPC framework of
section 4 of the OCPP-J 1.6 specification. It has three frame kinds:

- a CALL, `[2, uniqueId, action, payload]`;
- a CALLRESULT, `[3, uniqueId, payload]`;
- a CALLERROR, `[4, uniqueId, errorCode, errorDescription, errorDetails]`.

The model covers:

- decoding a parsed frame (`unpack`), with a distinct error for each framing fault;
- encoding a frame (`pack`, the `to_json` methods);
- the factories on a Call (`create_call_result`, `create_call_error`);
- how `get_schema` derives a schema path and caches the loaded schema;
- `validate_payload`;
- mapping a CallError to a protocol failure (`to_exception`).

Files and modules:

- `outcomes.dfy` (`Outcomes`): `Option`, `Result` and `Outcome`. They stand in for Python's None and raised exceptions.
- `json.dfy` (`JsonValues`): the parsed JSON value. Python's `None` is JSON `Null`.
- `errors.dfy` (`Errors`): every error the layer raises. It also holds `Failure`, the exception given to `create_call_error`.
- `messages.dfy` (`Messages`): frames, `Unpack`, `Pack`, the factories and `ToException`.
- `schemas.dfy` (`Schemas`): schema paths, `GetSchema`, and the `_schemas` cache threaded through as a `map<string, Schema>`.
- `validation.dfy` (`Validation`): `ValidatePayload`.

Modelling decisions:

- **Text is a parameter.** `Unpack` takes `Option<Json>`. `None` means the text did not parse as JSON. `Pack` returns the JSON array that `json.dumps` would write. `json.dumps` followed by `json.loads` is taken to be the identity on these values. That holds only when every Object has distinct keys, because `json.loads` keeps the last value of a repeated key; Objects are assumed to have distinct keys.
- **Decoded fields keep their JSON values.** The code never checks the type of a decoded field. So `uniqueId`, `action`, `errorCode` and the rest are `Json` values, not strings.
- **Constructor arity is modelled.** `cls(*msg[1:])` passes the array tail positionally. `Call` takes exactly 3 arguments. `CallResult` takes 2 or 3, because `action` defaults to None. `CallError` takes 3 or 4, because `error_details` defaults to None. Any other count raises a `TypeError`, which `unpack` does not catch. That is `ArityMismatch`, not `ProtocolError`. A 4-element CALLRESULT therefore decodes with its fourth element as the action.
- **The loader and the schema validator are parameters.** The schema loader is a parameter `load: string -> Load`. It stands for `open` plus `json.loads` of the file at the relative path. `jsonschema.validate` is a parameter `conforms: (Json, Schema) -> bool`.
- **The error-class registry is a parameter.** `OCPPError.__subclasses__()` is modelled as a parameter `registry: seq<string>`, the codes of the registered classes in registration order. No concrete codes are assumed.
- **Message type ids.** `MessageType.Call` and `MessageType.CallResult` are taken to be 2 and 3, the class-level ids of `Call` and `CallResult`.

Facts about the code that the model keeps:

- The generic error description is spelled `"An unexpected error occured."` (ocpp/messages.py:172).
- Decoded identifiers and actions are never type-checked and may be empty.
- The class docstrings (ocpp/messages.py:199 and :248) say a CALLRESULT always has 3 elements and a CALLERROR always 5. The constructors are more lenient (ocpp/messages.py:221, 258-259). A 4-element CALLRESULT is accepted, its last element becoming the action. A 4-element CALLERROR without details is accepted, its details becoming None.

## Model

| member | source | states |
|---|---|---|
| Messages.Construct | ocpp/messages.py:32-35 | `cls(*msg[1:])` succeeds exactly when the argument count is one the class constructor accepts: Call 3, CallResult 2..3, CallError 3..4. It then gives a message of that class whose constructor arguments are the array tail, with omitted optional arguments set to None. Any other count raises a TypeError. |
| Messages.Unpack | ocpp/messages.py:19-40 | Text that is not JSON gives exactly FormatViolation. A non-list gives ProtocolError "not a list". The empty list gives ProtocolError "missing MessageTypeId". A non-empty list whose head is not 2, 3 or 4 gives PropertyConstraintViolation carrying that head. For a head of 2, 3 or 4, decoding succeeds exactly when the constructor accepts the field count, and otherwise raises the TypeError (ArityMismatch) with that count. A decoded message carries the frame's discriminator, and its constructor arguments are the frame's remaining elements with omitted optional arguments set to None. |
| Messages.Pack | ocpp/messages.py:43-50 | The wire array starts with the message's type id and has the class's field count. Unpacking it gives back the same Call or CallError, and for a CallResult the same uniqueId and payload with the action back to None. |
| Messages.UnpackThenPack | ocpp/messages.py:229-234 | Decoding then re-encoding a frame gives the same array, with two exceptions. A CallError sent without details gains a trailing null. A CallResult's optional trailing action is dropped, because `to_json` never writes it. |
| Messages.CreateCallResult | ocpp/messages.py:165-168 | The CallResult keeps the Call's uniqueId, holds the given payload and copies the Call's action. It packs to `[3, uniqueId, payload]`. |
| Messages.CreateCallError | ocpp/messages.py:170-185 | The result is always a CallError with the Call's uniqueId. A protocol error gives its code, description and details verbatim. Any other exception gives "InternalError", "An unexpected error occured." and empty details. |
| Messages.FirstMatch | ocpp/messages.py:276-277 | Finds the first registered class whose code equals the frame's error code. It finds none exactly when no registered code matches. |
| Messages.ToException | ocpp/messages.py:274-284 | It succeeds exactly when some registered code equals the error code. The failure then carries that code and the frame's description and details. Otherwise it raises UnknownCallErrorCode with the frame's code. |
| Messages.CallErrorRoundTrip | ocpp/messages.py:170-185 | A protocol error turned into a CallError, sent over the wire and mapped back, is the same error when its code is registered. When the code is not registered, the result is UnknownCallErrorCode. |
| Messages.UnexpectedFailureRoundTrip | ocpp/messages.py:171-173 | Any non-protocol exception comes back on the receiving side as the InternalError failure if that code is registered, and as UnknownCallErrorCode otherwise. |
| Schemas.SchemaDir | ocpp/messages.py:59-64 | Exactly the versions "1.6" and "2.0" have a schema directory: "v16" and "v20" respectively. |
| Schemas.SchemaPath | ocpp/messages.py:59-77 | Any other version raises the ValueError. Otherwise the path is the version prefix, then the action, then the direction and version suffix, then ".json". |
| Schemas.PathIdentifiesVersion | ocpp/messages.py:59-62 | Two lookups that resolve to the same path use the same version. The same action never shares a schema across versions. |
| Schemas.PathIdentifiesAction | ocpp/messages.py:66-77 | For a fixed direction and version, the path determines the action. |
| Schemas.V20RequestAndResponsePathsDiffer | ocpp/messages.py:66-74 | Under 2.0 a Call's schema path never equals a CallResult's, whatever the two actions are. |
| Schemas.V20PathIdentifiesDirection | ocpp/messages.py:66-77 | Under 2.0 the path determines both the direction and the action. |
| Schemas.V16CallAndResultPathsCollide | ocpp/messages.py:66-71 | Under 1.6 Request schemas get no suffix. So for every action `a`, a Call for `a` + "Response" resolves to the path of the CallResult for `a`. |
| Schemas.GetSchema | ocpp/messages.py:53-91 | An unsupported version raises and leaves the cache alone. A cached path returns the cached schema and leaves the cache unchanged. Otherwise a successful load stores exactly that path and returns the loaded schema. A failed load raises and stores nothing. |
| Schemas.CacheHitIgnoresLoader | ocpp/messages.py:80-81 | When the path is cached, the result does not depend on the loader: it is never consulted. |
| Schemas.CachedLookupIsTransparent | ocpp/messages.py:80-91 | Suppose every cached entry is what the loader gives for its path. Then a lookup returns what an uncached read returns, never evicts or changes an entry, and keeps that property. |
| Schemas.RunLookups | ocpp/messages.py:80-91 | Over any sequence of lookups, every earlier entry is kept with its value. Every requested path with a supported version whose schema loads ends up cached. The cache grows by exactly the paths loaded successfully. Each such path is the path of one of the requests, was not cached before, and is loaded at most once. |
| Schemas.RunAgreesWithUncachedReads | ocpp/messages.py:80-91 | Over any sequence of lookups from a cache that agrees with the loader, every lookup returns what an uncached read returns. Repeated lookups of one key therefore give the same schema, and the cache keeps agreeing with the loader. |
| Validation.ValidatePayload | ocpp/messages.py:94-117 | A CallError is rejected with ValidationError before any lookup, and the cache is untouched. An unsupported version propagates unwrapped. A schema load failure becomes a ValidationError naming the action. Once the schema is obtained, a conforming payload passes and a mismatch becomes a ValidationError naming the payload and action. The cache afterwards is the lookup's cache, kept even when validation then fails, and is never evicted. |
| Validation.ValidationIsCacheIndependent | ocpp/messages.py:101-117 | With a cache that agrees with the loader, the verdict equals the uncached verdict. The cache keeps agreeing with the loader. |
| Validation.CreatedResultUsesResponseSchema | ocpp/messages.py:101-104 | A CallResult made by `create_call_result` is validatable. It is checked against the CallResult schema of the Call's action. |
| Validation.DecodedResultIsNotValidatable | ocpp/messages.py:221-227 | The same CallResult after a trip over the wire decodes with no action. It falls outside what the validator can be given. |

## Left out

- JSON text: `json.loads` and `json.dumps` are not modelled. A parse failure is an input to `Unpack`. Floating-point numbers are not part of the JSON model, so the discriminator equalities `2.0 == 2` and `True == 1` do not arise.
- Schema files: `os.path.realpath`, `open` and UTF-8-BOM decoding are replaced by the loader parameter. A load either yields a schema or fails, as an OSError or JSON decode error would. Other exceptions from reading a file are not modelled.
- `jsonschema.validate` is the `conforms` parameter. Its error text is not modelled.
- Dataclass flattening with `asdict` in `Call.__init__` (ocpp/messages.py:153-154) is left out. It is a serialization detail, and payloads are already JSON values.
- The `__repr__` methods are left out. They only print.
- The special-actions branch (ocpp/messages.py:109-111) is left out. It does nothing.
- Concurrent access to `_schemas` is left out. The code has no synchronisation to model.
- The error-class hierarchy in `ocpp/exceptions.py` and the enum in `ocpp/v16/enums.py` are not part of this model. The registry is a parameter, and the type ids are the literal 2 and 3.
- Messages.ToException: the failure records the matched code, description and details. It does not record which class matched. So two registered classes sharing one code cannot be told apart in the model.
- Messages.ToException: the description and details are taken to be kept verbatim by the error-class constructors called at ocpp/messages.py:278-281. Those constructors live in `ocpp/exceptions.py`, which is not part of this model.
- Validation.ValidatePayload: requires the message's action to be a JSON string, so messages with other actions are not modelled. A CallResult decoded from a 3-element frame has action None; one decoded from a 4-element frame has whatever its fourth element was. With an unsupported version, `get_schema` raises its ValueError (ocpp/messages.py:64) before the action is used, whatever its type. With a supported version:
  - for a CallResult (ocpp/messages.py:68) or a Call under 2.0 (ocpp/messages.py:71), a None, number, boolean or object action raises a TypeError on the suffix concatenation;
  - a list action is instead extended in place with one character per element, and the lookup of the resulting path fails and ends as a ValidationError (ocpp/messages.py:105-107);
  - for a Call under 1.6 no suffix is appended, and the action is formatted into the path with Python's `str()`.
- Validation.ValidatePayload: `conforms` is a total predicate. But `jsonschema.validate` first checks that the schema is itself a valid JSON Schema and raises SchemaError if not. SchemaError is not the SchemaValidationError caught at ocpp/messages.py:115. So a loaded schema that is not a valid JSON Schema escapes `validate_payload` unwrapped. The model does not have that outcome, and its promise that every failure is UnsupportedVersion or ValidationError assumes valid schemas.
