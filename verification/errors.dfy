/** The failure kinds the envelope layer raises or converts. */
module Errors {
  import opened JsonValues

  /** Why a parsed frame does not have the envelope shape. */
  datatype ProtocolFault =
    | NotAList              // the parsed value is not a JSON array
    | MissingMessageTypeId  // the array is empty

  /** Why `validate_payload` rejected a message. */
  datatype ValidationFault =
    | NotCallOrCallResult                          // a CallError has no payload to validate
    | SchemaLoadFailed(action: string)             // the schema file could not be read or parsed
    | PayloadInvalid(payload: Json, action: string) // the payload does not conform to its schema

  /** Everything the layer raises. */
  datatype Error =
    | FormatViolation                         // the frame text is not JSON
    | ProtocolError(protocolFault: ProtocolFault)
    | PropertyConstraintViolation(value: Json) // unknown discriminator
    | ArityMismatch(typeId: int, argumentCount: nat) // the class constructor rejects the field count (a TypeError)
    | UnsupportedVersion(version: string)      // a ValueError from the schema lookup
    | SchemaUnavailable(path: string)          // an OSError or JSON decode error while loading a schema
    | ValidationError(validationFault: ValidationFault)
    | UnknownCallErrorCode(code: Json)

  /** An exception handed to `create_call_error` or produced by
      `to_exception`: either a protocol error carrying its wire triple, or
      any other exception. */
  datatype Failure =
    | OcppError(code: string, description: Json, details: Json)
    | Unexpected
}
