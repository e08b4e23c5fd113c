// Optional values and outcomes shared by every module of the model.

module Wrappers {

  // A Go pointer to a scalar: None is nil.
  datatype Option<+T> = None | Some(value: T) {
    function GetOr(default: T): T {
      if Some? then value else default
    }
  }

  datatype Result<+T, +E> = Ok(value: T) | Err(error: E)

  // The part of an error that errors.As finds when it looks for a smithy.APIError.
  datatype AwsError = AwsError(code: string, text: string)

  datatype ErrorKind =
    | NotFound
    | SecretTypeNotSupported
    | SecretNotFound
    | TerminalError                  // ackerr.NewTerminalError, found by errors.As
    | TerminalState                  // ackerr.Terminal, what onError hands to the runtime
    | NotInt32(field: string)
    | Other

  datatype Error = Error(kind: ErrorKind, text: string, aws: Option<AwsError>)
}
