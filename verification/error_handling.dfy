/** The shared error handling of the server: the classification of an
    exception into an error code and a user-facing message, and the wrapper
    that turns a call into a success or error dictionary. An exception is
    modelled by its kind and its text; logging is left out. */
module ErrorHandling {
  import opened Wrappers

  datatype ErrorCode =
    | DownloadFailed | ParseFailed | ProxyFailed | FileAccessError
    | NetworkError | ValidationError | UnknownError

  /** The `.value` of each code. */
  function CodeValue(c: ErrorCode): string {
    match c
    case DownloadFailed => "DOWNLOAD_FAILED"
    case ParseFailed => "PARSE_FAILED"
    case ProxyFailed => "PROXY_FAILED"
    case FileAccessError => "FILE_ACCESS_ERROR"
    case NetworkError => "NETWORK_ERROR"
    case ValidationError => "VALIDATION_ERROR"
    case UnknownError => "UNKNOWN_ERROR"
  }

  /** Distinct codes have distinct values. */
  lemma CodeValueInjective(a: ErrorCode, b: ErrorCode)
    ensures CodeValue(a) == CodeValue(b) ==> a == b
  {
  }

  type Details = map<string, string>

  /** The exceptions `handle_error` tells apart; `text` is `str(error)`.
      Subclasses count as their base class (a `ConnectionRefusedError` is a
      `Connection`). */
  datatype Error =
    | AppError(code: ErrorCode, message: string, details: Details)
    | Connection(text: string)
    | Timeout(text: string)
    | FileNotFound(text: string)
    | Permission(text: string)
    | Other(text: string)

  /** The `AppError` constructor: missing or empty details become `{}`. */
  function NewAppError(code: ErrorCode, message: string, details: Option<Details>): (e: Error)
    ensures e.AppError? && e.code == code && e.message == message
    ensures details.Some? ==> e.details == details.value
    ensures details.None? ==> e.details == map[]
  {
    AppError(code, message, if details.Some? && details.value != map[] then details.value else map[])
  }

  const UnknownMessage: string := "알 수 없는 오류가 발생했습니다."
  const NetworkMessage: string := "네트워크 연결 오류가 발생했습니다."
  const FileNotFoundMessage: string := "파일을 찾을 수 없습니다."
  const PermissionMessage: string := "파일 접근 권한이 없습니다."

  datatype ErrorInfo = ErrorInfo(success: bool, errorCode: string, message: string, context: string, details: Details)

  /** `handle_error`. */
  function HandleError(error: Error, context: string): ErrorInfo {
    var base := ErrorInfo(false, CodeValue(UnknownError), UnknownMessage, context, map[]);
    match error
    case AppError(code, message, details) => base.(errorCode := CodeValue(code), message := message, details := details)
    case Connection(_) => base.(errorCode := CodeValue(NetworkError), message := NetworkMessage)
    case Timeout(_) => base.(errorCode := CodeValue(NetworkError), message := NetworkMessage)
    case FileNotFound(_) => base.(errorCode := CodeValue(FileAccessError), message := FileNotFoundMessage)
    case Permission(_) => base.(errorCode := CodeValue(FileAccessError), message := PermissionMessage)
    case Other(text) => base.(message := if text != [] then text else UnknownMessage)
  }

  /** The error dictionary never reports success, always carries the
      context it was given, and has details only for an application error. */
  lemma HandleErrorShape(error: Error, context: string)
    ensures !HandleError(error, context).success
    ensures HandleError(error, context).context == context
    ensures !error.AppError? ==> HandleError(error, context).details == map[]
    ensures HandleError(error, context).message != [] || (error.AppError? && error.message == [])
  {
  }

  /** An application error reports its own code, message and details. */
  lemma AppErrorPassesThrough(code: ErrorCode, message: string, details: Details, context: string)
    ensures HandleError(AppError(code, message, details), context)
         == ErrorInfo(false, CodeValue(code), message, context, details)
  {
  }

  /** The code of each kind of exception: connection and timeout errors
      are network errors, missing files and refused access are file
      errors, and anything else is unknown with its own text when it has
      one. */
  lemma ClassificationByKind(error: Error, context: string)
    ensures !error.AppError? ==>
      (HandleError(error, context).errorCode == CodeValue(NetworkError) <==> error.Connection? || error.Timeout?)
    ensures !error.AppError? ==>
      (HandleError(error, context).errorCode == CodeValue(FileAccessError) <==> error.FileNotFound? || error.Permission?)
    ensures !error.AppError? ==>
      (HandleError(error, context).errorCode == CodeValue(UnknownError) <==> error.Other?)
    ensures error.Other? ==>
      HandleError(error, context).message == if error.text == [] then UnknownMessage else error.text
  {
  }

  /** Two exceptions of the built-in kinds other than `Other` get the same
      dictionary whatever their text. */
  lemma TextIgnoredForKnownKinds(error: Error, text: string, context: string)
    requires !error.AppError? && !error.Other?
    ensures HandleError(error, context) == HandleError(error.(text := text), context)
  {
  }

  // ----- safe_execute -----

  /** How the wrapped call ended. */
  datatype CallResult<T> = Returned(value: T) | Raised(error: Error)

  /** The dictionary `safe_execute` returns. */
  datatype Execution<T> = Succeeded(result: T) | Failed(info: ErrorInfo)

  /** `safe_execute`: the value on a normal return, otherwise the error
      dictionary, with the function's name as context when none is given. */
  function SafeExecute<T>(call: CallResult<T>, context: string, funcName: string): (r: Execution<T>)
    ensures r.Succeeded? <==> call.Returned?
    ensures call.Returned? ==> r.result == call.value
    ensures call.Raised? ==> r.info == HandleError(call.error, if context != [] then context else funcName)
  {
    match call
    case Returned(v) => Succeeded(v)
    case Raised(e) => Failed(HandleError(e, if context != [] then context else funcName))
  }

  /** A failed call always reports a non-empty context when the function
      has a name, and never reports success. */
  lemma SafeExecuteFailure<T>(call: CallResult<T>, context: string, funcName: string)
    requires call.Raised? && funcName != []
    ensures SafeExecute(call, context, funcName).Failed?
    ensures SafeExecute(call, context, funcName).info.context != []
    ensures !SafeExecute(call, context, funcName).info.success
  {
    HandleErrorShape(call.error, if context != [] then context else funcName);
  }
}
