/** The error taxonomy of the binding (src/error.rs) and the mapping from the
    engine's integer status to it. */
module GprError {
  import opened Wrappers
  import opened Attributes

  /** The kinds of failure the engine reports. */
  datatype Code = InvalidRequest | CallError | IOError | UnknownError

  /** Every failure the binding surfaces. The payloads of the foreign error
      types (an I/O error, a non-UTF-8 C string, a JSON decoding error) are
      opaque here and left out. */
  datatype Error =
    | Gpr(code: Code, name: string, message: string)
    | Io
    | Cstring
    | Json
    | InvalidAttribute(file: string, name: string, value: string)
    | InvalidAttributeValue(file: string, name: string, value: string)

  /** `Error::from_code`: an engine error carrying `code`, `name` and `message`
      unchanged. */
  function FromCode(code: Code, name: string, message: string): (e: Error)
    ensures e.Gpr?
    ensures e.code == code && e.name == name && e.message == message
  {
    Gpr(code, name, message)
  }

  /** The name and message put in place of the engine's for an unknown status. */
  const UnknownName: string := "UnknownError"
  const UnknownMessage: string := "unknown code"

  /** `Error::from_status`: status 0 is success; 1, 2 and 3 are the engine's
      known failures and keep its name and message; every other status is an
      unknown error whose name and message are a fixed sentinel. */
  function FromStatus(status: int32, name: string, message: string): (r: Option<Error>)
    ensures r.None? <==> status == 0
    ensures r.Some? ==> r.value.Gpr? && r.value.code != IOError
    ensures r.Some? && r.value.code == InvalidRequest <==> status == 1
    ensures r.Some? && r.value.code == CallError <==> status == 2
    ensures r.Some? && r.value.code == UnknownError <==> status != 0 && status != 1 && status != 2
    ensures 1 <= status <= 3 ==> r.value.name == name && r.value.message == message
    ensures !(0 <= status <= 3) ==> r.value.name == UnknownName && r.value.message == UnknownMessage
  {
    match status
    case 0 => None
    case 1 => Some(FromCode(InvalidRequest, name, message))
    case 2 => Some(FromCode(CallError, name, message))
    case 3 => Some(FromCode(UnknownError, name, message))
    case _ => Some(FromCode(UnknownError, UnknownName, UnknownMessage))
  }

  /** The status under which the engine reports a code, when it has one.
      `IOError` has none: no status maps to it. */
  function StatusOf(code: Code): Option<int32> {
    match code
    case InvalidRequest => Some(1)
    case CallError => Some(2)
    case UnknownError => Some(3)
    case IOError => None
  }

  /** Reporting a code under its status gives back exactly the engine error for
      that code, name and message; a code without a status is never produced. */
  lemma StatusRoundTrip(code: Code, status: int32, name: string, message: string)
    ensures StatusOf(code) == Some(status) ==> FromStatus(status, name, message) == Some(FromCode(code, name, message))
    ensures FromStatus(status, name, message) == Some(FromCode(code, name, message)) && 1 <= status <= 3
            ==> StatusOf(code) == Some(status)
    ensures StatusOf(code).None? ==> FromStatus(status, name, message) != Some(FromCode(code, name, message))
  {
  }

  /** For a status outside the known set the engine's name and message are
      discarded: the error is the same whatever they were. */
  lemma UnknownStatusDiscardsText(status: int32, name: string, message: string, name': string, message': string)
    requires !(0 <= status <= 3)
    ensures FromStatus(status, name, message) == FromStatus(status, name', message')
  {
  }

  /** `Error::invalid_attribute`: the attribute `attribute` of `file` had the
      unexpected value `value`. */
  function ForInvalidAttribute(file: string, attribute: string, value: string): (e: Error)
    ensures e.InvalidAttribute?
    ensures e.file == file && e.name == attribute && e.value == value
  {
    InvalidAttribute(file, attribute, value)
  }

  /** `Error::invalid_attribute_value`: the attribute had the wrong shape. Only
      the shape of the value is recorded, never its contents. */
  function ForInvalidAttributeValue(file: string, attribute: string, value: AttributeValue): (e: Error)
    ensures e.InvalidAttributeValue?
    ensures e.file == file && e.name == attribute
    ensures e.value == "Single" <==> value.Single?
    ensures e.value == "List" <==> value.List?
  {
    InvalidAttributeValue(file, attribute, Display(value))
  }

  /** Two values of the same shape give the same error. */
  lemma InvalidAttributeValueIsShapeOnly(file: string, attribute: string, v: AttributeValue, w: AttributeValue)
    ensures ForInvalidAttributeValue(file, attribute, v) == ForInvalidAttributeValue(file, attribute, w)
            <==> v.Single? == w.Single?
  {
  }
}
