/**
 * The exceptions raised by the Form subsystem. Each constructor is one raise site of the
 * source; `Kind` gives the Python exception class it raises.
 */
module Errors {
  import opened JsonData

  /** The Python exception classes involved. */
  datatype ErrorKind = TypeError | ValueError | IndexError | KeyError | AssertionError

  datatype Error =
    // Form._init and the form_key setter
    | BadParameters(got: Json)
    | BadFormKey(got: Json)
    // from_dict
    | NotAMapping(got: Json)
    | MissingKey(key: string)
    | MappingContents
    | VirtualArrayUnsupported
    | UnrecognizedClass(tag: Json)
    | BadField(name: string, got: Json)
    // from_type
    | UnsupportedType
    // select_columns
    | NonStringSpecifier(got: Json)
    // RecordForm lookups
    | NoSuchIndex(index: int, count: nat)
    | NoSuchField(field: string, count: nat)
    | ListIndexOutOfRange(index: int)
    | NotIndexOrField
    // ByteMaskedForm constructor and the positional unpickle
    | BadMask
    | BadContent
    | BadValidWhen
    | WrongStateArity(count: nat)
    | LegacyFormKey
    | BadParametersObject
    // ArrayType constructor
    | NotAType
    | BadLength
  {
    /** The Python exception class raised at this site. */
    function Kind(): ErrorKind {
      match this
      case BadParameters(_) => TypeError
      case BadFormKey(_) => TypeError
      case NotAMapping(_) => AssertionError
      case MissingKey(_) => KeyError
      case MappingContents => TypeError
      case VirtualArrayUnsupported => ValueError
      case UnrecognizedClass(_) => ValueError
      case BadField(_, _) => TypeError
      case UnsupportedType => TypeError
      case NonStringSpecifier(_) => TypeError
      case NoSuchIndex(_, _) => IndexError
      case NoSuchField(_, _) => IndexError
      case ListIndexOutOfRange(_) => IndexError
      case NotIndexOrField => TypeError
      case BadMask => TypeError
      case BadContent => TypeError
      case BadValidWhen => TypeError
      case WrongStateArity(_) => ValueError
      case LegacyFormKey => TypeError
      case BadParametersObject => TypeError
      case NotAType => TypeError
      case BadLength => ValueError
    }
  }

  /** The outcome of an operation that may raise. */
  datatype Result<+T> = Ok(value: T) | Err(error: Error) {
    predicate IsFailure() { Err? }

    function PropagateFailure<U>(): Result<U>
      requires Err?
    {
      Err(error)
    }

    function Extract(): T
      requires Ok?
    {
      value
    }
  }
}
