/** The part of `std::io` the core depends on: an I/O error is a kind plus its message. */
module StdIo {

  datatype ErrorKind = NotFound | PermissionDenied

  datatype Error = Error(kind: ErrorKind, message: string)

  /** `std::io::Result`. */
  datatype Result<+T> = Ok(value: T) | Err(error: Error)

  /** The text `Display` prints for an I/O error. */
  function Display(e: Error): string { e.message }
}

/** The error taxonomy of the core (`M4ArchError`) and its `Result` alias. */
module Errors {
  import StdIo

  datatype M4ArchError =
    | Io(source: StdIo.Error)   // every I/O failure, with the originating condition kept
    | InvalidValue              // an attribute file held text that does not parse
    | PermissionDenied          // declared by the core; nothing in the core constructs it

  /** `Result<T> = std::result::Result<T, M4ArchError>`, usable with `:-` like Rust's `?`. */
  datatype Result<+T> = Ok(value: T) | Err(error: M4ArchError) {
    predicate IsFailure() { Err? }

    function PropagateFailure<U>(): Result<U>
      requires Err?
    {
      Err(error)
    }

    function Extract(): T
      requires Ok?
    {
      value
    }
  }

  /** The `#[from]` conversion from `std::io::Error`. */
  function FromIo(e: StdIo.Error): M4ArchError { Io(e) }

  const IoPrefix := "IO error: "

  /** The `#[error(...)]` display strings. */
  function Display(e: M4ArchError): string {
    match e
    case Io(source) => IoPrefix + StdIo.Display(source)
    case InvalidValue => "Invalid value"
    case PermissionDenied => "Permission denied (are you root?)"
  }

  /** The conversion loses nothing: distinct I/O errors stay distinct, and none becomes `InvalidValue`. */
  lemma {:induction false} FromIoKeepsCondition(e1: StdIo.Error, e2: StdIo.Error)
    ensures FromIo(e1).Io? && FromIo(e1).source == e1
    ensures FromIo(e1) == FromIo(e2) <==> e1 == e2
    ensures FromIo(e1) != InvalidValue && FromIo(e1) != PermissionDenied
  {
  }

  /** The displayed text tells the three kinds apart, and an I/O error's text ends with the original message. */
  lemma {:induction false} DisplayIdentifiesKind(e: M4ArchError)
    ensures e.Io? <==> IoPrefix <= Display(e)
    ensures e.Io? ==> Display(e)[|IoPrefix|..] == StdIo.Display(e.source)
    ensures Display(InvalidValue) != Display(PermissionDenied)
  {
    if !e.Io? {
      assert Display(e)[1] != IoPrefix[1];
    }
  }
}
