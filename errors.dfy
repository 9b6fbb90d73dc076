/** Result values that stand for the panics of the parser.  The source signals
    every fatal condition with panic(fmt.Errorf(...)) and recovers it once in
    App.Run; here each fallible operation returns one of these instead. */
module Errors {

  datatype Option<+T> = None | Some(value: T)

  /** The three messages the core panics with. */
  datatype Error =
    | UnknownOption(key: string)  // "Unknown option ..." while matching an option token
    | NotMultiple(name: string)   // "option cannot multipe:..." on a repeated single-valued flag
    | MissingRequired(name: string) // "option is required:..." when a required flag never occurred

  datatype Result<+T> = Ok(value: T) | Err(error: Error)

  /** The outcome of an operation that returns only a Go `error`. */
  datatype Status = Pass | Fail(error: Error)
}
