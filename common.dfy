/** Values shared by every part of the launch interpreter: optional values,
    source spans, the error taxonomy and the outcome of an operation. */
module Common {

  datatype Option<+T> = None | Some(value: T)

  /** The part of a substitution string that a call was matched from. Spans
      are produced by the tokenizer and only carried into error values. */
  datatype Span = Span(start: nat, end: nat)

  /** Errors are tagged by their cause; message texts are not modelled. */
  datatype Error =
    | SyntaxError(span: Span)                  // wrong arity in a substitution call
    | VarNotPresent(variable: string)          // environment variable is not set
    | VarNotUnicode(variable: string)          // environment variable is not valid Unicode
    | InvalidOutput(text: string)              // `output` attribute other than log/screen
    | InvalidBoolLiteral(text: string)         // guard that expands to neither "true" nor "false"
    | MissingRequiredArg(name: string)         // `arg` with neither value nor default, unbound
    | UnsupportedFormat(path: string)          // launch file with no or an unaccepted extension
    | NoParentDirectory(path: string)          // launch file path without a parent
    | Unreadable(path: string)                 // launch file that cannot be opened or deserialized
    | DuplicatePackageName(firstPath: string, secondPath: string, name: string)

  /** The outcome of an operation. `Unimplemented` stands for reaching a
      `todo!()` of the program (a panic); `OutOfFuel` for reaching the
      include-depth bound of the model, where the program would go on
      recursing. */
  datatype Outcome<+T> =
    | Ok(value: T)
    | Err(error: Error)
    | Unimplemented
    | OutOfFuel
  {
    /** Re-types an outcome that is not `Ok`, keeping its failure. */
    function Propagate<U>(): (r: Outcome<U>)
      requires !Ok?
      ensures !r.Ok?
      ensures r.Err? <==> Err?
      ensures Err? ==> r == Err(error)
      ensures r.Unimplemented? <==> Unimplemented?
    {
      match this
      case Err(e) => Err(e)
      case Unimplemented => Unimplemented
      case OutOfFuel => OutOfFuel
    }
  }
}
