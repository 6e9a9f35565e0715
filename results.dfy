/** Values shared by the two execution strategies of the mock console. */
module Results {

  /** A value that may be missing: a regular-expression group that did not take part,
      a search that found nothing, a `catch` that was never entered. */
  datatype Option<T> = None | Some(value: T)

  /** What a strategy hands back to the console: the text to display and whether
      the run is reported as a failure. */
  datatype ExecResult = ExecResult(output: string, isError: bool)
}
