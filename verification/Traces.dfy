/** Include traces: the sources a compilation entered, in order, with their parents. */
module Traces {
  import opened Options

  /** One ENTER record: the path as the compiler wrote it and the source that included it. */
  datatype Source = Source(rawPath: string, parent: Option<nat>)

  datatype Trace = Trace(workingDirectory: string, sources: seq<Source>)
}
