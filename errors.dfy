/** The engine's error kinds and its `Result` type. The payloads of the
    library errors that the Rust variants wrap are not modelled. */
module Errors {

  datatype AnalyzerError =
    | EbpfError        // loading or initialising the probe bytecode
    | BpfProgramError  // loading or attaching the probe program
    | BpfMapError      // an operation on a kernel map
    | IOError          // an operating-system call, such as creating the poll instance
    | AppNotFound      // the target application was not found or could not be attached
    | MapError         // the ring-buffer map is missing

  /** `Result<T, AnalyzerError>` */
  datatype Result<+T> = Ok(value: T) | Err(error: AnalyzerError)
}
