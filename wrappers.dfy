/** Failure-carrying values shared by the threat-intel modules. */
module Wrappers {

  datatype Option<+T> = None | Some(value: T)

  /** The only exception the engine lets escape: `line.split()[0]` on a line
      that holds nothing but whitespace raises IndexError. */
  datatype Exception = IndexError(line: string)

  /** Either a value or the exception that aborted the computation. */
  datatype Result<+T> = Ok(value: T) | Raised(error: Exception)
}
