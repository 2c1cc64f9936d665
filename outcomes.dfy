/** Failure-carrying results shared by the digest modules. */
module Outcomes {

  datatype Option<+T> = None | Some(value: T)

  /** The ways constructing, decoding or reading a digest can fail. */
  datatype Error =
    | InvalidArgument(length: nat)  // a byte array or hex string of the wrong length
    | NotHex(c: char)               // a character of hex text that is not a hex digit
    | EndOfInput(available: nat)    // the source ended before 16 bytes could be read

  datatype Result<+T> = Ok(value: T) | Err(error: Error)
}
