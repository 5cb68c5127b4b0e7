/** Vocabulary shared by every module: outcomes, error categories and machine integers. */
module Common {
  type byte = x: int | 0 <= x < 256

  /** A TSS return code; zero is TSS2_RC_SUCCESS. */
  type TssRc = x: int | 0 <= x < 0x1_0000_0000

  const RC_SUCCESS: TssRc := 0

  datatype Option<+T> = None | Some(value: T)

  datatype ErrorCategory = InputError | SecurityFailure | ResourceError | BackendError

  datatype Error = Error(category: ErrorCategory, message: string)

  datatype Outcome<+T> = Ok(value: T) | Err(error: Error)
}
