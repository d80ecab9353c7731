/** Options, results and the errors of `src/result.rs` that the framing code can produce. */
module Results {

  datatype Option<+T> = None | Some(value: T)

  datatype ProtocolFault =
    | UnexpectedContinuation
    | UnexpectedDataFrame
    | FragmentedControlFrame
    | NoDataframes
    | NonContinuationFragment
    | ReservedBitsSet
    | UnsupportedOpcode

  datatype DataFrameFault =
    | InvalidOpcode
    | InvalidLength
    | ControlFrameTooLong
    | ExpectedUnmasked
    | ExpectedMasked

  /** Places where the original panics. A panic is modelled as an error that ends the run. */
  datatype PanicCause =
    | InvalidHeaderOpcode
    | CapacityOverflow
    | SplitOutOfRange

  datatype WebSocketError =
    | ProtocolError(protocol: ProtocolFault)
    | DataFrameError(dataFrame: DataFrameFault)
    | NoDataAvailable
    | WriteZero
    | Utf8Error
    | Panic(cause: PanicCause)

  /** `WebSocketResult<T>`; usable with `:-`, the counterpart of Rust's `?`. */
  datatype Result<+T> = Ok(value: T) | Err(error: WebSocketError) {
    predicate IsFailure() {
      Err?
    }

    function PropagateFailure<U>(): Result<U>
      requires Err?
    {
      Err(error)
    }

    function Extract(): T
      requires Ok?
    {
      value
    }
  }

  /** `WebSocketResult<()>`. */
  datatype Outcome = Pass | Fail(error: WebSocketError) {
    predicate IsFailure() {
      Fail?
    }

    function PropagateFailure(): Outcome
      requires Fail?
    {
      this
    }
  }
}
