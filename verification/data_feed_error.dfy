/** The closed set of errors of the codec, and the result shapes its operations return. */
module DataFeedErrors {
  import opened Ints

  /** Every failure the codec reports; each variant carries the offending value. */
  datatype DataFeedError =
    | NonISO88591Value(offending: char)
    | InvalidNumericSize(size: nat)
    | InvalidMessageSize(expectedSize: nat, actualSize: nat)
    | InvalidMessageType(expectedType: char, actualType: char)
    | InvalidSideValue(side: char)
    | InvalidExchangeOrderTypeValue(exchangeOrderType: u128)
    | InvalidLotTypeValue(lotType: u128)
    | InvalidFinancialProductValue(financialProduct: u128)
    | InvalidLegRatioValues(leg1Ratio: u128, leg2Ratio: u128, leg3Ratio: u128, leg4Ratio: u128)
    | InvalidOccurredAtCrossValue(occurredAtCross: char)
    | InvalidPrintableValue(printable: char)
    | InvalidEventCodeValue(eventCode: char)
    | Other(message: string)

  /** Rust's `Result<T, DataFeedError>`, usable with `:-` in place of `?`. */
  datatype Result<+T> = Ok(value: T) | Err(error: DataFeedError) {
    predicate IsFailure() {
      Err?
    }

    function PropagateFailure<U>(): Result<U>
      requires Err?
    {
      Err(error)
    }

    function Extract(): T
      requires Ok?
    {
      value
    }
  }

  /**
   * What `to_bin` can do: return the encoded bytes, return an error, or
   * panic because a slice index ran past the end of the buffer.
   */
  datatype ToBinResult = Encoded(bytes: seq<u8>) | Rejected(error: DataFeedError) | Panicked
}
