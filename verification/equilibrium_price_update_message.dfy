/**
 * Equilibrium Price Update ('Z'): the indicative auction price and the
 * quantities that would match at it. Wire size 53 bytes.
 */
module EquilibriumPriceUpdate {
  import opened Ints
  import opened DataFeedErrors
  import opened NumericType
  import opened AlphaType
  import opened PriceType
  import opened BufferUtils
  import opened FieldWrites

  const EQUILIBRIUM_PRICE_UPDATE_MESSAGE_BYTE_COUNT: nat := 53

  const MESSAGE_TYPE_BYTE_OFFSET: nat := 0
  const NANOSECONDS_BYTE_OFFSET: nat := 1
  const ORDER_BOOK_ID_BYTE_OFFSET: nat := 5
  const BID_QUANTITY_BYTE_OFFSET: nat := 9
  const ASK_QUANTITY_BYTE_OFFSET: nat := 17
  const EQUILIBRIUM_PRICE_BYTE_OFFSET: nat := 25
  const BEST_BID_PRICE_BYTE_OFFSET: nat := 29
  const BEST_ASK_PRICE_BYTE_OFFSET: nat := 33
  const BEST_BID_QUANTITY_BYTE_OFFSET: nat := 37
  const BEST_ASK_QUANTITY_BYTE_OFFSET: nat := 45

  const MESSAGE_TYPE_LENGTH: nat := 1
  const NANOSECONDS_LENGTH: nat := 4
  const ORDER_BOOK_ID_LENGTH: nat := 4
  const BID_QUANTITY_LENGTH: nat := 8
  const ASK_QUANTITY_LENGTH: nat := 8
  const BEST_BID_QUANTITY_LENGTH: nat := 8
  const BEST_ASK_QUANTITY_LENGTH: nat := 8

  datatype EquilibriumPriceUpdateMessage = EquilibriumPriceUpdateMessage(
    messageType: Alpha1,
    nanoseconds: Numeric,
    orderBookId: Numeric,
    bidQuantity: Numeric,
    askQuantity: Numeric,
    equilibriumPrice: Price,
    bestBidPrice: Price,
    bestAskPrice: Price,
    bestBidQuantity: Numeric,
    bestAskQuantity: Numeric)

  /** The message a `new` call accepts: tag 'Z'; prices and quantities are not checked. */
  ghost predicate Valid(m: EquilibriumPriceUpdateMessage) {
    m.messageType.value == ['Z']
  }

  /** `validate_fields`: only the tag. */
  function ValidateFields(m: EquilibriumPriceUpdateMessage): (r: Result<()>)
    ensures r.Ok? <==> Valid(m)
    ensures !Valid(m) ==> r == Err(InvalidMessageType('Z', m.messageType.value[0]))
  {
    if m.messageType.value != ['Z'] then
      Err(InvalidMessageType('Z', m.messageType.value[0]))
    else
      Ok(())
  }

  /** `EquilibriumPriceUpdateMessage::new`: the fields as given, if they validate. */
  function New(m: EquilibriumPriceUpdateMessage): (r: Result<EquilibriumPriceUpdateMessage>)
    ensures r.Ok? <==> Valid(m)
    ensures r.Ok? ==> r.value == m
    ensures r.Err? ==> r.error == ValidateFields(m).error
  {
    var _ :- ValidateFields(m);
    Ok(m)
  }

  /** The message whose fields are the given bytes, read at the field offsets. */
  function Decoded(data: seq<u8>): EquilibriumPriceUpdateMessage
    requires |data| == EQUILIBRIUM_PRICE_UPDATE_MESSAGE_BYTE_COUNT
  {
    EquilibriumPriceUpdateMessage(
      Alpha(Chars(data, MESSAGE_TYPE_BYTE_OFFSET, MESSAGE_TYPE_LENGTH)),
      NumericAt(data, NANOSECONDS_BYTE_OFFSET, NANOSECONDS_LENGTH).value,
      NumericAt(data, ORDER_BOOK_ID_BYTE_OFFSET, ORDER_BOOK_ID_LENGTH).value,
      NumericAt(data, BID_QUANTITY_BYTE_OFFSET, BID_QUANTITY_LENGTH).value,
      NumericAt(data, ASK_QUANTITY_BYTE_OFFSET, ASK_QUANTITY_LENGTH).value,
      ReadPrice(data, EQUILIBRIUM_PRICE_BYTE_OFFSET),
      ReadPrice(data, BEST_BID_PRICE_BYTE_OFFSET),
      ReadPrice(data, BEST_ASK_PRICE_BYTE_OFFSET),
      NumericAt(data, BEST_BID_QUANTITY_BYTE_OFFSET, BEST_BID_QUANTITY_LENGTH).value,
      NumericAt(data, BEST_ASK_QUANTITY_BYTE_OFFSET, BEST_ASK_QUANTITY_LENGTH).value)
  }

  /**
   * `from_bin`: a buffer of the wrong size is refused; the tag is the only
   * text field and every numeric width is valid, so after the size the
   * tag byte alone decides the outcome.
   */
  function FromBin(data: seq<u8>): (r: Result<EquilibriumPriceUpdateMessage>)
    ensures |data| != 53 ==> r == Err(InvalidMessageSize(53, |data|))
    ensures |data| == 53 && !IsPrintable(data[0]) ==> r == Err(NonISO88591Value(ByteToChar(data[0])))
    ensures |data| == 53 && IsPrintable(data[0]) ==> r == New(Decoded(data))
    ensures r.Ok? <==> |data| == 53 && data[0] == 'Z' as u8
    ensures r.Ok? ==> r.value == Decoded(data)
  {
    if |data| != EQUILIBRIUM_PRICE_UPDATE_MESSAGE_BYTE_COUNT then
      Err(InvalidMessageSize(EQUILIBRIUM_PRICE_UPDATE_MESSAGE_BYTE_COUNT, |data|))
    else
      var messageType :- AlphaAt(data, MESSAGE_TYPE_BYTE_OFFSET, MESSAGE_TYPE_LENGTH);
      // widths of 4 and 8 are valid, so these reads cannot fail
      var nanoseconds := NumericAt(data, NANOSECONDS_BYTE_OFFSET, NANOSECONDS_LENGTH).value;
      var orderBookId := NumericAt(data, ORDER_BOOK_ID_BYTE_OFFSET, ORDER_BOOK_ID_LENGTH).value;
      var bidQuantity := NumericAt(data, BID_QUANTITY_BYTE_OFFSET, BID_QUANTITY_LENGTH).value;
      var askQuantity := NumericAt(data, ASK_QUANTITY_BYTE_OFFSET, ASK_QUANTITY_LENGTH).value;
      var equilibriumPrice := ReadPrice(data, EQUILIBRIUM_PRICE_BYTE_OFFSET);
      var bestBidPrice := ReadPrice(data, BEST_BID_PRICE_BYTE_OFFSET);
      var bestAskPrice := ReadPrice(data, BEST_ASK_PRICE_BYTE_OFFSET);
      var bestBidQuantity := NumericAt(data, BEST_BID_QUANTITY_BYTE_OFFSET, BEST_BID_QUANTITY_LENGTH).value;
      var bestAskQuantity := NumericAt(data, BEST_ASK_QUANTITY_BYTE_OFFSET, BEST_ASK_QUANTITY_LENGTH).value;
      New(EquilibriumPriceUpdateMessage(messageType, nanoseconds, orderBookId, bidQuantity, askQuantity,
                                        equilibriumPrice, bestBidPrice, bestAskPrice, bestBidQuantity, bestAskQuantity))
  }

  /**
   * The writes of `to_bin`, in order; each numeric field is written as all
   * 16 bytes of its `u128`, each price as the 4 bytes of its `i32`.
   */
  function Writes(m: EquilibriumPriceUpdateMessage): seq<FieldWrite> {
    [ AlphaWrite(MESSAGE_TYPE_BYTE_OFFSET, m.messageType.value),
      NumWrite(NANOSECONDS_BYTE_OFFSET, U128ToBeBytes(m.nanoseconds.value)),
      NumWrite(ORDER_BOOK_ID_BYTE_OFFSET, U128ToBeBytes(m.orderBookId.value)),
      NumWrite(BID_QUANTITY_BYTE_OFFSET, U128ToBeBytes(m.bidQuantity.value)),
      NumWrite(ASK_QUANTITY_BYTE_OFFSET, U128ToBeBytes(m.askQuantity.value)),
      NumWrite(EQUILIBRIUM_PRICE_BYTE_OFFSET, I32ToBeBytes(m.equilibriumPrice.value)),
      NumWrite(BEST_BID_PRICE_BYTE_OFFSET, I32ToBeBytes(m.bestBidPrice.value)),
      NumWrite(BEST_ASK_PRICE_BYTE_OFFSET, I32ToBeBytes(m.bestAskPrice.value)),
      NumWrite(BEST_BID_QUANTITY_BYTE_OFFSET, U128ToBeBytes(m.bestBidQuantity.value)),
      NumWrite(BEST_ASK_QUANTITY_BYTE_OFFSET, U128ToBeBytes(m.bestAskQuantity.value)) ]
  }

  /**
   * What `to_bin::<size>` does. Every write up to the best bid quantity
   * fits (that one ends exactly at byte 53), but the 16-byte best ask
   * quantity written at offset 45 runs past the buffer, so encoding at the
   * right size always panics.
   */
  function Encoding(m: EquilibriumPriceUpdateMessage, size: nat): (r: ToBinResult)
    ensures size != 53 ==> r == Rejected(InvalidMessageSize(53, size))
    ensures size == 53 ==> r == Panicked
  {
    if size != EQUILIBRIUM_PRICE_UPDATE_MESSAGE_BYTE_COUNT then
      Rejected(InvalidMessageSize(EQUILIBRIUM_PRICE_UPDATE_MESSAGE_BYTE_COUNT, size))
    else
      assert End(Writes(m)[9]) > size;
      Encode(size, Writes(m))
  }

  /** `to_bin`: check the size, then perform the writes on a zero-filled buffer. */
  method ToBin(m: EquilibriumPriceUpdateMessage, size: nat) returns (r: ToBinResult)
    ensures r == Encoding(m, size)
  {
    if size != EQUILIBRIUM_PRICE_UPDATE_MESSAGE_BYTE_COUNT {
      return Rejected(InvalidMessageSize(EQUILIBRIUM_PRICE_UPDATE_MESSAGE_BYTE_COUNT, size));
    }
    r := Serialize(size, Writes(m));
  }

  /** Only the last write overruns: the first nine all fit in the 53-byte buffer. */
  lemma OnlyLastWriteOverruns(m: EquilibriumPriceUpdateMessage)
    ensures FitsPrefix(53, Writes(m), 9)
    ensures End(Writes(m)[8]) == 53 && End(Writes(m)[9]) == 61
  {
  }
}
