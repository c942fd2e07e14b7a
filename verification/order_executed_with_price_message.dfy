/** Order Executed with Price ('C'): an execution at a price other than the order's. Wire size 58 bytes. */
module OrderExecutedWithPrice {
  import opened Ints
  import opened DataFeedErrors
  import opened NumericType
  import opened AlphaType
  import opened PriceType
  import opened BufferUtils
  import opened FieldWrites

  const ORDER_EXECUTED_WITH_PRICE_MESSAGE_BYTE_COUNT: nat := 58

  const VALID_SIDE_VALUES: seq<char> := ['B', 'S']
  const VALID_OCCURRED_AT_CROSS_VALUES: seq<char> := ['N', 'Y']
  const VALID_PRINTABLE_VALUES: seq<char> := ['N', 'Y']

  const MESSAGE_TYPE_BYTE_OFFSET: nat := 0
  const NANOSECONDS_BYTE_OFFSET: nat := 1
  const ORDER_ID_BYTE_OFFSET: nat := 5
  const ORDER_BOOK_ID_BYTE_OFFSET: nat := 13
  const SIDE_BYTE_OFFSET: nat := 17
  const EXECUTED_QUANTITY_BYTE_OFFSET: nat := 18
  const MATCH_ID_BYTE_OFFSET: nat := 26
  const OWNER_PARTICIPANT_ID_BYTE_OFFSET: nat := 38
  const COUNTERPARTY_PARTICIPANT_ID_BYTE_OFFSET: nat := 45
  const TRADE_PRICE_BYTE_OFFSET: nat := 52
  const OCCURRED_AT_CROSS_BYTE_OFFSET: nat := 56
  const PRINTABLE_BYTE_OFFSET: nat := 57

  const MESSAGE_TYPE_LENGTH: nat := 1
  const SIDE_LENGTH: nat := 1
  /** 12 is not one of the valid numeric widths. */
  const MATCH_ID_LENGTH: nat := 12

  datatype OrderExecutedWithPriceMessage = OrderExecutedWithPriceMessage(
    messageType: Alpha1,
    nanoseconds: Numeric,
    orderId: Numeric,
    orderBookId: Numeric,
    side: Alpha1,
    executedQuantity: Numeric,
    matchId: Numeric,
    ownerParticipantId: Alpha7,
    counterpartyParticipantId: Alpha7,
    tradePrice: Price,
    occurredAtCross: Alpha1,
    printable: Alpha1)

  /** The message a `new` call accepts: tag 'C', side 'B' or 'S', and 'N' or 'Y' for both flags. */
  ghost predicate Valid(m: OrderExecutedWithPriceMessage) {
    && m.messageType.value[0] == 'C'
    && m.side.value[0] in {'B', 'S'}
    && m.occurredAtCross.value[0] in {'N', 'Y'}
    && m.printable.value[0] in {'N', 'Y'}
  }

  /** `validate_fields`: tag, side, occurred-at-cross, printable; the first failure is reported. */
  function ValidateFields(m: OrderExecutedWithPriceMessage): (r: Result<()>)
    ensures r.Ok? <==> Valid(m)
    ensures m.messageType.value[0] != 'C' ==> r == Err(InvalidMessageType('C', m.messageType.value[0]))
    ensures m.messageType.value[0] == 'C' && m.side.value[0] !in {'B', 'S'} ==>
              r == Err(InvalidSideValue(m.side.value[0]))
    ensures m.messageType.value[0] == 'C' && m.side.value[0] in {'B', 'S'} &&
            m.occurredAtCross.value[0] !in {'N', 'Y'} ==>
              r == Err(InvalidOccurredAtCrossValue(m.occurredAtCross.value[0]))
    ensures m.messageType.value[0] == 'C' && m.side.value[0] in {'B', 'S'} &&
            m.occurredAtCross.value[0] in {'N', 'Y'} && m.printable.value[0] !in {'N', 'Y'} ==>
              r == Err(InvalidPrintableValue(m.printable.value[0]))
  {
    if m.messageType.value != ['C'] then
      Err(InvalidMessageType('C', m.messageType.value[0]))
    else if m.side.value[0] !in VALID_SIDE_VALUES then
      Err(InvalidSideValue(m.side.value[0]))
    else if m.occurredAtCross.value[0] !in VALID_OCCURRED_AT_CROSS_VALUES then
      Err(InvalidOccurredAtCrossValue(m.occurredAtCross.value[0]))
    else if m.printable.value[0] !in VALID_PRINTABLE_VALUES then
      Err(InvalidPrintableValue(m.printable.value[0]))
    else
      Ok(())
  }

  /** `OrderExecutedWithPriceMessage::new`: the fields as given, if they validate. */
  function New(m: OrderExecutedWithPriceMessage): (r: Result<OrderExecutedWithPriceMessage>)
    ensures r.Ok? <==> Valid(m)
    ensures r.Ok? ==> r.value == m
    ensures r.Err? ==> r.error == ValidateFields(m).error
  {
    var _ :- ValidateFields(m);
    Ok(m)
  }

  /**
   * `from_bin`: the size, the tag, the side, and then the 12-byte match
   * id, whose read always fails on its width. The numeric reads before it
   * have valid widths and cannot fail, and nothing after it is reached, so
   * no buffer ever decodes.
   */
  function FromBin(data: seq<u8>): (r: Result<OrderExecutedWithPriceMessage>)
    ensures r.Err?
    ensures |data| != 58 ==> r == Err(InvalidMessageSize(58, |data|))
    ensures |data| == 58 && !IsPrintable(data[0]) ==> r == Err(NonISO88591Value(ByteToChar(data[0])))
    ensures |data| == 58 && IsPrintable(data[0]) && !IsPrintable(data[17]) ==>
              r == Err(NonISO88591Value(ByteToChar(data[17])))
    ensures |data| == 58 && IsPrintable(data[0]) && IsPrintable(data[17]) ==> r == Err(InvalidNumericSize(12))
  {
    if |data| != ORDER_EXECUTED_WITH_PRICE_MESSAGE_BYTE_COUNT then
      Err(InvalidMessageSize(ORDER_EXECUTED_WITH_PRICE_MESSAGE_BYTE_COUNT, |data|))
    else
      var _ :- AlphaAt(data, MESSAGE_TYPE_BYTE_OFFSET, MESSAGE_TYPE_LENGTH);
      var _ :- AlphaAt(data, SIDE_BYTE_OFFSET, SIDE_LENGTH);
      var matchId := NumericAt(data, MATCH_ID_BYTE_OFFSET, MATCH_ID_LENGTH);
      Err(matchId.error)
  }

  /**
   * The writes of `to_bin`, in order: numeric fields as all 16 bytes of
   * their `u128`, the trade price as the 4 bytes of its `i32`.
   */
  function Writes(m: OrderExecutedWithPriceMessage): seq<FieldWrite> {
    [ AlphaWrite(MESSAGE_TYPE_BYTE_OFFSET, m.messageType.value),
      NumWrite(NANOSECONDS_BYTE_OFFSET, U128ToBeBytes(m.nanoseconds.value)),
      NumWrite(ORDER_ID_BYTE_OFFSET, U128ToBeBytes(m.orderId.value)),
      NumWrite(ORDER_BOOK_ID_BYTE_OFFSET, U128ToBeBytes(m.orderBookId.value)),
      AlphaWrite(SIDE_BYTE_OFFSET, m.side.value),
      NumWrite(EXECUTED_QUANTITY_BYTE_OFFSET, U128ToBeBytes(m.executedQuantity.value)),
      NumWrite(MATCH_ID_BYTE_OFFSET, U128ToBeBytes(m.matchId.value)),
      AlphaWrite(OWNER_PARTICIPANT_ID_BYTE_OFFSET, m.ownerParticipantId.value),
      AlphaWrite(COUNTERPARTY_PARTICIPANT_ID_BYTE_OFFSET, m.counterpartyParticipantId.value),
      NumWrite(TRADE_PRICE_BYTE_OFFSET, I32ToBeBytes(m.tradePrice.value)),
      AlphaWrite(OCCURRED_AT_CROSS_BYTE_OFFSET, m.occurredAtCross.value),
      AlphaWrite(PRINTABLE_BYTE_OFFSET, m.printable.value) ]
  }

  /**
   * What `to_bin::<size>` does. The widest write, the match id at offset
   * 26, ends at byte 42, so encoding at the right size always succeeds.
   */
  function Encoding(m: OrderExecutedWithPriceMessage, size: nat): (r: ToBinResult)
    ensures size != 58 ==> r == Rejected(InvalidMessageSize(58, size))
    ensures size == 58 ==> r.Encoded? && |r.bytes| == 58
  {
    if size != ORDER_EXECUTED_WITH_PRICE_MESSAGE_BYTE_COUNT then
      Rejected(InvalidMessageSize(ORDER_EXECUTED_WITH_PRICE_MESSAGE_BYTE_COUNT, size))
    else
      Encode(size, Writes(m))
  }

  /** `to_bin`: check the size, then perform the writes on a zero-filled buffer. */
  method ToBin(m: OrderExecutedWithPriceMessage, size: nat) returns (r: ToBinResult)
    ensures r == Encoding(m, size)
  {
    if size != ORDER_EXECUTED_WITH_PRICE_MESSAGE_BYTE_COUNT {
      return Rejected(InvalidMessageSize(ORDER_EXECUTED_WITH_PRICE_MESSAGE_BYTE_COUNT, size));
    }
    r := Serialize(size, Writes(m));
  }

  /** Every write of `to_bin` stays inside the 58-byte buffer. */
  lemma WritesFit(m: OrderExecutedWithPriceMessage)
    ensures Fits(58, Writes(m))
  {
  }

  /** The writes of `to_bin` go in offset order. */
  lemma WritesInOrder(m: OrderExecutedWithPriceMessage)
    ensures Ascending(Writes(m))
  {
  }

  /** So encoding at the right size performs every write without a panic. */
  lemma WritesFitInOrder(m: OrderExecutedWithPriceMessage)
    ensures Fits(58, Writes(m)) && Ascending(Writes(m)) && Encoding(m, 58) == Encode(58, Writes(m))
  {
    WritesFit(m);
    WritesInOrder(m);
  }

  /** Byte 0 of the encoding holds the tag. */
  lemma TagEncoded(m: OrderExecutedWithPriceMessage)
    ensures Encoding(m, 58).Encoded? && Encoding(m, 58).bytes[0..1] == AlphaBytes(m.messageType.value)
  {
    WritesFitInOrder(m);
    EncodedField(58, Writes(m), 0, 1);
  }

  /** Bytes 1 to 5 of the encoding hold the leading 4 bytes of the timestamp. */
  lemma TimestampEncoded(m: OrderExecutedWithPriceMessage)
    ensures Encoding(m, 58).Encoded? && Encoding(m, 58).bytes[1..5] == U128ToBeBytes(m.nanoseconds.value)[..4]
  {
    WritesFitInOrder(m);
    EncodedField(58, Writes(m), 1, 5);
  }

  /** Bytes 5 to 13 of the encoding hold the leading 8 bytes of the order id. */
  lemma OrderIdEncoded(m: OrderExecutedWithPriceMessage)
    ensures Encoding(m, 58).Encoded? && Encoding(m, 58).bytes[5..13] == U128ToBeBytes(m.orderId.value)[..8]
  {
    WritesFitInOrder(m);
    EncodedField(58, Writes(m), 2, 13);
  }

  /** Bytes 13 to 17 of the encoding hold the leading 4 bytes of the order book id. */
  lemma OrderBookIdEncoded(m: OrderExecutedWithPriceMessage)
    ensures Encoding(m, 58).Encoded? && Encoding(m, 58).bytes[13..17] == U128ToBeBytes(m.orderBookId.value)[..4]
  {
    WritesFitInOrder(m);
    EncodedField(58, Writes(m), 3, 17);
  }

  /** Byte 17 of the encoding holds the side. */
  lemma SideEncoded(m: OrderExecutedWithPriceMessage)
    ensures Encoding(m, 58).Encoded? && Encoding(m, 58).bytes[17..18] == AlphaBytes(m.side.value)
  {
    WritesFitInOrder(m);
    EncodedField(58, Writes(m), 4, 18);
  }

  /** Bytes 18 to 26 of the encoding hold the leading 8 bytes of the executed quantity. */
  lemma ExecutedQuantityEncoded(m: OrderExecutedWithPriceMessage)
    ensures Encoding(m, 58).Encoded? && Encoding(m, 58).bytes[18..26] == U128ToBeBytes(m.executedQuantity.value)[..8]
  {
    WritesFitInOrder(m);
    EncodedField(58, Writes(m), 5, 26);
  }

  /** Bytes 26 to 38 of the encoding hold the leading 12 bytes of the match id. */
  lemma MatchIdEncoded(m: OrderExecutedWithPriceMessage)
    ensures Encoding(m, 58).Encoded? && Encoding(m, 58).bytes[26..38] == U128ToBeBytes(m.matchId.value)[..12]
  {
    WritesFitInOrder(m);
    EncodedField(58, Writes(m), 6, 38);
  }

  /** Bytes 38 to 45 of the encoding hold the owner participant id. */
  lemma OwnerEncoded(m: OrderExecutedWithPriceMessage)
    ensures Encoding(m, 58).Encoded? && Encoding(m, 58).bytes[38..45] == AlphaBytes(m.ownerParticipantId.value)
  {
    WritesFitInOrder(m);
    EncodedField(58, Writes(m), 7, 45);
  }

  /** Bytes 45 to 52 of the encoding hold the counterparty participant id. */
  lemma CounterpartyEncoded(m: OrderExecutedWithPriceMessage)
    ensures Encoding(m, 58).Encoded? && Encoding(m, 58).bytes[45..52] == AlphaBytes(m.counterpartyParticipantId.value)
  {
    WritesFitInOrder(m);
    EncodedField(58, Writes(m), 8, 52);
  }

  /** Bytes 52 to 56 of the encoding hold the trade price. */
  lemma TradePriceEncoded(m: OrderExecutedWithPriceMessage)
    ensures Encoding(m, 58).Encoded? && Encoding(m, 58).bytes[52..56] == I32ToBeBytes(m.tradePrice.value)
  {
    WritesFitInOrder(m);
    EncodedField(58, Writes(m), 9, 56);
  }

  /** Byte 56 of the encoding holds the occurred-at-cross flag. */
  lemma OccurredAtCrossEncoded(m: OrderExecutedWithPriceMessage)
    ensures Encoding(m, 58).Encoded? && Encoding(m, 58).bytes[56..57] == AlphaBytes(m.occurredAtCross.value)
  {
    WritesFitInOrder(m);
    EncodedField(58, Writes(m), 10, 57);
  }

  /** Byte 57 of the encoding holds the printable flag. */
  lemma PrintableEncoded(m: OrderExecutedWithPriceMessage)
    ensures Encoding(m, 58).Encoded? && Encoding(m, 58).bytes[57..58] == AlphaBytes(m.printable.value)
  {
    WritesFitInOrder(m);
    EncodedField(58, Writes(m), 11, 58);
  }

  /**
   * Where each field lands in the encoded message: every write but the
   * last is cut short by the next one, so a numeric field keeps only the
   * leading bytes of its 16-byte value; the 4-byte price is written whole.
   */
  lemma EncodingLayout(m: OrderExecutedWithPriceMessage)
    ensures Encoding(m, 58).Encoded?
    ensures Encoding(m, 58).bytes[0..1] == AlphaBytes(m.messageType.value)
    ensures Encoding(m, 58).bytes[1..5] == U128ToBeBytes(m.nanoseconds.value)[..4]
    ensures Encoding(m, 58).bytes[5..13] == U128ToBeBytes(m.orderId.value)[..8]
    ensures Encoding(m, 58).bytes[13..17] == U128ToBeBytes(m.orderBookId.value)[..4]
    ensures Encoding(m, 58).bytes[17..18] == AlphaBytes(m.side.value)
    ensures Encoding(m, 58).bytes[18..26] == U128ToBeBytes(m.executedQuantity.value)[..8]
    ensures Encoding(m, 58).bytes[26..38] == U128ToBeBytes(m.matchId.value)[..12]
    ensures Encoding(m, 58).bytes[38..45] == AlphaBytes(m.ownerParticipantId.value)
    ensures Encoding(m, 58).bytes[45..52] == AlphaBytes(m.counterpartyParticipantId.value)
    ensures Encoding(m, 58).bytes[52..56] == I32ToBeBytes(m.tradePrice.value)
    ensures Encoding(m, 58).bytes[56..57] == AlphaBytes(m.occurredAtCross.value)
    ensures Encoding(m, 58).bytes[57..58] == AlphaBytes(m.printable.value)
  {
    TagEncoded(m);
    TimestampEncoded(m);
    OrderIdEncoded(m);
    OrderBookIdEncoded(m);
    SideEncoded(m);
    ExecutedQuantityEncoded(m);
    MatchIdEncoded(m);
    OwnerEncoded(m);
    CounterpartyEncoded(m);
    TradePriceEncoded(m);
    OccurredAtCrossEncoded(m);
    PrintableEncoded(m);
  }

  /**
   * The trade price survives encoding: reading it back from the bytes
   * `to_bin` produced gives the original price.
   */
  lemma TradePriceSurvivesEncoding(m: OrderExecutedWithPriceMessage)
    ensures ReadPrice(Encoding(m, 58).bytes, 52) == m.tradePrice
  {
    TradePriceEncoded(m);
    var b := Encoding(m, 58).bytes;
    PriceRoundTrip(b, 52, m.tradePrice.value);
    assert Splice(b, 52, I32ToBeBytes(m.tradePrice.value)) == b;
  }

  /**
   * Decoding what `to_bin` produced fails on the match id's width whenever
   * the tag and side are printable, so no message survives the round trip.
   */
  lemma DecodeOfEncoding(m: OrderExecutedWithPriceMessage)
    requires IsPrintableChar(m.messageType.value[0]) && IsPrintableChar(m.side.value[0])
    ensures FromBin(Encoding(m, 58).bytes) == Err(InvalidNumericSize(12))
  {
    TagEncoded(m);
    SideEncoded(m);
    var b := Encoding(m, 58).bytes;
    CharsOfAlphaBytes(b, 0, m.messageType.value);
    CharsOfAlphaBytes(b, 17, m.side.value);
  }
}
