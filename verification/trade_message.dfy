/** Trade ('P'): a trade that did not execute a visible order. Wire size 50 bytes. */
module Trade {
  import opened Ints
  import opened DataFeedErrors
  import opened NumericType
  import opened AlphaType
  import opened PriceType
  import opened BufferUtils
  import opened FieldWrites

  const TRADE_MESSAGE_BYTE_COUNT: nat := 50

  const VALID_SIDE_VALUES: seq<char> := ['B', 'S', ' ']
  const VALID_PRINTABLE_VALUES: seq<char> := ['N', 'Y']
  const VALID_OCCURRED_AT_CROSS_VALUES: seq<char> := ['N', 'Y']

  const MESSAGE_TYPE_BYTE_OFFSET: nat := 0
  const NANOSECONDS_BYTE_OFFSET: nat := 1
  const MATCH_ID_BYTE_OFFSET: nat := 5
  const SIDE_BYTE_OFFSET: nat := 17
  const QUANTITY_BYTE_OFFSET: nat := 18
  const ORDER_BOOK_ID_BYTE_OFFSET: nat := 26
  const TRADE_PRICE_BYTE_OFFSET: nat := 30
  const OWNER_PARTICIPANT_ID_BYTE_OFFSET: nat := 34
  const COUNTERPARTY_PARTICIPANT_ID_BYTE_OFFSET: nat := 41
  const PRINTABLE_BYTE_OFFSET: nat := 48
  const OCCURRED_AT_CROSS_BYTE_OFFSET: nat := 49

  const MESSAGE_TYPE_LENGTH: nat := 1
  const NANOSECONDS_LENGTH: nat := 4
  /** 12 is not one of the valid numeric widths. */
  const MATCH_ID_LENGTH: nat := 12

  datatype TradeMessage = TradeMessage(
    messageType: Alpha1,
    nanoseconds: Numeric,
    matchId: Numeric,
    side: Alpha1,
    quantity: Numeric,
    orderBookId: Numeric,
    tradePrice: Price,
    ownerParticipantId: Alpha7,
    counterpartyParticipantId: Alpha7,
    printable: Alpha1,
    occurredAtCross: Alpha1)

  /**
   * The message a `new` call accepts: tag 'P', side 'B', 'S' or a space,
   * and 'N' or 'Y' for both flags.
   */
  ghost predicate Valid(m: TradeMessage) {
    && m.messageType.value[0] == 'P'
    && m.side.value[0] in {'B', 'S', ' '}
    && m.printable.value[0] in {'N', 'Y'}
    && m.occurredAtCross.value[0] in {'N', 'Y'}
  }

  /** `validate_fields`: tag, side, printable, occurred-at-cross; the first failure is reported. */
  function ValidateFields(m: TradeMessage): (r: Result<()>)
    ensures r.Ok? <==> Valid(m)
    ensures m.messageType.value[0] != 'P' ==> r == Err(InvalidMessageType('P', m.messageType.value[0]))
    ensures m.messageType.value[0] == 'P' && m.side.value[0] !in {'B', 'S', ' '} ==>
              r == Err(InvalidSideValue(m.side.value[0]))
    ensures m.messageType.value[0] == 'P' && m.side.value[0] in {'B', 'S', ' '} &&
            m.printable.value[0] !in {'N', 'Y'} ==>
              r == Err(InvalidPrintableValue(m.printable.value[0]))
    ensures m.messageType.value[0] == 'P' && m.side.value[0] in {'B', 'S', ' '} &&
            m.printable.value[0] in {'N', 'Y'} && m.occurredAtCross.value[0] !in {'N', 'Y'} ==>
              r == Err(InvalidOccurredAtCrossValue(m.occurredAtCross.value[0]))
  {
    if m.messageType.value != ['P'] then
      Err(InvalidMessageType('P', m.messageType.value[0]))
    else if m.side.value[0] !in VALID_SIDE_VALUES then
      Err(InvalidSideValue(m.side.value[0]))
    else if m.printable.value[0] !in VALID_PRINTABLE_VALUES then
      Err(InvalidPrintableValue(m.printable.value[0]))
    else if m.occurredAtCross.value[0] !in VALID_OCCURRED_AT_CROSS_VALUES then
      Err(InvalidOccurredAtCrossValue(m.occurredAtCross.value[0]))
    else
      Ok(())
  }

  /** `TradeMessage::new`: the fields as given, if they validate. */
  function New(m: TradeMessage): (r: Result<TradeMessage>)
    ensures r.Ok? <==> Valid(m)
    ensures r.Ok? ==> r.value == m
    ensures r.Err? ==> r.error == ValidateFields(m).error
  {
    var _ :- ValidateFields(m);
    Ok(m)
  }

  /**
   * `from_bin`: the size, the tag, the timestamp, and then the 12-byte
   * match id, whose read always fails on its width. The side and the
   * other text fields come after it and are never read, so the outcome
   * depends on nothing but the size and the tag byte, and no buffer ever
   * decodes.
   */
  function FromBin(data: seq<u8>): (r: Result<TradeMessage>)
    ensures r.Err?
    ensures |data| != 50 ==> r == Err(InvalidMessageSize(50, |data|))
    ensures |data| == 50 && !IsPrintable(data[0]) ==> r == Err(NonISO88591Value(ByteToChar(data[0])))
    ensures |data| == 50 && IsPrintable(data[0]) ==> r == Err(InvalidNumericSize(12))
  {
    if |data| != TRADE_MESSAGE_BYTE_COUNT then
      Err(InvalidMessageSize(TRADE_MESSAGE_BYTE_COUNT, |data|))
    else
      var _ :- AlphaAt(data, MESSAGE_TYPE_BYTE_OFFSET, MESSAGE_TYPE_LENGTH);
      // a width of 4 is valid, so this read cannot fail
      var _ := NumericAt(data, NANOSECONDS_BYTE_OFFSET, NANOSECONDS_LENGTH).value;
      var matchId := NumericAt(data, MATCH_ID_BYTE_OFFSET, MATCH_ID_LENGTH);
      Err(matchId.error)
  }

  /**
   * The writes of `to_bin`, in order: numeric fields as all 16 bytes of
   * their `u128`, the trade price as the 4 bytes of its `i32`.
   */
  function Writes(m: TradeMessage): seq<FieldWrite> {
    [ AlphaWrite(MESSAGE_TYPE_BYTE_OFFSET, m.messageType.value),
      NumWrite(NANOSECONDS_BYTE_OFFSET, U128ToBeBytes(m.nanoseconds.value)),
      NumWrite(MATCH_ID_BYTE_OFFSET, U128ToBeBytes(m.matchId.value)),
      AlphaWrite(SIDE_BYTE_OFFSET, m.side.value),
      NumWrite(QUANTITY_BYTE_OFFSET, U128ToBeBytes(m.quantity.value)),
      NumWrite(ORDER_BOOK_ID_BYTE_OFFSET, U128ToBeBytes(m.orderBookId.value)),
      NumWrite(TRADE_PRICE_BYTE_OFFSET, I32ToBeBytes(m.tradePrice.value)),
      AlphaWrite(OWNER_PARTICIPANT_ID_BYTE_OFFSET, m.ownerParticipantId.value),
      AlphaWrite(COUNTERPARTY_PARTICIPANT_ID_BYTE_OFFSET, m.counterpartyParticipantId.value),
      AlphaWrite(PRINTABLE_BYTE_OFFSET, m.printable.value),
      AlphaWrite(OCCURRED_AT_CROSS_BYTE_OFFSET, m.occurredAtCross.value) ]
  }

  /**
   * What `to_bin::<size>` does. The widest write, the order book id at
   * offset 26, ends at byte 42, so encoding at the right size always succeeds.
   */
  function Encoding(m: TradeMessage, size: nat): (r: ToBinResult)
    ensures size != 50 ==> r == Rejected(InvalidMessageSize(50, size))
    ensures size == 50 ==> r.Encoded? && |r.bytes| == 50
  {
    if size != TRADE_MESSAGE_BYTE_COUNT then
      Rejected(InvalidMessageSize(TRADE_MESSAGE_BYTE_COUNT, size))
    else
      Encode(size, Writes(m))
  }

  /** `to_bin`: check the size, then perform the writes on a zero-filled buffer. */
  method ToBin(m: TradeMessage, size: nat) returns (r: ToBinResult)
    ensures r == Encoding(m, size)
  {
    if size != TRADE_MESSAGE_BYTE_COUNT {
      return Rejected(InvalidMessageSize(TRADE_MESSAGE_BYTE_COUNT, size));
    }
    r := Serialize(size, Writes(m));
  }

  /** Every write of `to_bin` stays inside the 50-byte buffer. */
  lemma WritesFit(m: TradeMessage)
    ensures Fits(50, Writes(m))
  {
  }

  /** The writes of `to_bin` go in offset order. */
  lemma WritesInOrder(m: TradeMessage)
    ensures Ascending(Writes(m))
  {
  }

  /** So encoding at the right size performs every write without a panic. */
  lemma WritesFitInOrder(m: TradeMessage)
    ensures Fits(50, Writes(m)) && Ascending(Writes(m)) && Encoding(m, 50) == Encode(50, Writes(m))
  {
    WritesFit(m);
    WritesInOrder(m);
  }

  /** Byte 0 of the encoding holds the tag. */
  lemma TagEncoded(m: TradeMessage)
    ensures Encoding(m, 50).Encoded? && Encoding(m, 50).bytes[0..1] == AlphaBytes(m.messageType.value)
  {
    WritesFitInOrder(m);
    EncodedField(50, Writes(m), 0, 1);
  }

  /** Bytes 1 to 5 of the encoding hold the leading 4 bytes of the timestamp. */
  lemma TimestampEncoded(m: TradeMessage)
    ensures Encoding(m, 50).Encoded? && Encoding(m, 50).bytes[1..5] == U128ToBeBytes(m.nanoseconds.value)[..4]
  {
    WritesFitInOrder(m);
    EncodedField(50, Writes(m), 1, 5);
  }

  /** Bytes 5 to 17 of the encoding hold the leading 12 bytes of the match id. */
  lemma MatchIdEncoded(m: TradeMessage)
    ensures Encoding(m, 50).Encoded? && Encoding(m, 50).bytes[5..17] == U128ToBeBytes(m.matchId.value)[..12]
  {
    WritesFitInOrder(m);
    EncodedField(50, Writes(m), 2, 17);
  }

  /** Byte 17 of the encoding holds the side. */
  lemma SideEncoded(m: TradeMessage)
    ensures Encoding(m, 50).Encoded? && Encoding(m, 50).bytes[17..18] == AlphaBytes(m.side.value)
  {
    WritesFitInOrder(m);
    EncodedField(50, Writes(m), 3, 18);
  }

  /** Bytes 18 to 26 of the encoding hold the leading 8 bytes of the quantity. */
  lemma QuantityEncoded(m: TradeMessage)
    ensures Encoding(m, 50).Encoded? && Encoding(m, 50).bytes[18..26] == U128ToBeBytes(m.quantity.value)[..8]
  {
    WritesFitInOrder(m);
    EncodedField(50, Writes(m), 4, 26);
  }

  /** Bytes 26 to 30 of the encoding hold the leading 4 bytes of the order book id. */
  lemma OrderBookIdEncoded(m: TradeMessage)
    ensures Encoding(m, 50).Encoded? && Encoding(m, 50).bytes[26..30] == U128ToBeBytes(m.orderBookId.value)[..4]
  {
    WritesFitInOrder(m);
    EncodedField(50, Writes(m), 5, 30);
  }

  /** Bytes 30 to 34 of the encoding hold the trade price. */
  lemma TradePriceEncoded(m: TradeMessage)
    ensures Encoding(m, 50).Encoded? && Encoding(m, 50).bytes[30..34] == I32ToBeBytes(m.tradePrice.value)
  {
    WritesFitInOrder(m);
    EncodedField(50, Writes(m), 6, 34);
  }

  /** Bytes 34 to 41 of the encoding hold the owner participant id. */
  lemma OwnerEncoded(m: TradeMessage)
    ensures Encoding(m, 50).Encoded? && Encoding(m, 50).bytes[34..41] == AlphaBytes(m.ownerParticipantId.value)
  {
    WritesFitInOrder(m);
    EncodedField(50, Writes(m), 7, 41);
  }

  /** Bytes 41 to 48 of the encoding hold the counterparty participant id. */
  lemma CounterpartyEncoded(m: TradeMessage)
    ensures Encoding(m, 50).Encoded? && Encoding(m, 50).bytes[41..48] == AlphaBytes(m.counterpartyParticipantId.value)
  {
    WritesFitInOrder(m);
    EncodedField(50, Writes(m), 8, 48);
  }

  /** Byte 48 of the encoding holds the printable flag. */
  lemma PrintableEncoded(m: TradeMessage)
    ensures Encoding(m, 50).Encoded? && Encoding(m, 50).bytes[48..49] == AlphaBytes(m.printable.value)
  {
    WritesFitInOrder(m);
    EncodedField(50, Writes(m), 9, 49);
  }

  /** Byte 49 of the encoding holds the occurred-at-cross flag. */
  lemma OccurredAtCrossEncoded(m: TradeMessage)
    ensures Encoding(m, 50).Encoded? && Encoding(m, 50).bytes[49..50] == AlphaBytes(m.occurredAtCross.value)
  {
    WritesFitInOrder(m);
    EncodedField(50, Writes(m), 10, 50);
  }

  /**
   * Where each field lands in the encoded message: every write but the
   * last is cut short by the next one, so a numeric field keeps only the
   * leading bytes of its 16-byte value; the 4-byte price is written whole.
   */
  lemma EncodingLayout(m: TradeMessage)
    ensures Encoding(m, 50).Encoded?
    ensures Encoding(m, 50).bytes[0..1] == AlphaBytes(m.messageType.value)
    ensures Encoding(m, 50).bytes[1..5] == U128ToBeBytes(m.nanoseconds.value)[..4]
    ensures Encoding(m, 50).bytes[5..17] == U128ToBeBytes(m.matchId.value)[..12]
    ensures Encoding(m, 50).bytes[17..18] == AlphaBytes(m.side.value)
    ensures Encoding(m, 50).bytes[18..26] == U128ToBeBytes(m.quantity.value)[..8]
    ensures Encoding(m, 50).bytes[26..30] == U128ToBeBytes(m.orderBookId.value)[..4]
    ensures Encoding(m, 50).bytes[30..34] == I32ToBeBytes(m.tradePrice.value)
    ensures Encoding(m, 50).bytes[34..41] == AlphaBytes(m.ownerParticipantId.value)
    ensures Encoding(m, 50).bytes[41..48] == AlphaBytes(m.counterpartyParticipantId.value)
    ensures Encoding(m, 50).bytes[48..49] == AlphaBytes(m.printable.value)
    ensures Encoding(m, 50).bytes[49..50] == AlphaBytes(m.occurredAtCross.value)
  {
    TagEncoded(m);
    TimestampEncoded(m);
    MatchIdEncoded(m);
    SideEncoded(m);
    QuantityEncoded(m);
    OrderBookIdEncoded(m);
    TradePriceEncoded(m);
    OwnerEncoded(m);
    CounterpartyEncoded(m);
    PrintableEncoded(m);
    OccurredAtCrossEncoded(m);
  }

  /**
   * The trade price survives encoding: reading it back from the bytes
   * `to_bin` produced gives the original price.
   */
  lemma TradePriceSurvivesEncoding(m: TradeMessage)
    ensures ReadPrice(Encoding(m, 50).bytes, 30) == m.tradePrice
  {
    TradePriceEncoded(m);
    var b := Encoding(m, 50).bytes;
    PriceRoundTrip(b, 30, m.tradePrice.value);
    assert Splice(b, 30, I32ToBeBytes(m.tradePrice.value)) == b;
  }

  /**
   * Decoding what `to_bin` produced fails on the match id's width whenever
   * the tag is printable, so no message survives the round trip.
   */
  lemma DecodeOfEncoding(m: TradeMessage)
    requires IsPrintableChar(m.messageType.value[0])
    ensures FromBin(Encoding(m, 50).bytes) == Err(InvalidNumericSize(12))
  {
    TagEncoded(m);
    CharsOfAlphaBytes(Encoding(m, 50).bytes, 0, m.messageType.value);
  }
}
