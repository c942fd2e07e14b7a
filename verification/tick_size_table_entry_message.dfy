/** Tick Size Table Entry ('L'): the tick size for a price band of an order book. Wire size 25 bytes. */
module TickSizeTableEntry {
  import opened Ints
  import opened DataFeedErrors
  import opened NumericType
  import opened AlphaType
  import opened PriceType
  import opened BufferUtils
  import opened FieldWrites

  const TICK_SIZE_TABLE_ENTRY_MESSAGE_BYTE_COUNT: nat := 25

  const MESSAGE_TYPE_BYTE_OFFSET: nat := 0
  const NANOSECONDS_BYTE_OFFSET: nat := 1
  const ORDER_BOOK_ID_BYTE_OFFSET: nat := 5
  const TICK_SIZE_BYTE_OFFSET: nat := 9
  const PRICE_FROM_BYTE_OFFSET: nat := 17
  const PRICE_TO_BYTE_OFFSET: nat := 21

  const MESSAGE_TYPE_LENGTH: nat := 1
  const NANOSECONDS_LENGTH: nat := 4
  const ORDER_BOOK_ID_LENGTH: nat := 4
  const TICK_SIZE_LENGTH: nat := 8

  datatype TickSizeTableEntryMessage = TickSizeTableEntryMessage(
    messageType: Alpha1,
    nanoseconds: Numeric,
    orderBookId: Numeric,
    tickSize: Numeric,
    priceFrom: Price,
    priceTo: Price)

  /** `validate_fields`: only the tag is checked; the price band need not be ordered. */
  function ValidateFields(m: TickSizeTableEntryMessage): (r: Result<()>)
    ensures r.Ok? <==> m.messageType.value[0] == 'L'
    ensures r.Err? ==> r.error == InvalidMessageType('L', m.messageType.value[0])
  {
    if m.messageType.value != ['L'] then
      Err(InvalidMessageType('L', m.messageType.value[0]))
    else
      Ok(())
  }

  /** `TickSizeTableEntryMessage::new`: the fields as given, if they validate. */
  function New(m: TickSizeTableEntryMessage): (r: Result<TickSizeTableEntryMessage>)
    ensures r.Ok? <==> m.messageType.value[0] == 'L'
    ensures r.Ok? ==> r.value == m
    ensures r.Err? ==> r.error == ValidateFields(m).error
  {
    var _ :- ValidateFields(m);
    Ok(m)
  }

  /** The message whose fields are the given bytes, read at the field offsets. */
  function Decoded(data: seq<u8>): TickSizeTableEntryMessage
    requires |data| == TICK_SIZE_TABLE_ENTRY_MESSAGE_BYTE_COUNT
  {
    TickSizeTableEntryMessage(
      Alpha(Chars(data, MESSAGE_TYPE_BYTE_OFFSET, MESSAGE_TYPE_LENGTH)),
      NumericAt(data, NANOSECONDS_BYTE_OFFSET, NANOSECONDS_LENGTH).value,
      NumericAt(data, ORDER_BOOK_ID_BYTE_OFFSET, ORDER_BOOK_ID_LENGTH).value,
      NumericAt(data, TICK_SIZE_BYTE_OFFSET, TICK_SIZE_LENGTH).value,
      ReadPrice(data, PRICE_FROM_BYTE_OFFSET),
      ReadPrice(data, PRICE_TO_BYTE_OFFSET))
  }

  /** `from_bin`: the size, then the tag byte, then `new` on what was read. */
  function FromBin(data: seq<u8>): (r: Result<TickSizeTableEntryMessage>)
    ensures |data| != 25 ==> r == Err(InvalidMessageSize(25, |data|))
    ensures |data| == 25 && !IsPrintable(data[0]) ==> r == Err(NonISO88591Value(ByteToChar(data[0])))
    ensures |data| == 25 && IsPrintable(data[0]) ==> r == New(Decoded(data))
    ensures r.Ok? <==> |data| == 25 && data[0] == 'L' as u8
    ensures r.Ok? ==> r.value == Decoded(data)
  {
    if |data| != TICK_SIZE_TABLE_ENTRY_MESSAGE_BYTE_COUNT then
      Err(InvalidMessageSize(TICK_SIZE_TABLE_ENTRY_MESSAGE_BYTE_COUNT, |data|))
    else
      var messageType :- AlphaAt(data, MESSAGE_TYPE_BYTE_OFFSET, MESSAGE_TYPE_LENGTH);
      // widths of 4 and 8 are valid, so these reads cannot fail
      var nanoseconds := NumericAt(data, NANOSECONDS_BYTE_OFFSET, NANOSECONDS_LENGTH).value;
      var orderBookId := NumericAt(data, ORDER_BOOK_ID_BYTE_OFFSET, ORDER_BOOK_ID_LENGTH).value;
      var tickSize := NumericAt(data, TICK_SIZE_BYTE_OFFSET, TICK_SIZE_LENGTH).value;
      var priceFrom := ReadPrice(data, PRICE_FROM_BYTE_OFFSET);
      var priceTo := ReadPrice(data, PRICE_TO_BYTE_OFFSET);
      New(TickSizeTableEntryMessage(messageType, nanoseconds, orderBookId, tickSize, priceFrom, priceTo))
  }

  /**
   * The writes of `to_bin`, in order: numeric fields as all 16 bytes of
   * their `u128`, prices as the 4 bytes of their `i32`.
   */
  function Writes(m: TickSizeTableEntryMessage): seq<FieldWrite> {
    [ AlphaWrite(MESSAGE_TYPE_BYTE_OFFSET, m.messageType.value),
      NumWrite(NANOSECONDS_BYTE_OFFSET, U128ToBeBytes(m.nanoseconds.value)),
      NumWrite(ORDER_BOOK_ID_BYTE_OFFSET, U128ToBeBytes(m.orderBookId.value)),
      NumWrite(TICK_SIZE_BYTE_OFFSET, U128ToBeBytes(m.tickSize.value)),
      NumWrite(PRICE_FROM_BYTE_OFFSET, I32ToBeBytes(m.priceFrom.value)),
      NumWrite(PRICE_TO_BYTE_OFFSET, I32ToBeBytes(m.priceTo.value)) ]
  }

  /**
   * What `to_bin::<size>` does. The last 16-byte write ends exactly at
   * byte 25, so encoding at the right size always succeeds.
   */
  function Encoding(m: TickSizeTableEntryMessage, size: nat): (r: ToBinResult)
    ensures size != 25 ==> r == Rejected(InvalidMessageSize(25, size))
    ensures size == 25 ==> r.Encoded? && |r.bytes| == 25
  {
    if size != TICK_SIZE_TABLE_ENTRY_MESSAGE_BYTE_COUNT then
      Rejected(InvalidMessageSize(TICK_SIZE_TABLE_ENTRY_MESSAGE_BYTE_COUNT, size))
    else
      Encode(size, Writes(m))
  }

  /** `to_bin`: check the size, then perform the writes on a zero-filled buffer. */
  method ToBin(m: TickSizeTableEntryMessage, size: nat) returns (r: ToBinResult)
    ensures r == Encoding(m, size)
  {
    if size != TICK_SIZE_TABLE_ENTRY_MESSAGE_BYTE_COUNT {
      return Rejected(InvalidMessageSize(TICK_SIZE_TABLE_ENTRY_MESSAGE_BYTE_COUNT, size));
    }
    r := Serialize(size, Writes(m));
  }

  /** Every write of `to_bin` stays inside the 25-byte buffer. */
  lemma WritesFit(m: TickSizeTableEntryMessage)
    ensures Fits(25, Writes(m))
  {
  }

  /** The writes of `to_bin` go in offset order. */
  lemma WritesInOrder(m: TickSizeTableEntryMessage)
    ensures Ascending(Writes(m))
  {
  }

  /** So encoding at the right size performs every write without a panic. */
  lemma WritesFitInOrder(m: TickSizeTableEntryMessage)
    ensures Fits(25, Writes(m)) && Ascending(Writes(m)) && Encoding(m, 25) == Encode(25, Writes(m))
  {
    WritesFit(m);
    WritesInOrder(m);
  }

  /** Byte 0 of the encoding holds the tag. */
  lemma TagEncoded(m: TickSizeTableEntryMessage)
    ensures Encoding(m, 25).Encoded? && Encoding(m, 25).bytes[0..1] == AlphaBytes(m.messageType.value)
  {
    WritesFitInOrder(m);
    EncodedField(25, Writes(m), 0, 1);
  }

  /** Bytes 1 to 5 of the encoding hold the leading 4 bytes of the timestamp. */
  lemma TimestampEncoded(m: TickSizeTableEntryMessage)
    ensures Encoding(m, 25).Encoded? && Encoding(m, 25).bytes[1..5] == U128ToBeBytes(m.nanoseconds.value)[..4]
  {
    WritesFitInOrder(m);
    EncodedField(25, Writes(m), 1, 5);
  }

  /** Bytes 5 to 9 of the encoding hold the leading 4 bytes of the order book id. */
  lemma OrderBookIdEncoded(m: TickSizeTableEntryMessage)
    ensures Encoding(m, 25).Encoded? && Encoding(m, 25).bytes[5..9] == U128ToBeBytes(m.orderBookId.value)[..4]
  {
    WritesFitInOrder(m);
    EncodedField(25, Writes(m), 2, 9);
  }

  /** Bytes 9 to 17 of the encoding hold the leading 8 bytes of the tick size. */
  lemma TickSizeEncoded(m: TickSizeTableEntryMessage)
    ensures Encoding(m, 25).Encoded? && Encoding(m, 25).bytes[9..17] == U128ToBeBytes(m.tickSize.value)[..8]
  {
    WritesFitInOrder(m);
    EncodedField(25, Writes(m), 3, 17);
  }

  /** Bytes 17 to 21 of the encoding hold the lower price bound. */
  lemma PriceFromEncoded(m: TickSizeTableEntryMessage)
    ensures Encoding(m, 25).Encoded? && Encoding(m, 25).bytes[17..21] == I32ToBeBytes(m.priceFrom.value)
  {
    WritesFitInOrder(m);
    EncodedField(25, Writes(m), 4, 21);
  }

  /** Bytes 21 to 25 of the encoding hold the upper price bound. */
  lemma PriceToEncoded(m: TickSizeTableEntryMessage)
    ensures Encoding(m, 25).Encoded? && Encoding(m, 25).bytes[21..25] == I32ToBeBytes(m.priceTo.value)
  {
    WritesFitInOrder(m);
    EncodedField(25, Writes(m), 5, 25);
  }

  /**
   * Where each field lands in the encoded message: every write but the
   * last is cut short by the next one, so a numeric field keeps only the
   * leading bytes of its 16-byte value; the 4-byte prices are written whole.
   */
  lemma EncodingLayout(m: TickSizeTableEntryMessage)
    ensures Encoding(m, 25).Encoded?
    ensures Encoding(m, 25).bytes[0..1] == AlphaBytes(m.messageType.value)
    ensures Encoding(m, 25).bytes[1..5] == U128ToBeBytes(m.nanoseconds.value)[..4]
    ensures Encoding(m, 25).bytes[5..9] == U128ToBeBytes(m.orderBookId.value)[..4]
    ensures Encoding(m, 25).bytes[9..17] == U128ToBeBytes(m.tickSize.value)[..8]
    ensures Encoding(m, 25).bytes[17..21] == I32ToBeBytes(m.priceFrom.value)
    ensures Encoding(m, 25).bytes[21..25] == I32ToBeBytes(m.priceTo.value)
  {
    TagEncoded(m);
    TimestampEncoded(m);
    OrderBookIdEncoded(m);
    TickSizeEncoded(m);
    PriceFromEncoded(m);
    PriceToEncoded(m);
  }

  /**
   * Decoding what `to_bin` produced gives back the tag and both prices,
   * but each numeric field only as its most significant bytes.
   */
  lemma DecodeOfEncoding(m: TickSizeTableEntryMessage)
    requires IsPrintableChar(m.messageType.value[0])
    ensures FromBin(Encoding(m, 25).bytes) ==
              New(TickSizeTableEntryMessage(m.messageType,
                                            Numeric(DropLowBytes(m.nanoseconds.value, 12)),
                                            Numeric(DropLowBytes(m.orderBookId.value, 12)),
                                            Numeric(DropLowBytes(m.tickSize.value, 8)),
                                            m.priceFrom,
                                            m.priceTo))
  {
    EncodingLayout(m);
    var b := Encoding(m, 25).bytes;
    CharsOfAlphaBytes(b, 0, m.messageType.value);
    NumericOfLeadingBytes(b, 1, 4, m.nanoseconds.value);
    NumericOfLeadingBytes(b, 5, 4, m.orderBookId.value);
    NumericOfLeadingBytes(b, 9, 8, m.tickSize.value);
    PriceRoundTrip(b, 17, m.priceFrom.value);
    PriceRoundTrip(b, 21, m.priceTo.value);
    assert Splice(b, 17, I32ToBeBytes(m.priceFrom.value)) == b;
    assert Splice(b, 21, I32ToBeBytes(m.priceTo.value)) == b;
  }

  /**
   * For a valid message whose numbers fit their widths, the round trip
   * returns the message exactly when all three numbers are zero.
   */
  lemma RoundTripOnlyAtZero(m: TickSizeTableEntryMessage)
    requires New(m).Ok?
    requires NumericType.Validate(4, m.nanoseconds).Ok? && NumericType.Validate(4, m.orderBookId).Ok?
    requires NumericType.Validate(8, m.tickSize).Ok?
    ensures FromBin(Encoding(m, 25).bytes) == Ok(m) <==>
              m.nanoseconds.value == 0 && m.orderBookId.value == 0 && m.tickSize.value == 0
  {
    DecodeOfEncoding(m);
    Pow256Monotone(4, 12);
    Pow256Monotone(8, 12);
    DropLowBytesOfSmall(m.nanoseconds.value, 12);
    DropLowBytesOfSmall(m.orderBookId.value, 12);
    DropLowBytesOfSmall(m.tickSize.value, 8);
  }
}
