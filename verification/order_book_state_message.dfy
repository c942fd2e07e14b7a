/** Order Book State ('O'): the trading state of one order book. Wire size 29 bytes. */
module OrderBookState {
  import opened Ints
  import opened DataFeedErrors
  import opened NumericType
  import opened AlphaType
  import opened BufferUtils
  import opened FieldWrites

  const ORDER_BOOK_STATE_MESSAGE_BYTE_COUNT: nat := 29

  const MESSAGE_TYPE_BYTE_OFFSET: nat := 0
  const NANOSECONDS_BYTE_OFFSET: nat := 1
  const ORDER_BOOK_ID_BYTE_OFFSET: nat := 5
  const STATE_NAME_BYTE_OFFSET: nat := 9

  const MESSAGE_TYPE_LENGTH: nat := 1
  const NANOSECONDS_LENGTH: nat := 4
  const ORDER_BOOK_ID_LENGTH: nat := 4
  const STATE_NAME_LENGTH: nat := 20

  datatype OrderBookStateMessage = OrderBookStateMessage(
    messageType: Alpha1,
    nanoseconds: Numeric,
    orderBookId: Numeric,
    stateName: Alpha20)

  /** `validate_fields`: only the tag is checked; the state name is free text. */
  function ValidateFields(m: OrderBookStateMessage): (r: Result<()>)
    ensures r.Ok? <==> m.messageType.value[0] == 'O'
    ensures r.Err? ==> r.error == InvalidMessageType('O', m.messageType.value[0])
  {
    if m.messageType.value != ['O'] then
      Err(InvalidMessageType('O', m.messageType.value[0]))
    else
      Ok(())
  }

  /** `OrderBookStateMessage::new`: the fields as given, if they validate. */
  function New(m: OrderBookStateMessage): (r: Result<OrderBookStateMessage>)
    ensures r.Ok? <==> m.messageType.value[0] == 'O'
    ensures r.Ok? ==> r.value == m
    ensures r.Err? ==> r.error == ValidateFields(m).error
  {
    var _ :- ValidateFields(m);
    Ok(m)
  }

  /** The message whose fields are the given bytes, read at the field offsets. */
  function Decoded(data: seq<u8>): OrderBookStateMessage
    requires |data| == ORDER_BOOK_STATE_MESSAGE_BYTE_COUNT
  {
    OrderBookStateMessage(
      Alpha(Chars(data, MESSAGE_TYPE_BYTE_OFFSET, MESSAGE_TYPE_LENGTH)),
      NumericAt(data, NANOSECONDS_BYTE_OFFSET, NANOSECONDS_LENGTH).value,
      NumericAt(data, ORDER_BOOK_ID_BYTE_OFFSET, ORDER_BOOK_ID_LENGTH).value,
      Alpha(Chars(data, STATE_NAME_BYTE_OFFSET, STATE_NAME_LENGTH)))
  }

  /** `from_bin`: the size, then the text fields in order, then `new` on what was read. */
  function FromBin(data: seq<u8>): (r: Result<OrderBookStateMessage>)
    ensures |data| != 29 ==> r == Err(InvalidMessageSize(29, |data|))
    ensures |data| == 29 && !IsPrintable(data[0]) ==> r == Err(NonISO88591Value(ByteToChar(data[0])))
    ensures |data| == 29 && IsPrintable(data[0]) && !PrintableRange(data, 9, 20) ==>
              exists k :: FirstUnprintable(data, 9, 20, k) && r == Err(NonISO88591Value(ByteToChar(data[k])))
    ensures |data| == 29 && IsPrintable(data[0]) && PrintableRange(data, 9, 20) ==> r == New(Decoded(data))
    ensures r.Ok? <==> |data| == 29 && data[0] == 'O' as u8 && PrintableRange(data, 9, 20)
    ensures r.Ok? ==> r.value == Decoded(data)
  {
    if |data| != ORDER_BOOK_STATE_MESSAGE_BYTE_COUNT then
      Err(InvalidMessageSize(ORDER_BOOK_STATE_MESSAGE_BYTE_COUNT, |data|))
    else
      var messageType :- AlphaAt(data, MESSAGE_TYPE_BYTE_OFFSET, MESSAGE_TYPE_LENGTH);
      // widths of 4 are valid, so these reads cannot fail
      var nanoseconds := NumericAt(data, NANOSECONDS_BYTE_OFFSET, NANOSECONDS_LENGTH).value;
      var orderBookId := NumericAt(data, ORDER_BOOK_ID_BYTE_OFFSET, ORDER_BOOK_ID_LENGTH).value;
      var stateName :- AlphaAt(data, STATE_NAME_BYTE_OFFSET, STATE_NAME_LENGTH);
      New(OrderBookStateMessage(messageType, nanoseconds, orderBookId, stateName))
  }

  /** The writes of `to_bin`, in order; each numeric field is written as all 16 bytes of its `u128`. */
  function Writes(m: OrderBookStateMessage): seq<FieldWrite> {
    [ AlphaWrite(MESSAGE_TYPE_BYTE_OFFSET, m.messageType.value),
      NumWrite(NANOSECONDS_BYTE_OFFSET, U128ToBeBytes(m.nanoseconds.value)),
      NumWrite(ORDER_BOOK_ID_BYTE_OFFSET, U128ToBeBytes(m.orderBookId.value)),
      AlphaWrite(STATE_NAME_BYTE_OFFSET, m.stateName.value) ]
  }

  /**
   * What `to_bin::<size>` does. Every write ends within 29 bytes (the
   * 16-byte ones are partly overwritten by the fields after them), so
   * encoding at the right size always succeeds.
   */
  function Encoding(m: OrderBookStateMessage, size: nat): (r: ToBinResult)
    ensures size != 29 ==> r == Rejected(InvalidMessageSize(29, size))
    ensures size == 29 ==> r.Encoded? && |r.bytes| == 29
  {
    if size != ORDER_BOOK_STATE_MESSAGE_BYTE_COUNT then
      Rejected(InvalidMessageSize(ORDER_BOOK_STATE_MESSAGE_BYTE_COUNT, size))
    else
      Encode(size, Writes(m))
  }

  /** `to_bin`: check the size, then perform the writes on a zero-filled buffer. */
  method ToBin(m: OrderBookStateMessage, size: nat) returns (r: ToBinResult)
    ensures r == Encoding(m, size)
  {
    if size != ORDER_BOOK_STATE_MESSAGE_BYTE_COUNT {
      return Rejected(InvalidMessageSize(ORDER_BOOK_STATE_MESSAGE_BYTE_COUNT, size));
    }
    r := Serialize(size, Writes(m));
  }

  /** Every write of `to_bin` stays inside the 29-byte buffer. */
  lemma WritesFit(m: OrderBookStateMessage)
    ensures Fits(29, Writes(m))
  {
  }

  /** The writes of `to_bin` go in offset order. */
  lemma WritesInOrder(m: OrderBookStateMessage)
    ensures Ascending(Writes(m))
  {
  }

  /** So encoding at the right size performs every write without a panic. */
  lemma WritesFitInOrder(m: OrderBookStateMessage)
    ensures Fits(29, Writes(m)) && Ascending(Writes(m)) && Encoding(m, 29) == Encode(29, Writes(m))
  {
    WritesFit(m);
    WritesInOrder(m);
  }

  /** Byte 0 of the encoding holds the tag. */
  lemma TagEncoded(m: OrderBookStateMessage)
    ensures Encoding(m, 29).Encoded? && Encoding(m, 29).bytes[0..1] == AlphaBytes(m.messageType.value)
  {
    WritesFitInOrder(m);
    EncodedField(29, Writes(m), 0, 1);
  }

  /** Bytes 1 to 5 of the encoding hold the leading 4 bytes of the timestamp. */
  lemma TimestampEncoded(m: OrderBookStateMessage)
    ensures Encoding(m, 29).Encoded? && Encoding(m, 29).bytes[1..5] == U128ToBeBytes(m.nanoseconds.value)[..4]
  {
    WritesFitInOrder(m);
    EncodedField(29, Writes(m), 1, 5);
  }

  /** Bytes 5 to 9 of the encoding hold the leading 4 bytes of the order book id. */
  lemma OrderBookIdEncoded(m: OrderBookStateMessage)
    ensures Encoding(m, 29).Encoded? && Encoding(m, 29).bytes[5..9] == U128ToBeBytes(m.orderBookId.value)[..4]
  {
    WritesFitInOrder(m);
    EncodedField(29, Writes(m), 2, 9);
  }

  /** Bytes 9 to 29 of the encoding hold the state name. */
  lemma StateNameEncoded(m: OrderBookStateMessage)
    ensures Encoding(m, 29).Encoded? && Encoding(m, 29).bytes[9..29] == AlphaBytes(m.stateName.value)
  {
    WritesFitInOrder(m);
    EncodedField(29, Writes(m), 3, 29);
  }

  /**
   * Where each field lands in the encoded message: every write but the
   * last is cut short by the next one, so a numeric field keeps only the
   * leading bytes of its 16-byte value, which are zero unless the value
   * is too wide for the field.
   */
  lemma EncodingLayout(m: OrderBookStateMessage)
    ensures Encoding(m, 29).Encoded?
    ensures Encoding(m, 29).bytes[0..1] == AlphaBytes(m.messageType.value)
    ensures Encoding(m, 29).bytes[1..5] == U128ToBeBytes(m.nanoseconds.value)[..4]
    ensures Encoding(m, 29).bytes[5..9] == U128ToBeBytes(m.orderBookId.value)[..4]
    ensures Encoding(m, 29).bytes[9..29] == AlphaBytes(m.stateName.value)
  {
    TagEncoded(m);
    TimestampEncoded(m);
    OrderBookIdEncoded(m);
    StateNameEncoded(m);
  }

  /**
   * Decoding what `to_bin` produced gives back the text, but each numeric
   * field comes back as its most significant 4 bytes of 16.
   */
  lemma DecodeOfEncoding(m: OrderBookStateMessage)
    requires IsPrintableChar(m.messageType.value[0])
    requires forall i :: 0 <= i < 20 ==> IsPrintableChar(m.stateName.value[i])
    ensures FromBin(Encoding(m, 29).bytes) ==
              New(OrderBookStateMessage(m.messageType,
                                        Numeric(DropLowBytes(m.nanoseconds.value, 12)),
                                        Numeric(DropLowBytes(m.orderBookId.value, 12)),
                                        m.stateName))
  {
    EncodingLayout(m);
    var b := Encoding(m, 29).bytes;
    CharsOfAlphaBytes(b, 0, m.messageType.value);
    CharsOfAlphaBytes(b, 9, m.stateName.value);
    NumericOfLeadingBytes(b, 1, 4, m.nanoseconds.value);
    NumericOfLeadingBytes(b, 5, 4, m.orderBookId.value);
  }

  /**
   * For a valid message whose numbers fit their 4-byte widths, the round
   * trip returns the message exactly when both numbers are zero.
   */
  lemma RoundTripOnlyAtZero(m: OrderBookStateMessage)
    requires New(m).Ok?
    requires forall i :: 0 <= i < 20 ==> IsPrintableChar(m.stateName.value[i])
    requires NumericType.Validate(4, m.nanoseconds).Ok? && NumericType.Validate(4, m.orderBookId).Ok?
    ensures FromBin(Encoding(m, 29).bytes) == Ok(m) <==> m.nanoseconds.value == 0 && m.orderBookId.value == 0
  {
    DecodeOfEncoding(m);
    Pow256Monotone(4, 12);
    DropLowBytesOfSmall(m.nanoseconds.value, 12);
    DropLowBytesOfSmall(m.orderBookId.value, 12);
  }
}
