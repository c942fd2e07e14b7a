/** Order Delete ('D'): an order is removed from the book. Wire size 18 bytes. */
module OrderDelete {
  import opened Ints
  import opened DataFeedErrors
  import opened NumericType
  import opened AlphaType
  import opened BufferUtils
  import opened FieldWrites

  const ORDER_DELETE_MESSAGE_BYTE_COUNT: nat := 18

  const VALID_SIDE_VALUES: seq<char> := ['B', 'S']

  const MESSAGE_TYPE_BYTE_OFFSET: nat := 0
  const NANOSECONDS_BYTE_OFFSET: nat := 1
  const ORDER_ID_BYTE_OFFSET: nat := 5
  const ORDER_BOOK_ID_BYTE_OFFSET: nat := 13
  const SIDE_BYTE_OFFSET: nat := 17

  const MESSAGE_TYPE_LENGTH: nat := 1
  const NANOSECONDS_LENGTH: nat := 4
  const ORDER_ID_LENGTH: nat := 8
  const ORDER_BOOK_ID_LENGTH: nat := 4
  const SIDE_LENGTH: nat := 1

  datatype OrderDeleteMessage = OrderDeleteMessage(
    messageType: Alpha1,
    nanoseconds: Numeric,
    orderId: Numeric,
    orderBookId: Numeric,
    side: Alpha1)

  /** The message a `new` call accepts: tag 'D' and side 'B' or 'S'. */
  ghost predicate Valid(m: OrderDeleteMessage) {
    m.messageType.value[0] == 'D' && m.side.value[0] in {'B', 'S'}
  }

  /** `validate_fields`: the tag first, then the side. */
  function ValidateFields(m: OrderDeleteMessage): (r: Result<()>)
    ensures r.Ok? <==> Valid(m)
    ensures m.messageType.value[0] != 'D' ==> r == Err(InvalidMessageType('D', m.messageType.value[0]))
    ensures m.messageType.value[0] == 'D' && !Valid(m) ==> r == Err(InvalidSideValue(m.side.value[0]))
  {
    if m.messageType.value != ['D'] then
      Err(InvalidMessageType('D', m.messageType.value[0]))
    else if m.side.value[0] !in VALID_SIDE_VALUES then
      Err(InvalidSideValue(m.side.value[0]))
    else
      Ok(())
  }

  /** `OrderDeleteMessage::new`: the fields as given, if they validate. */
  function New(m: OrderDeleteMessage): (r: Result<OrderDeleteMessage>)
    ensures r.Ok? <==> Valid(m)
    ensures r.Ok? ==> r.value == m
    ensures r.Err? ==> r.error == ValidateFields(m).error
  {
    var _ :- ValidateFields(m);
    Ok(m)
  }

  /** The message whose fields are the given bytes, read at the field offsets. */
  function Decoded(data: seq<u8>): OrderDeleteMessage
    requires |data| == ORDER_DELETE_MESSAGE_BYTE_COUNT
  {
    OrderDeleteMessage(
      Alpha(Chars(data, MESSAGE_TYPE_BYTE_OFFSET, MESSAGE_TYPE_LENGTH)),
      NumericAt(data, NANOSECONDS_BYTE_OFFSET, NANOSECONDS_LENGTH).value,
      NumericAt(data, ORDER_ID_BYTE_OFFSET, ORDER_ID_LENGTH).value,
      NumericAt(data, ORDER_BOOK_ID_BYTE_OFFSET, ORDER_BOOK_ID_LENGTH).value,
      Alpha(Chars(data, SIDE_BYTE_OFFSET, SIDE_LENGTH)))
  }

  /** `from_bin`: the size, then the text fields in order, then `new` on what was read. */
  function FromBin(data: seq<u8>): (r: Result<OrderDeleteMessage>)
    ensures |data| != 18 ==> r == Err(InvalidMessageSize(18, |data|))
    ensures |data| == 18 && !IsPrintable(data[0]) ==> r == Err(NonISO88591Value(ByteToChar(data[0])))
    ensures |data| == 18 && IsPrintable(data[0]) && !IsPrintable(data[17]) ==>
              r == Err(NonISO88591Value(ByteToChar(data[17])))
    ensures |data| == 18 && IsPrintable(data[0]) && IsPrintable(data[17]) ==> r == New(Decoded(data))
    ensures r.Ok? <==> |data| == 18 && data[0] == 'D' as u8 && (data[17] == 'B' as u8 || data[17] == 'S' as u8)
    ensures r.Ok? ==> r.value == Decoded(data)
  {
    if |data| != ORDER_DELETE_MESSAGE_BYTE_COUNT then
      Err(InvalidMessageSize(ORDER_DELETE_MESSAGE_BYTE_COUNT, |data|))
    else
      var messageType :- AlphaAt(data, MESSAGE_TYPE_BYTE_OFFSET, MESSAGE_TYPE_LENGTH);
      // widths of 4 and 8 are valid, so these reads cannot fail
      var nanoseconds := NumericAt(data, NANOSECONDS_BYTE_OFFSET, NANOSECONDS_LENGTH).value;
      var orderId := NumericAt(data, ORDER_ID_BYTE_OFFSET, ORDER_ID_LENGTH).value;
      var orderBookId := NumericAt(data, ORDER_BOOK_ID_BYTE_OFFSET, ORDER_BOOK_ID_LENGTH).value;
      var side :- AlphaAt(data, SIDE_BYTE_OFFSET, SIDE_LENGTH);
      New(OrderDeleteMessage(messageType, nanoseconds, orderId, orderBookId, side))
  }

  /** The writes of `to_bin`, in order; each numeric field is written as all 16 bytes of its `u128`. */
  function Writes(m: OrderDeleteMessage): seq<FieldWrite> {
    [ AlphaWrite(MESSAGE_TYPE_BYTE_OFFSET, m.messageType.value),
      NumWrite(NANOSECONDS_BYTE_OFFSET, U128ToBeBytes(m.nanoseconds.value)),
      NumWrite(ORDER_ID_BYTE_OFFSET, U128ToBeBytes(m.orderId.value)),
      NumWrite(ORDER_BOOK_ID_BYTE_OFFSET, U128ToBeBytes(m.orderBookId.value)),
      AlphaWrite(SIDE_BYTE_OFFSET, m.side.value) ]
  }

  /**
   * What `to_bin::<size>` does. The 16-byte order id written at offset 5
   * runs past the 18-byte buffer, so encoding at the right size always panics.
   */
  function Encoding(m: OrderDeleteMessage, size: nat): (r: ToBinResult)
    ensures size != 18 ==> r == Rejected(InvalidMessageSize(18, size))
    ensures size == 18 ==> r == Panicked
  {
    if size != ORDER_DELETE_MESSAGE_BYTE_COUNT then
      Rejected(InvalidMessageSize(ORDER_DELETE_MESSAGE_BYTE_COUNT, size))
    else
      assert End(Writes(m)[2]) > size;
      Encode(size, Writes(m))
  }

  /** `to_bin`: check the size, then perform the writes on a zero-filled buffer. */
  method ToBin(m: OrderDeleteMessage, size: nat) returns (r: ToBinResult)
    ensures r == Encoding(m, size)
  {
    if size != ORDER_DELETE_MESSAGE_BYTE_COUNT {
      return Rejected(InvalidMessageSize(ORDER_DELETE_MESSAGE_BYTE_COUNT, size));
    }
    r := Serialize(size, Writes(m));
  }
}
