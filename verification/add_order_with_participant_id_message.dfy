/** Add Order with Participant Id ('F'): a new order enters the book. Wire size 44 bytes. */
module AddOrderWithParticipantId {
  import opened Ints
  import opened DataFeedErrors
  import opened NumericType
  import opened AlphaType
  import opened PriceType
  import opened BufferUtils
  import opened FieldWrites

  const ADD_ORDER_WITH_PARTICIPANT_ID_MESSAGE_BYTE_COUNT: nat := 44

  const VALID_SIDE_VALUES: seq<char> := ['B', 'S']
  const VALID_LOT_TYPE_VALUES: seq<int> := [0, 1, 2, 3, 4]
  /** The non-empty combinations of the flags 4, 8, 32 and 8192, in the order of the table. */
  const VALID_EXCHANGE_ORDER_TYPE_VALUES: seq<int> :=
    [4, 8, 32, 8192, 12, 36, 8196, 40, 8200, 8224, 44, 8204, 8228, 8232, 8236]

  const MESSAGE_TYPE_BYTE_OFFSET: nat := 0
  const NANOSECONDS_BYTE_OFFSET: nat := 1
  const ORDER_ID_BYTE_OFFSET: nat := 5
  const ORDER_BOOK_ID_BYTE_OFFSET: nat := 13
  const SIDE_BYTE_OFFSET: nat := 17
  const ORDER_BOOK_POSITION_BYTE_OFFSET: nat := 18
  const QUANTITY_BYTE_OFFSET: nat := 22
  const PRICE_BYTE_OFFSET: nat := 30
  const EXCHANGE_ORDER_TYPE_BYTE_OFFSET: nat := 34
  const LOT_TYPE_BYTE_OFFSET: nat := 36
  const PARTICIPANT_ID_BYTE_OFFSET: nat := 37

  const MESSAGE_TYPE_LENGTH: nat := 1
  const NANOSECONDS_LENGTH: nat := 4
  const ORDER_ID_LENGTH: nat := 8
  const ORDER_BOOK_ID_LENGTH: nat := 4
  const SIDE_LENGTH: nat := 1
  const ORDER_BOOK_POSITION_LENGTH: nat := 4
  const QUANTITY_LENGTH: nat := 8
  const EXCHANGE_ORDER_TYPE_LENGTH: nat := 2
  const LOT_TYPE_LENGTH: nat := 1
  const PARTICIPANT_ID_LENGTH: nat := 7

  datatype AddOrderWithParticipantIdMessage = AddOrderWithParticipantIdMessage(
    messageType: Alpha1,
    nanoseconds: Numeric,
    orderId: Numeric,
    orderBookId: Numeric,
    side: Alpha1,
    orderBookPosition: Numeric,
    quantity: Numeric,
    price: Price,
    exchangeOrderType: Numeric,
    lotType: Numeric,
    participantId: Alpha7)

  /**
   * The message a `new` call accepts. The tag test is inverted: every tag
   * except 'F' passes. The order type is compared after truncation to 16
   * bits and the lot type after truncation to 8 bits.
   */
  ghost predicate Valid(m: AddOrderWithParticipantIdMessage) {
    && m.messageType.value[0] != 'F'
    && m.side.value[0] in {'B', 'S'}
    && m.exchangeOrderType.value % 0x1_0000 in VALID_EXCHANGE_ORDER_TYPE_VALUES
    && m.lotType.value % 0x100 in VALID_LOT_TYPE_VALUES
  }

  /** `validate_fields`: tag, side, exchange order type, lot type; the first failure is reported. */
  function ValidateFields(m: AddOrderWithParticipantIdMessage): (r: Result<()>)
    ensures r.Ok? <==> Valid(m)
    ensures m.messageType.value[0] == 'F' ==> r == Err(InvalidMessageType('F', 'F'))
    ensures m.messageType.value[0] != 'F' && m.side.value[0] !in {'B', 'S'} ==>
              r == Err(InvalidSideValue(m.side.value[0]))
    ensures m.messageType.value[0] != 'F' && m.side.value[0] in {'B', 'S'} &&
            m.exchangeOrderType.value % 0x1_0000 !in VALID_EXCHANGE_ORDER_TYPE_VALUES ==>
              r == Err(InvalidExchangeOrderTypeValue(m.exchangeOrderType.value))
    ensures m.messageType.value[0] != 'F' && m.side.value[0] in {'B', 'S'} &&
            m.exchangeOrderType.value % 0x1_0000 in VALID_EXCHANGE_ORDER_TYPE_VALUES &&
            m.lotType.value % 0x100 !in VALID_LOT_TYPE_VALUES ==>
              r == Err(InvalidLotTypeValue(m.lotType.value))
  {
    if m.messageType.value == ['F'] then
      Err(InvalidMessageType('F', m.messageType.value[0]))
    else if m.side.value[0] !in VALID_SIDE_VALUES then
      Err(InvalidSideValue(m.side.value[0]))
    else if m.exchangeOrderType.value % 0x1_0000 !in VALID_EXCHANGE_ORDER_TYPE_VALUES then
      Err(InvalidExchangeOrderTypeValue(m.exchangeOrderType.value))
    else if m.lotType.value % 0x100 !in VALID_LOT_TYPE_VALUES then
      Err(InvalidLotTypeValue(m.lotType.value))
    else
      Ok(())
  }

  /** `AddOrderWithParticipantIdMessage::new`: the fields as given, if they validate. */
  function New(m: AddOrderWithParticipantIdMessage): (r: Result<AddOrderWithParticipantIdMessage>)
    ensures r.Ok? <==> Valid(m)
    ensures r.Ok? ==> r.value == m
    ensures r.Err? ==> r.error == ValidateFields(m).error
  {
    var _ :- ValidateFields(m);
    Ok(m)
  }

  /** The message whose fields are the given bytes, read at the field offsets. */
  function Decoded(data: seq<u8>): AddOrderWithParticipantIdMessage
    requires |data| == ADD_ORDER_WITH_PARTICIPANT_ID_MESSAGE_BYTE_COUNT
  {
    AddOrderWithParticipantIdMessage(
      Alpha(Chars(data, MESSAGE_TYPE_BYTE_OFFSET, MESSAGE_TYPE_LENGTH)),
      NumericAt(data, NANOSECONDS_BYTE_OFFSET, NANOSECONDS_LENGTH).value,
      NumericAt(data, ORDER_ID_BYTE_OFFSET, ORDER_ID_LENGTH).value,
      NumericAt(data, ORDER_BOOK_ID_BYTE_OFFSET, ORDER_BOOK_ID_LENGTH).value,
      Alpha(Chars(data, SIDE_BYTE_OFFSET, SIDE_LENGTH)),
      NumericAt(data, ORDER_BOOK_POSITION_BYTE_OFFSET, ORDER_BOOK_POSITION_LENGTH).value,
      NumericAt(data, QUANTITY_BYTE_OFFSET, QUANTITY_LENGTH).value,
      ReadPrice(data, PRICE_BYTE_OFFSET),
      NumericAt(data, EXCHANGE_ORDER_TYPE_BYTE_OFFSET, EXCHANGE_ORDER_TYPE_LENGTH).value,
      NumericAt(data, LOT_TYPE_BYTE_OFFSET, LOT_TYPE_LENGTH).value,
      Alpha(Chars(data, PARTICIPANT_ID_BYTE_OFFSET, PARTICIPANT_ID_LENGTH)))
  }

  /**
   * `from_bin`: the size, then the text fields in order (tag, side,
   * participant id), then `new` on what was read. Decoded order and lot
   * types fit 16 and 8 bits, so the truncating comparisons see them whole.
   */
  function FromBin(data: seq<u8>): (r: Result<AddOrderWithParticipantIdMessage>)
    ensures |data| != 44 ==> r == Err(InvalidMessageSize(44, |data|))
    ensures |data| == 44 && !IsPrintable(data[0]) ==> r == Err(NonISO88591Value(ByteToChar(data[0])))
    ensures |data| == 44 && IsPrintable(data[0]) && !IsPrintable(data[17]) ==>
              r == Err(NonISO88591Value(ByteToChar(data[17])))
    ensures |data| == 44 && IsPrintable(data[0]) && IsPrintable(data[17]) && !PrintableRange(data, 37, 7) ==>
              exists k :: FirstUnprintable(data, 37, 7, k) && r == Err(NonISO88591Value(ByteToChar(data[k])))
    ensures |data| == 44 && IsPrintable(data[0]) && IsPrintable(data[17]) && PrintableRange(data, 37, 7) ==>
              r == New(Decoded(data))
    ensures r.Ok? ==> r.value == Decoded(data)
  {
    if |data| != ADD_ORDER_WITH_PARTICIPANT_ID_MESSAGE_BYTE_COUNT then
      Err(InvalidMessageSize(ADD_ORDER_WITH_PARTICIPANT_ID_MESSAGE_BYTE_COUNT, |data|))
    else
      var messageType :- AlphaAt(data, MESSAGE_TYPE_BYTE_OFFSET, MESSAGE_TYPE_LENGTH);
      // widths of 1, 2, 4 and 8 are valid, so the numeric reads cannot fail
      var nanoseconds := NumericAt(data, NANOSECONDS_BYTE_OFFSET, NANOSECONDS_LENGTH).value;
      var orderId := NumericAt(data, ORDER_ID_BYTE_OFFSET, ORDER_ID_LENGTH).value;
      var orderBookId := NumericAt(data, ORDER_BOOK_ID_BYTE_OFFSET, ORDER_BOOK_ID_LENGTH).value;
      var side :- AlphaAt(data, SIDE_BYTE_OFFSET, SIDE_LENGTH);
      var orderBookPosition := NumericAt(data, ORDER_BOOK_POSITION_BYTE_OFFSET, ORDER_BOOK_POSITION_LENGTH).value;
      var quantity := NumericAt(data, QUANTITY_BYTE_OFFSET, QUANTITY_LENGTH).value;
      var price := ReadPrice(data, PRICE_BYTE_OFFSET);
      var exchangeOrderType := NumericAt(data, EXCHANGE_ORDER_TYPE_BYTE_OFFSET, EXCHANGE_ORDER_TYPE_LENGTH).value;
      var lotType := NumericAt(data, LOT_TYPE_BYTE_OFFSET, LOT_TYPE_LENGTH).value;
      var participantId :- AlphaAt(data, PARTICIPANT_ID_BYTE_OFFSET, PARTICIPANT_ID_LENGTH);
      New(AddOrderWithParticipantIdMessage(messageType, nanoseconds, orderId, orderBookId, side,
                                           orderBookPosition, quantity, price, exchangeOrderType,
                                           lotType, participantId))
  }

  /**
   * The writes of `to_bin`, in order: numeric fields as all 16 bytes of
   * their `u128`, the price as the 4 bytes of its `i32`.
   */
  function Writes(m: AddOrderWithParticipantIdMessage): seq<FieldWrite> {
    [ AlphaWrite(MESSAGE_TYPE_BYTE_OFFSET, m.messageType.value),
      NumWrite(NANOSECONDS_BYTE_OFFSET, U128ToBeBytes(m.nanoseconds.value)),
      NumWrite(ORDER_ID_BYTE_OFFSET, U128ToBeBytes(m.orderId.value)),
      NumWrite(ORDER_BOOK_ID_BYTE_OFFSET, U128ToBeBytes(m.orderBookId.value)),
      AlphaWrite(SIDE_BYTE_OFFSET, m.side.value),
      NumWrite(ORDER_BOOK_POSITION_BYTE_OFFSET, U128ToBeBytes(m.orderBookPosition.value)),
      NumWrite(QUANTITY_BYTE_OFFSET, U128ToBeBytes(m.quantity.value)),
      NumWrite(PRICE_BYTE_OFFSET, I32ToBeBytes(m.price.value)),
      NumWrite(EXCHANGE_ORDER_TYPE_BYTE_OFFSET, U128ToBeBytes(m.exchangeOrderType.value)),
      NumWrite(LOT_TYPE_BYTE_OFFSET, U128ToBeBytes(m.lotType.value)),
      AlphaWrite(PARTICIPANT_ID_BYTE_OFFSET, m.participantId.value) ]
  }

  /**
   * What `to_bin::<size>` does. The 16-byte exchange order type written at
   * offset 34 runs past the 44-byte buffer, so encoding at the right size
   * always panics.
   */
  function Encoding(m: AddOrderWithParticipantIdMessage, size: nat): (r: ToBinResult)
    ensures size != 44 ==> r == Rejected(InvalidMessageSize(44, size))
    ensures size == 44 ==> r == Panicked
  {
    if size != ADD_ORDER_WITH_PARTICIPANT_ID_MESSAGE_BYTE_COUNT then
      Rejected(InvalidMessageSize(ADD_ORDER_WITH_PARTICIPANT_ID_MESSAGE_BYTE_COUNT, size))
    else
      assert End(Writes(m)[8]) > size;
      Encode(size, Writes(m))
  }

  /** `to_bin`: check the size, then perform the writes on a zero-filled buffer. */
  method ToBin(m: AddOrderWithParticipantIdMessage, size: nat) returns (r: ToBinResult)
    ensures r == Encoding(m, size)
  {
    if size != ADD_ORDER_WITH_PARTICIPANT_ID_MESSAGE_BYTE_COUNT {
      return Rejected(InvalidMessageSize(ADD_ORDER_WITH_PARTICIPANT_ID_MESSAGE_BYTE_COUNT, size));
    }
    r := Serialize(size, Writes(m));
  }

  /**
   * The bitwise OR of the chosen exchange order type flags 4, 8, 32 and
   * 8192; the flags are distinct bits, so the OR is their sum.
   */
  function FlagUnion(a: bool, b: bool, c: bool, d: bool): nat {
    (if a then 4 else 0) + (if b then 8 else 0) + (if c then 32 else 0) + (if d then 8192 else 0)
  }

  /** The order type table holds exactly the unions of at least one of the four flags. */
  lemma ExchangeOrderTypesAreFlagUnions(v: int)
    ensures v in VALID_EXCHANGE_ORDER_TYPE_VALUES <==>
              exists a, b, c, d :: (a || b || c || d) && v == FlagUnion(a, b, c, d)
  {
    if v in VALID_EXCHANGE_ORDER_TYPE_VALUES {
      var d := v >= 8192;
      var low := if d then v - 8192 else v;
      var c := low >= 32;
      var b := (if c then low - 32 else low) >= 8;
      var a := (if c then low - 32 else low) % 8 == 4;
      assert (a || b || c || d) && v == FlagUnion(a, b, c, d);
    }
    if exists a, b, c, d :: (a || b || c || d) && v == FlagUnion(a, b, c, d) {
      var a, b, c, d :| (a || b || c || d) && v == FlagUnion(a, b, c, d);
      assert v in VALID_EXCHANGE_ORDER_TYPE_VALUES;
    }
  }

  /**
   * Only the low 16 bits of the order type are compared: 0x1_0004 is not a
   * 2-byte `Numeric`, yet a message carrying it passes as if it were 4.
   */
  lemma WideExchangeOrderTypeAccepted(m: AddOrderWithParticipantIdMessage)
    requires Valid(m.(exchangeOrderType := Numeric(4)))
    ensures NumericType.Validate(2, Numeric(0x1_0004)).Err?
    ensures New(m.(exchangeOrderType := Numeric(0x1_0004))).Ok?
  {
    Pow256Values();
  }

  /**
   * A buffer of the right size decodes exactly when the tag byte is
   * printable and not 'F', the side byte is 'B' or 'S', the participant id
   * is printable, and the order type and lot type read whole from their 2
   * and 1 bytes are in their tables.
   */
  lemma FromBinAccepts(data: seq<u8>)
    ensures FromBin(data).Ok? <==> && |data| == 44
                                   && IsPrintable(data[0]) && data[0] != 'F' as u8
                                   && (data[17] == 'B' as u8 || data[17] == 'S' as u8)
                                   && PrintableRange(data, 37, 7)
                                   && BigEndian(data[34..36]) in VALID_EXCHANGE_ORDER_TYPE_VALUES
                                   && BigEndian(data[36..37]) in VALID_LOT_TYPE_VALUES
  {
    if |data| == 44 && IsPrintable(data[0]) && IsPrintable(data[17]) && PrintableRange(data, 37, 7) {
      DecodedValid(data);
    }
  }

  /** What `validate_fields` checks of a decoded buffer, stated on its bytes. */
  lemma DecodedValid(data: seq<u8>)
    requires |data| == 44
    ensures Valid(Decoded(data)) <==> && data[0] != 'F' as u8
                                      && (data[17] == 'B' as u8 || data[17] == 'S' as u8)
                                      && BigEndian(data[34..36]) in VALID_EXCHANGE_ORDER_TYPE_VALUES
                                      && BigEndian(data[36..37]) in VALID_LOT_TYPE_VALUES
  {
    Pow256Values();
    var m := Decoded(data);
    assert m.messageType.value[0] == ByteToChar(data[0]);
    assert m.side.value[0] == ByteToChar(data[17]);
    assert m.exchangeOrderType.value % 0x1_0000 == BigEndian(data[34..36]);
    assert m.lotType.value % 0x100 == BigEndian(data[36..37]);
  }

  /**
   * The tag test is inverted: a buffer tagged 'F', the tag the message is
   * named after, never decodes once its other text fields are printable.
   */
  lemma TagFNeverDecodes(data: seq<u8>)
    requires |data| == 44 && IsPrintable(data[17]) && PrintableRange(data, 37, 7)
    ensures FromBin(data[0 := 'F' as u8]) == Err(InvalidMessageType('F', 'F'))
  {
    var f := data[0 := 'F' as u8];
    assert PrintableRange(f, 37, 7) by {
      assert forall i :: 37 <= i < 44 ==> f[i] == data[i];
    }
    assert Decoded(f).messageType.value[0] == 'F';
  }
}
