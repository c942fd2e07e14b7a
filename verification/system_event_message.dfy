/** System Event ('S'): the start or end of a trading day. Wire size 6 bytes. */
module SystemEvent {
  import opened Ints
  import opened DataFeedErrors
  import opened NumericType
  import opened AlphaType
  import opened BufferUtils
  import opened FieldWrites

  const SYSTEM_EVENT_MESSAGE_BYTE_COUNT: nat := 6

  const VALID_EVENT_CODE_VALUES: seq<char> := ['O', 'C']

  const MESSAGE_TYPE_BYTE_OFFSET: nat := 0
  const NANOSECONDS_BYTE_OFFSET: nat := 1
  const EVENT_CODE_BYTE_OFFSET: nat := 5

  const MESSAGE_TYPE_LENGTH: nat := 1
  const NANOSECONDS_LENGTH: nat := 4
  const EVENT_CODE_LENGTH: nat := 1

  datatype SystemEventMessage = SystemEventMessage(
    messageType: Alpha1,
    nanoseconds: Numeric,
    eventCode: Alpha1)

  /** The message a `new` call accepts: tag 'S' and an event code of 'O' or 'C'. */
  ghost predicate Valid(m: SystemEventMessage) {
    m.messageType.value == ['S'] && m.eventCode.value[0] in {'O', 'C'}
  }

  /** `validate_fields`: the tag first, then the event code. */
  function ValidateFields(m: SystemEventMessage): (r: Result<()>)
    ensures r.Ok? <==> Valid(m)
    ensures m.messageType.value != ['S'] ==> r == Err(InvalidMessageType('S', m.messageType.value[0]))
    ensures m.messageType.value == ['S'] && !Valid(m) ==> r == Err(InvalidEventCodeValue(m.eventCode.value[0]))
  {
    if m.messageType.value != ['S'] then
      Err(InvalidMessageType('S', m.messageType.value[0]))
    else if m.eventCode.value[0] !in VALID_EVENT_CODE_VALUES then
      Err(InvalidEventCodeValue(m.eventCode.value[0]))
    else
      Ok(())
  }

  /** `SystemEventMessage::new`: the fields as given, if they validate. */
  function New(m: SystemEventMessage): (r: Result<SystemEventMessage>)
    ensures r.Ok? <==> Valid(m)
    ensures r.Ok? ==> r.value == m
    ensures r.Err? ==> r.error == ValidateFields(m).error
  {
    var _ :- ValidateFields(m);
    Ok(m)
  }

  /** The message whose fields are the given bytes, read at the field offsets. */
  function Decoded(data: seq<u8>): SystemEventMessage
    requires |data| == SYSTEM_EVENT_MESSAGE_BYTE_COUNT
  {
    SystemEventMessage(
      Alpha(Chars(data, MESSAGE_TYPE_BYTE_OFFSET, MESSAGE_TYPE_LENGTH)),
      NumericAt(data, NANOSECONDS_BYTE_OFFSET, NANOSECONDS_LENGTH).value,
      Alpha(Chars(data, EVENT_CODE_BYTE_OFFSET, EVENT_CODE_LENGTH)))
  }

  /**
   * `from_bin`: a buffer of the wrong size is refused; the text fields are
   * read in order, and the first unprintable byte among them is reported;
   * then `new` validates what was read.
   */
  function FromBin(data: seq<u8>): (r: Result<SystemEventMessage>)
    ensures |data| != 6 ==> r == Err(InvalidMessageSize(6, |data|))
    ensures |data| == 6 && !IsPrintable(data[0]) ==> r == Err(NonISO88591Value(ByteToChar(data[0])))
    ensures |data| == 6 && IsPrintable(data[0]) && !IsPrintable(data[5]) ==>
              r == Err(NonISO88591Value(ByteToChar(data[5])))
    ensures |data| == 6 && IsPrintable(data[0]) && IsPrintable(data[5]) ==> r == New(Decoded(data))
    ensures r.Ok? <==> |data| == 6 && data[0] == 'S' as u8 && (data[5] == 'O' as u8 || data[5] == 'C' as u8)
    ensures r.Ok? ==> r.value == Decoded(data)
  {
    if |data| != SYSTEM_EVENT_MESSAGE_BYTE_COUNT then
      Err(InvalidMessageSize(SYSTEM_EVENT_MESSAGE_BYTE_COUNT, |data|))
    else
      var messageType :- AlphaAt(data, MESSAGE_TYPE_BYTE_OFFSET, MESSAGE_TYPE_LENGTH);
      // a width of 4 is valid, so this read cannot fail
      var nanoseconds := NumericAt(data, NANOSECONDS_BYTE_OFFSET, NANOSECONDS_LENGTH).value;
      var eventCode :- AlphaAt(data, EVENT_CODE_BYTE_OFFSET, EVENT_CODE_LENGTH);
      New(SystemEventMessage(messageType, nanoseconds, eventCode))
  }

  /** The writes of `to_bin`, in order; the timestamp is written as all 16 bytes of its `u128`. */
  function Writes(m: SystemEventMessage): seq<FieldWrite> {
    [ AlphaWrite(MESSAGE_TYPE_BYTE_OFFSET, m.messageType.value),
      NumWrite(NANOSECONDS_BYTE_OFFSET, U128ToBeBytes(m.nanoseconds.value)),
      AlphaWrite(EVENT_CODE_BYTE_OFFSET, m.eventCode.value) ]
  }

  /**
   * What `to_bin::<size>` does. The 16-byte timestamp written at offset 1
   * runs past the 6-byte buffer, so encoding at the right size always panics.
   */
  function Encoding(m: SystemEventMessage, size: nat): (r: ToBinResult)
    ensures size != 6 ==> r == Rejected(InvalidMessageSize(6, size))
    ensures size == 6 ==> r == Panicked
  {
    if size != SYSTEM_EVENT_MESSAGE_BYTE_COUNT then
      Rejected(InvalidMessageSize(SYSTEM_EVENT_MESSAGE_BYTE_COUNT, size))
    else
      assert End(Writes(m)[1]) > size;
      Encode(size, Writes(m))
  }

  /** `to_bin`: check the size, then perform the writes on a zero-filled buffer. */
  method ToBin(m: SystemEventMessage, size: nat) returns (r: ToBinResult)
    ensures r == Encoding(m, size)
  {
    if size != SYSTEM_EVENT_MESSAGE_BYTE_COUNT {
      return Rejected(InvalidMessageSize(SYSTEM_EVENT_MESSAGE_BYTE_COUNT, size));
    }
    r := Serialize(size, Writes(m));
  }

  /** The timestamp is not validated: any bytes there decode. */
  lemma TimestampUnchecked(data: seq<u8>, nanos: seq<u8>)
    requires |data| == 6 && |nanos| == 4
    ensures FromBin(data[..1] + nanos + data[5..]).Ok? == FromBin(data).Ok?
  {
    var other := data[..1] + nanos + data[5..];
    assert other[0] == data[0] && other[5] == data[5];
  }
}
