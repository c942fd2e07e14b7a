/** Seconds ('T'): the whole-second part of the timestamps that follow it. Wire size 5 bytes. */
module Seconds {
  import opened Ints
  import opened DataFeedErrors
  import opened NumericType
  import opened AlphaType
  import opened BufferUtils
  import opened FieldWrites

  const SECONDS_MESSAGE_BYTE_COUNT: nat := 5

  const MESSAGE_TYPE_BYTE_OFFSET: nat := 0
  const SECOND_BYTE_OFFSET: nat := 1

  const MESSAGE_TYPE_LENGTH: nat := 1
  const SECOND_LENGTH: nat := 4

  datatype SecondsMessage = SecondsMessage(
    messageType: Alpha1,
    second: Numeric)

  /** `validate_fields`: only the tag is checked; the second is any value. */
  function ValidateFields(m: SecondsMessage): (r: Result<()>)
    ensures r.Ok? <==> m.messageType.value[0] == 'T'
    ensures r.Err? ==> r.error == InvalidMessageType('T', m.messageType.value[0])
  {
    if m.messageType.value != ['T'] then
      Err(InvalidMessageType('T', m.messageType.value[0]))
    else
      Ok(())
  }

  /** `SecondsMessage::new`: the fields as given, if they validate. */
  function New(m: SecondsMessage): (r: Result<SecondsMessage>)
    ensures r.Ok? <==> m.messageType.value[0] == 'T'
    ensures r.Ok? ==> r.value == m
    ensures r.Err? ==> r.error == ValidateFields(m).error
  {
    var _ :- ValidateFields(m);
    Ok(m)
  }

  /** The message whose fields are the given bytes, read at the field offsets. */
  function Decoded(data: seq<u8>): SecondsMessage
    requires |data| == SECONDS_MESSAGE_BYTE_COUNT
  {
    SecondsMessage(
      Alpha(Chars(data, MESSAGE_TYPE_BYTE_OFFSET, MESSAGE_TYPE_LENGTH)),
      NumericAt(data, SECOND_BYTE_OFFSET, SECOND_LENGTH).value)
  }

  /** `from_bin`: the size, then the tag byte, then `new` on what was read. */
  function FromBin(data: seq<u8>): (r: Result<SecondsMessage>)
    ensures |data| != 5 ==> r == Err(InvalidMessageSize(5, |data|))
    ensures |data| == 5 && !IsPrintable(data[0]) ==> r == Err(NonISO88591Value(ByteToChar(data[0])))
    ensures |data| == 5 && IsPrintable(data[0]) ==> r == New(Decoded(data))
    ensures r.Ok? <==> |data| == 5 && data[0] == 'T' as u8
    ensures r.Ok? ==> r.value == Decoded(data) && r.value.second.value == BigEndian(data[1..5])
  {
    if |data| != SECONDS_MESSAGE_BYTE_COUNT then
      Err(InvalidMessageSize(SECONDS_MESSAGE_BYTE_COUNT, |data|))
    else
      var messageType :- AlphaAt(data, MESSAGE_TYPE_BYTE_OFFSET, MESSAGE_TYPE_LENGTH);
      // a width of 4 is valid, so this read cannot fail
      var second := NumericAt(data, SECOND_BYTE_OFFSET, SECOND_LENGTH).value;
      New(SecondsMessage(messageType, second))
  }

  /** The writes of `to_bin`, in order; the second is written as all 16 bytes of its `u128`. */
  function Writes(m: SecondsMessage): seq<FieldWrite> {
    [ AlphaWrite(MESSAGE_TYPE_BYTE_OFFSET, m.messageType.value),
      NumWrite(SECOND_BYTE_OFFSET, U128ToBeBytes(m.second.value)) ]
  }

  /**
   * What `to_bin::<size>` does. The 16 bytes written at offset 1 run past
   * the 5-byte buffer, so encoding at the right size always panics.
   */
  function Encoding(m: SecondsMessage, size: nat): (r: ToBinResult)
    ensures size != 5 ==> r == Rejected(InvalidMessageSize(5, size))
    ensures size == 5 ==> r == Panicked
  {
    if size != SECONDS_MESSAGE_BYTE_COUNT then
      Rejected(InvalidMessageSize(SECONDS_MESSAGE_BYTE_COUNT, size))
    else
      assert End(Writes(m)[1]) > size;
      Encode(size, Writes(m))
  }

  /** `to_bin`: check the size, then perform the writes on a zero-filled buffer. */
  method ToBin(m: SecondsMessage, size: nat) returns (r: ToBinResult)
    ensures r == Encoding(m, size)
  {
    if size != SECONDS_MESSAGE_BYTE_COUNT {
      return Rejected(InvalidMessageSize(SECONDS_MESSAGE_BYTE_COUNT, size));
    }
    r := Serialize(size, Writes(m));
  }
}
