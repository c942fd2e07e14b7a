# ASX ITCH message codec, modelled in Dafny

This project models the core of a Rust codec for the ASX ITCH market-data
feed. The feed is a stream of fixed-size binary records. Each record starts
with a one-character tag, its numbers are big-endian and its text fields
are fixed-width.

The model covers eleven message types: Seconds, System Event, Order Book
State, Tick Size Table Entry, Order Delete, Order Executed, Order Executed
With Price, Trade, Add Order With Participant Id, Equilibrium Price Update
and Combination Order Book Directory. For each one it models:

- `new`: validate the fields, then build the message.
- `validate_fields`: the message's own checks, in source order. The first
  failure is the one reported.
- `from_bin`: check the size, read the fields at their offsets, then call `new`.
- `to_bin`: check the size, then write every field into a zero-filled
  buffer, in source order.

It also models the three field types (`Numeric<SIZE>`, `Alpha<SIZE>` and
`Price`) and the buffer helpers `write_num`, `write_alpha`, `read_numeric`,
`read_price` and `read_alpha`.

Modelling choices:

- The Rust integer types become ranges of `int` (`u8`, `u128`, `i32`).
- The const generic `SIZE` becomes an explicit width parameter.
- Casts such as `as u8` and `as u16` are written out as `% 0x100` and `% 0x1_0000`.
- A slice index past the end of a buffer panics in Rust. The model makes
  this explicit as the `Panicked` outcome of `ToBinResult`.
- `to_bin` writes each field through its own `write_num` or `write_alpha`
  call. The model lists these calls as a sequence of `FieldWrite`s, per
  message. One method, `FieldWrites.Serialize`, performs them on an array
  and is proved equal to the specification function `FieldWrites.Encode`.
- `read_numeric` and `read_alpha` keep their loops as methods
  (`BufferUtils.ReadNumeric` and `BufferUtils.ReadAlpha`). Each is proved
  equal to a function that the decoders use.

The model follows the code as written. Where the code behaves differently
from the feed's documented intent, the code's behaviour is what is modelled
and proved:

- **16-byte numeric writes.** `to_bin` writes every numeric field as all 16
  bytes of its `u128`, not as the field's width. In the encoded buffer, each
  such write is partly overwritten by the next field.
  - If a 16-byte write is the last one, or there is no room after it, the
    write runs past the buffer and `to_bin` panics at the correct size. This
    happens for Seconds, System Event, Order Delete, Add Order, Equilibrium
    Price Update and Combination Order Book Directory.
  - For the other five types, `to_bin` succeeds, but each numeric field
    keeps only the leading bytes of its value. The model proves that
    decoding gives the message back only when those fields are zero
    (`RoundTripOnlyAtZero`).
  - So the documented round trip `decode(encode(m)) == m` does not hold, and
    the model does not claim it.
- **12-byte match id.** The match id is declared as a 12-byte `Numeric`, and
  12 is not a width `read_numeric` accepts. So `from_bin` never succeeds for
  Order Executed, Order Executed With Price or Trade.
- **Inverted Add Order tag check.** Add Order's `validate_fields` rejects
  the tag `'F'` instead of requiring it.
- **Two character checks.** `read_alpha` accepts only bytes 0x20 to 0x7F.
  `Alpha::validate` accepts any character whose value, truncated to 16 bits,
  is at most 0xFF. So it accepts U+10041, which truncates to 0x41. Both
  checks are modelled as written.

## Model

Each message module also has `Writes`, the list of `write_num` / `write_alpha`
calls of its `to_bin`, and `Decoded`, the fields its `from_bin` reads at their
offsets. They have no rows of their own: the `FromBin`, `Encoding`, `ToBin`,
`EncodingLayout` and `DecodeOfEncoding` rows of each message state what they
do. `Ints.Pow256Monotone` and the `Splice` lemmas are proof helpers and
model no source line.

| member | source | states |
|---|---|---|
| NumericType.Validate | src/models/data_types/numeric.rs:22-53 | a value passes exactly when the width is one of 1, 2, 4, 8, 16 and the value is below 256^width; an out-of-range value reports InvalidNumericSize(width), an unsupported width the fixed Other message |
| NumericType.New | src/models/data_types/numeric.rs:10-18 | construction succeeds exactly when validation does, keeps the value unchanged, and otherwise returns validation's error |
| NumericType.NewBoundaries | src/models/data_types/numeric.rs:22-53 | the limits of each width: 255 fits 1 byte and 256 does not, 65535 fits 2 bytes and 65536 does not, u128::MAX fits 16 bytes, widths 3 and 12 are refused |
| NumericType.ValidSizesAvoidOther | src/models/data_types/numeric.rs:3 | the catch-all Other error arises exactly for widths outside VALID_NUMERIC_SIZES |
| AlphaType.ValidateChars | src/models/data_types/alpha.rs:20-28 | the scan accepts exactly when every character, truncated to 16 bits, is at most 0xFF, and otherwise reports the leftmost offending character |
| AlphaType.Validate | src/models/data_types/alpha.rs:20-28 | an Alpha is valid exactly when each character truncated to u16 is Latin-1; the error names the first character that is not |
| AlphaType.New | src/models/data_types/alpha.rs:8-16 | construction succeeds exactly when every character passes the Latin-1 test, keeps the characters, and otherwise returns validation's error |
| AlphaType.Latin1Accepted | src/models/data_types/alpha.rs:20-28 | every character up to U+00FF is accepted |
| AlphaType.TruncationAcceptsAstral | src/models/data_types/alpha.rs:22 | the u16 cast lets U+10041 through (it truncates to 0x41) while U+0100 is refused |
| AlphaType.FirstOffenderReported | src/models/data_types/alpha.rs:21-25 | with several offending characters the first one is the one reported |
| PriceType.Validate | src/models/data_types/price.rs:20-22 | price validation never fails |
| PriceType.New | src/models/data_types/price.rs:8-16 | every i32, negative values included, makes a Price holding that same value |
| BufferUtils.ByteToChar | src/util/buffer_utils.rs:72-75 | a byte read as a character has the byte's code point |
| BufferUtils.CharToByte | src/util/buffer_utils.rs:20 | `as u8` keeps the code of any character up to U+00FF and truncates the rest to their low byte |
| BufferUtils.AlphaBytes | src/util/buffer_utils.rs:19-21 | write_alpha stores exactly one byte per character |
| BufferUtils.BigEndian | src/util/buffer_utils.rs:35-38 | the value the shift-and-or loop accumulates over n bytes is below 256^n, so it never overflows the u128 for widths up to 16 |
| BufferUtils.ToBigEndian | src/models/messages/order_book_state_message.rs:49 | the big-endian form of a value has exactly the requested number of bytes; BigEndianOfToBigEndian reads it back |
| BufferUtils.U128ToBeBytes | src/models/messages/order_book_state_message.rs:49 | `u128::to_be_bytes` is always 16 bytes, whatever the width of the field it is written for |
| BufferUtils.I32ToBeBytes | src/models/messages/tick_size_table_entry_message.rs:60 | `i32::to_be_bytes` is 4 bytes, the two's-complement form; PriceRoundTrip reads it back as the same i32 |
| BufferUtils.WriteNum | src/util/buffer_utils.rs:4-10 | panics exactly when the slice offset..offset+len runs past the buffer, leaving it untouched; otherwise the bytes replace exactly that slice and nothing else changes |
| BufferUtils.WriteAlpha | src/util/buffer_utils.rs:13-22 | panics exactly when the slice runs past the buffer; otherwise each character, cast to a byte, replaces its position and nothing else changes |
| BufferUtils.NumericAt | src/util/buffer_utils.rs:25-41 | fails exactly for a width outside VALID_NUMERIC_SIZES (InvalidNumericSize); otherwise the value is the big-endian number in the slice, below 256^width, and it passes Numeric validation |
| BufferUtils.ReadNumeric | src/util/buffer_utils.rs:25-41 | the shift-and-or loop computes NumericAt: the big-endian value of the slice, or the width error |
| BufferUtils.ReadPrice | src/util/buffer_utils.rs:44-58 | the four bytes, taken as a two's-complement big-endian i32: the value modulo 2^32 is the unsigned reading, and it is negative exactly when the top bit of the first byte is set |
| BufferUtils.ScanPrintable | src/util/buffer_utils.rs:66-76 | succeeds exactly when every byte of the field is in 0x20..=0x7F, returning the bytes as characters; otherwise reports the first byte outside that range |
| BufferUtils.AlphaAt | src/util/buffer_utils.rs:61-83 | read_alpha succeeds exactly when every byte is in 0x20..=0x7F, yields those bytes as an Alpha that passes Alpha validation, and otherwise reports the first offending byte |
| BufferUtils.ReadAlpha | src/util/buffer_utils.rs:61-83 | the loop computes AlphaAt: the characters, or the first unprintable byte |
| BufferUtils.ByteCharsAreLatin1 | src/util/buffer_utils.rs:75 | any characters made from bytes pass Alpha validation |
| BufferUtils.AlphaAtStopsAt | src/util/buffer_utils.rs:68-73 | when k is the first byte of the field outside 0x20..=0x7F, the error reports byte k |
| BufferUtils.BigEndianFirst | src/util/buffer_utils.rs:36-38 | the big-endian value splits as the first byte times 256^(n-1) plus the value of the rest |
| BufferUtils.BigEndianOfToBigEndian | src/util/buffer_utils.rs:36-38 | writing a value as n big-endian bytes and reading them back gives the value, when it fits in n bytes |
| BufferUtils.BigEndianOfZeros | src/util/buffer_utils.rs:35-38 | a run of zero bytes reads as 0 |
| BufferUtils.ToBigEndianLeadingZeros | src/util/buffer_utils.rs:4-10 | a value that fits m bytes, written over n >= m bytes, is n-m zero bytes followed by its m-byte form |
| BufferUtils.U128BytesLeadingZeros | src/util/buffer_utils.rs:4-10 | the leading k bytes of a u128's to_be_bytes are zero when the value fits in 16-k bytes |
| BufferUtils.DropLowBytesBound | src/util/buffer_utils.rs:36-38 | dropping the m low bytes of a value below 256^n leaves a value below 256^(n-m) |
| BufferUtils.DropLowBytesOfSmall | src/util/buffer_utils.rs:36-38 | dropping m low bytes of a value that fits m bytes leaves 0 |
| BufferUtils.ToBigEndianPrefix | src/util/buffer_utils.rs:4-10 | the leading k of n big-endian bytes are the k-byte form of the value with its low n-k bytes dropped |
| BufferUtils.U128LeadingBytes | src/util/buffer_utils.rs:25-41 | the leading k bytes of a u128's to_be_bytes read back as the value with its 16-k low bytes dropped |
| BufferUtils.CharsOfAlphaBytes | src/util/buffer_utils.rs:13-22 | characters written by write_alpha that are in 0x20..=0x7F read back as the same characters |
| BufferUtils.NumericOfLeadingBytes | src/util/buffer_utils.rs:25-41 | a field holding the leading k bytes of a u128 decodes to the value with its low 16-k bytes dropped |
| BufferUtils.NumericRoundTrip | src/util/buffer_utils.rs:25-41 | a value that fits the width, written big-endian at an offset, reads back unchanged |
| BufferUtils.PriceRoundTrip | src/util/buffer_utils.rs:44-58 | any i32 written as its 4 big-endian bytes reads back as the same Price, negative values included |
| BufferUtils.AlphaRoundTrip | src/util/buffer_utils.rs:61-83 | printable characters written with write_alpha read back as the same Alpha |
| BufferUtils.ScanPrintableLocal | src/util/buffer_utils.rs:66-76 | the scan of a field depends only on the bytes inside it |
| BufferUtils.FieldsLocal | src/util/buffer_utils.rs:25-83 | every field reader (alpha, numeric, price) depends only on the bytes of its own field |
| BufferUtils.AlphaLocal | src/util/buffer_utils.rs:61-83 | read_alpha depends only on the bytes of its field |
| BufferUtils.NumericLocal | src/util/buffer_utils.rs:25-41 | read_numeric depends only on the bytes of its field |
| BufferUtils.PriceLocal | src/util/buffer_utils.rs:44-58 | read_price depends only on its four bytes |
| FieldWrites.Bytes | src/util/buffer_utils.rs:13-22 | write_alpha stores one byte per character |
| FieldWrites.ApplyPrefix | src/util/buffer_utils.rs:4-22 | performing writes that all fit leaves the buffer length unchanged |
| FieldWrites.Encode | src/models/messages/order_book_state_message.rs:46-53 | a to_bin body panics exactly when some write runs past the end of the buffer; otherwise it yields a buffer of exactly the requested size, and it never returns a size error |
| FieldWrites.Serialize | src/models/messages/order_book_state_message.rs:46-53 | allocating the zeroed array and performing the writes in order, stopping at the first panicking one, yields Encode's result |
| FieldWrites.ByteFromWrite | src/util/buffer_utils.rs:4-22 | a position covered by a write and by none of the later writes holds that write's byte at the end |
| FieldWrites.EncodedField | src/util/buffer_utils.rs:4-22 | when the writes fit and go in offset order, the part of each write before the next one begins survives in the encoded message |
| Seconds.ValidateFields | src/models/messages/seconds_message.rs:57-63 | valid exactly when the tag is 'T'; otherwise InvalidMessageType('T', tag) |
| Seconds.New | src/models/messages/seconds_message.rs:15-27 | construction succeeds exactly when validate_fields does, keeps every field as given, and otherwise returns validate_fields' error |
| Seconds.FromBin | src/models/messages/seconds_message.rs:44-55 | a buffer that is not 5 bytes is refused with InvalidMessageSize; an unprintable tag byte is reported; otherwise decoding succeeds exactly when the tag is 'T', and the seconds are the big-endian value of bytes 1..5 |
| Seconds.Encoding | src/models/messages/seconds_message.rs:31-42 | a size other than 5 is refused; at size 5 the 16-byte seconds write runs past the buffer, so it always panics |
| Seconds.ToBin | src/models/messages/seconds_message.rs:31-42 | the size check followed by the writes on a zeroed 5-byte array yields exactly Encoding's result |
| SystemEvent.ValidateFields | src/models/messages/system_event_message.rs:66-76 | valid exactly when the tag is 'S' and the event code is 'O' or 'C'; the tag is checked first, then the code |
| SystemEvent.New | src/models/messages/system_event_message.rs:20-34 | construction succeeds exactly when validate_fields does, keeps every field as given, and otherwise returns validate_fields' error |
| SystemEvent.FromBin | src/models/messages/system_event_message.rs:52-64 | a buffer that is not 6 bytes is refused; the tag and the event code are read in order and the first unprintable one reported; it succeeds exactly when the tag is 'S' and the code 'O' or 'C', giving the fields read from the buffer |
| SystemEvent.Encoding | src/models/messages/system_event_message.rs:38-50 | a size other than 6 is refused; at size 6 the 16-byte timestamp write runs past the buffer, so it always panics |
| SystemEvent.ToBin | src/models/messages/system_event_message.rs:38-50 | the size check followed by the writes on a zeroed 6-byte array yields exactly Encoding's result |
| SystemEvent.TimestampUnchecked | src/models/messages/system_event_message.rs:52-64 | the four timestamp bytes never affect whether decoding succeeds |
| OrderBookState.ValidateFields | src/models/messages/order_book_state_message.rs:71-77 | valid exactly when the tag is 'O'; otherwise InvalidMessageType('O', tag) |
| OrderBookState.New | src/models/messages/order_book_state_message.rs:21-37 | construction succeeds exactly when validate_fields does, keeps every field as given, and otherwise returns validate_fields' error |
| OrderBookState.FromBin | src/models/messages/order_book_state_message.rs:56-69 | a buffer that is not 29 bytes is refused; an unprintable tag or state-name byte is reported, the first one first; it succeeds exactly when the tag is 'O' and the state name is printable, giving the fields read from the buffer |
| OrderBookState.Encoding | src/models/messages/order_book_state_message.rs:41-54 | a size other than 29 is refused; at size 29 every write fits, so it always yields 29 bytes |
| OrderBookState.ToBin | src/models/messages/order_book_state_message.rs:41-54 | the size check followed by the writes on a zeroed 29-byte array yields exactly Encoding's result |
| OrderBookState.WritesFit | src/models/messages/order_book_state_message.rs:41-54 | no write of to_bin runs past the 29-byte buffer |
| OrderBookState.WritesInOrder | src/models/messages/order_book_state_message.rs:41-54 | to_bin writes its fields in increasing offset order |
| OrderBookState.WritesFitInOrder | src/models/messages/order_book_state_message.rs:41-54 | so encoding at 29 bytes performs every write without a panic |
| OrderBookState.TagEncoded | src/models/messages/order_book_state_message.rs:48 | byte 0 holds the tag |
| OrderBookState.TimestampEncoded | src/models/messages/order_book_state_message.rs:49-50 | bytes 1..5 hold the leading 4 bytes of the timestamp's u128 |
| OrderBookState.OrderBookIdEncoded | src/models/messages/order_book_state_message.rs:50-51 | bytes 5..9 hold the leading 4 bytes of the order book id's u128 |
| OrderBookState.StateNameEncoded | src/models/messages/order_book_state_message.rs:51 | bytes 9..29 hold the state name |
| OrderBookState.EncodingLayout | src/models/messages/order_book_state_message.rs:41-54 | the encoded 29 bytes hold every field at its offset; each numeric field keeps only the leading bytes of its 16-byte value, the rest being overwritten by the next field |
| OrderBookState.DecodeOfEncoding | src/models/messages/order_book_state_message.rs:41-69 | decoding an encoded message with printable text gives back the tag and state name, and each numeric field with its low 12 bytes dropped |
| OrderBookState.RoundTripOnlyAtZero | src/models/messages/order_book_state_message.rs:41-69 | for a valid message whose fields fit their widths, decoding its encoding gives the message back exactly when its timestamp and order book id are both 0 |
| OrderDelete.ValidateFields | src/models/messages/order_delete_message.rs:80-90 | valid exactly when the tag is 'D' and the side 'B' or 'S'; the tag error comes before the side error |
| OrderDelete.New | src/models/messages/order_delete_message.rs:26-44 | construction succeeds exactly when validate_fields does, keeps every field as given, and otherwise returns validate_fields' error |
| OrderDelete.FromBin | src/models/messages/order_delete_message.rs:64-78 | a buffer that is not 18 bytes is refused; the tag and side are read in order and the first unprintable one reported; it succeeds exactly when the tag is 'D' and the side 'B' or 'S', giving the fields read from the buffer |
| OrderDelete.Encoding | src/models/messages/order_delete_message.rs:48-62 | a size other than 18 is refused; at size 18 the 16-byte order id written at offset 5 runs past the buffer, so it always panics |
| OrderDelete.ToBin | src/models/messages/order_delete_message.rs:48-62 | the size check followed by the writes on a zeroed 18-byte array yields exactly Encoding's result |
| TickSizeTableEntry.ValidateFields | src/models/messages/tick_size_table_entry_message.rs:83-89 | valid exactly when the tag is 'L'; otherwise InvalidMessageType('L', tag) |
| TickSizeTableEntry.New | src/models/messages/tick_size_table_entry_message.rs:25-45 | construction succeeds exactly when validate_fields does, keeps every field as given, and otherwise returns validate_fields' error |
| TickSizeTableEntry.FromBin | src/models/messages/tick_size_table_entry_message.rs:66-81 | a buffer that is not 25 bytes is refused; an unprintable tag is reported; otherwise it succeeds exactly when the tag is 'L', giving the fields read from the buffer |
| TickSizeTableEntry.Encoding | src/models/messages/tick_size_table_entry_message.rs:49-64 | a size other than 25 is refused; at size 25 the last 16-byte write ends exactly at byte 25, so it always yields 25 bytes |
| TickSizeTableEntry.ToBin | src/models/messages/tick_size_table_entry_message.rs:49-64 | the size check followed by the writes on a zeroed 25-byte array yields exactly Encoding's result |
| TickSizeTableEntry.WritesFit | src/models/messages/tick_size_table_entry_message.rs:49-64 | no write of to_bin runs past the 25-byte buffer |
| TickSizeTableEntry.WritesInOrder | src/models/messages/tick_size_table_entry_message.rs:49-64 | to_bin writes its fields in increasing offset order |
| TickSizeTableEntry.WritesFitInOrder | src/models/messages/tick_size_table_entry_message.rs:49-64 | so encoding at 25 bytes performs every write without a panic |
| TickSizeTableEntry.TagEncoded | src/models/messages/tick_size_table_entry_message.rs:56 | byte 0 holds the tag |
| TickSizeTableEntry.TimestampEncoded | src/models/messages/tick_size_table_entry_message.rs:57-58 | bytes 1..5 hold the leading 4 bytes of the timestamp |
| TickSizeTableEntry.OrderBookIdEncoded | src/models/messages/tick_size_table_entry_message.rs:58-59 | bytes 5..9 hold the leading 4 bytes of the order book id |
| TickSizeTableEntry.TickSizeEncoded | src/models/messages/tick_size_table_entry_message.rs:59-60 | bytes 9..17 hold the leading 8 bytes of the tick size |
| TickSizeTableEntry.PriceFromEncoded | src/models/messages/tick_size_table_entry_message.rs:60 | bytes 17..21 hold price-from as a big-endian i32 |
| TickSizeTableEntry.PriceToEncoded | src/models/messages/tick_size_table_entry_message.rs:61 | bytes 21..25 hold price-to as a big-endian i32 |
| TickSizeTableEntry.EncodingLayout | src/models/messages/tick_size_table_entry_message.rs:49-64 | the encoded 25 bytes hold every field at its offset; each numeric field keeps only the leading bytes of its 16-byte value, the rest being overwritten by the next field |
| TickSizeTableEntry.DecodeOfEncoding | src/models/messages/tick_size_table_entry_message.rs:49-81 | decoding an encoded message with a printable tag gives back the tag and both prices unchanged, and each numeric field with its low bytes dropped |
| TickSizeTableEntry.RoundTripOnlyAtZero | src/models/messages/tick_size_table_entry_message.rs:49-81 | for a valid message whose fields fit their widths, decoding its encoding gives the message back exactly when timestamp, order book id and tick size are all 0 |
| OrderExecuted.ValidateFields | src/models/messages/order_executed_message.rs:108-118 | valid exactly when the tag is 'E' and the side 'B' or 'S'; the tag error comes before the side error |
| OrderExecuted.New | src/models/messages/order_executed_message.rs:38-64 | construction succeeds exactly when validate_fields does, keeps every field as given, and otherwise returns validate_fields' error |
| OrderExecuted.FromBin | src/models/messages/order_executed_message.rs:88-106 | never succeeds: a wrong size is refused, an unprintable tag or side is reported, and otherwise reading the 12-byte match id fails with InvalidNumericSize(12) |
| OrderExecuted.Encoding | src/models/messages/order_executed_message.rs:68-86 | a size other than 52 is refused; at size 52 the widest write ends at byte 42, so it always yields 52 bytes |
| OrderExecuted.ToBin | src/models/messages/order_executed_message.rs:68-86 | the size check followed by the writes on a zeroed 52-byte array yields exactly Encoding's result |
| OrderExecuted.WritesFit | src/models/messages/order_executed_message.rs:68-86 | no write of to_bin runs past the 52-byte buffer |
| OrderExecuted.WritesInOrder | src/models/messages/order_executed_message.rs:68-86 | to_bin writes its fields in increasing offset order |
| OrderExecuted.WritesFitInOrder | src/models/messages/order_executed_message.rs:68-86 | so encoding at 52 bytes performs every write without a panic |
| OrderExecuted.TagEncoded | src/models/messages/order_executed_message.rs:75 | byte 0 holds the tag |
| OrderExecuted.TimestampEncoded | src/models/messages/order_executed_message.rs:76-77 | bytes 1..5 hold the leading 4 bytes of the timestamp |
| OrderExecuted.OrderIdEncoded | src/models/messages/order_executed_message.rs:77-78 | bytes 5..13 hold the leading 8 bytes of the order id |
| OrderExecuted.OrderBookIdEncoded | src/models/messages/order_executed_message.rs:78-79 | bytes 13..17 hold the leading 4 bytes of the order book id |
| OrderExecuted.SideEncoded | src/models/messages/order_executed_message.rs:79 | byte 17 holds the side |
| OrderExecuted.ExecutedQuantityEncoded | src/models/messages/order_executed_message.rs:80-81 | bytes 18..26 hold the leading 8 bytes of the executed quantity |
| OrderExecuted.MatchIdEncoded | src/models/messages/order_executed_message.rs:81-82 | bytes 26..38 hold the leading 12 bytes of the match id |
| OrderExecuted.OwnerEncoded | src/models/messages/order_executed_message.rs:82 | bytes 38..45 hold the owner participant id |
| OrderExecuted.CounterpartyEncoded | src/models/messages/order_executed_message.rs:83 | bytes 45..52 hold the counterparty participant id |
| OrderExecuted.EncodingLayout | src/models/messages/order_executed_message.rs:68-86 | the encoded 52 bytes hold every field at its offset; each numeric field keeps only the leading bytes of its 16-byte value, the rest being overwritten by the next field |
| OrderExecuted.DecodeOfEncoding | src/models/messages/order_executed_message.rs:21 | what to_bin produces never decodes: the 12-byte match id width is refused |
| OrderExecutedWithPrice.ValidateFields | src/models/messages/order_executed_with_price_message.rs:130-148 | valid exactly when the tag is 'C', the side 'B' or 'S', occurred-at-cross and printable each 'N' or 'Y'; the first failing check is the one reported |
| OrderExecutedWithPrice.New | src/models/messages/order_executed_with_price_message.rs:48-80 | construction succeeds exactly when validate_fields does, keeps every field as given, and otherwise returns validate_fields' error |
| OrderExecutedWithPrice.FromBin | src/models/messages/order_executed_with_price_message.rs:107-128 | never succeeds: a wrong size is refused, an unprintable tag or side is reported, and otherwise reading the 12-byte match id fails with InvalidNumericSize(12) |
| OrderExecutedWithPrice.Encoding | src/models/messages/order_executed_with_price_message.rs:84-105 | a size other than 58 is refused; at size 58 every write fits, so it always yields 58 bytes |
| OrderExecutedWithPrice.ToBin | src/models/messages/order_executed_with_price_message.rs:84-105 | the size check followed by the writes on a zeroed 58-byte array yields exactly Encoding's result |
| OrderExecutedWithPrice.WritesFit | src/models/messages/order_executed_with_price_message.rs:84-105 | no write of to_bin runs past the 58-byte buffer |
| OrderExecutedWithPrice.WritesInOrder | src/models/messages/order_executed_with_price_message.rs:84-105 | to_bin writes its fields in increasing offset order |
| OrderExecutedWithPrice.WritesFitInOrder | src/models/messages/order_executed_with_price_message.rs:84-105 | so encoding at 58 bytes performs every write without a panic |
| OrderExecutedWithPrice.TagEncoded | src/models/messages/order_executed_with_price_message.rs:91 | byte 0 holds the tag |
| OrderExecutedWithPrice.TimestampEncoded | src/models/messages/order_executed_with_price_message.rs:92-93 | bytes 1..5 hold the leading 4 bytes of the timestamp |
| OrderExecutedWithPrice.OrderIdEncoded | src/models/messages/order_executed_with_price_message.rs:93-94 | bytes 5..13 hold the leading 8 bytes of the order id |
| OrderExecutedWithPrice.OrderBookIdEncoded | src/models/messages/order_executed_with_price_message.rs:94-95 | bytes 13..17 hold the leading 4 bytes of the order book id |
| OrderExecutedWithPrice.SideEncoded | src/models/messages/order_executed_with_price_message.rs:95 | byte 17 holds the side |
| OrderExecutedWithPrice.ExecutedQuantityEncoded | src/models/messages/order_executed_with_price_message.rs:96-97 | bytes 18..26 hold the leading 8 bytes of the executed quantity |
| OrderExecutedWithPrice.MatchIdEncoded | src/models/messages/order_executed_with_price_message.rs:97-98 | bytes 26..38 hold the leading 12 bytes of the match id |
| OrderExecutedWithPrice.OwnerEncoded | src/models/messages/order_executed_with_price_message.rs:98 | bytes 38..45 hold the owner participant id |
| OrderExecutedWithPrice.CounterpartyEncoded | src/models/messages/order_executed_with_price_message.rs:99 | bytes 45..52 hold the counterparty participant id |
| OrderExecutedWithPrice.TradePriceEncoded | src/models/messages/order_executed_with_price_message.rs:100 | bytes 52..56 hold the trade price as a big-endian i32 |
| OrderExecutedWithPrice.OccurredAtCrossEncoded | src/models/messages/order_executed_with_price_message.rs:101 | byte 56 holds occurred-at-cross |
| OrderExecutedWithPrice.PrintableEncoded | src/models/messages/order_executed_with_price_message.rs:102 | byte 57 holds printable |
| OrderExecutedWithPrice.EncodingLayout | src/models/messages/order_executed_with_price_message.rs:84-105 | the encoded 58 bytes hold every field at its offset; each numeric field keeps only the leading bytes of its 16-byte value, the rest being overwritten by the next field |
| OrderExecutedWithPrice.TradePriceSurvivesEncoding | src/models/messages/order_executed_with_price_message.rs:84-105 | the trade price read back from the encoded bytes is the message's own, whatever its sign |
| OrderExecutedWithPrice.DecodeOfEncoding | src/models/messages/order_executed_with_price_message.rs:26 | what to_bin produces never decodes: the 12-byte match id width is refused |
| Trade.ValidateFields | src/models/messages/trade_message.rs:123-141 | valid exactly when the tag is 'P', the side 'B', 'S' or ' ', printable and occurred-at-cross each 'N' or 'Y'; the first failing check is the one reported |
| Trade.New | src/models/messages/trade_message.rs:45-75 | construction succeeds exactly when validate_fields does, keeps every field as given, and otherwise returns validate_fields' error |
| Trade.FromBin | src/models/messages/trade_message.rs:101-121 | never succeeds: a wrong size is refused, an unprintable tag is reported, and otherwise reading the 12-byte match id fails with InvalidNumericSize(12) |
| Trade.Encoding | src/models/messages/trade_message.rs:79-99 | a size other than 50 is refused; at size 50 every write fits, so it always yields 50 bytes |
| Trade.ToBin | src/models/messages/trade_message.rs:79-99 | the size check followed by the writes on a zeroed 50-byte array yields exactly Encoding's result |
| Trade.WritesFit | src/models/messages/trade_message.rs:79-99 | no write of to_bin runs past the 50-byte buffer |
| Trade.WritesInOrder | src/models/messages/trade_message.rs:79-99 | to_bin writes its fields in increasing offset order |
| Trade.WritesFitInOrder | src/models/messages/trade_message.rs:79-99 | so encoding at 50 bytes performs every write without a panic |
| Trade.TagEncoded | src/models/messages/trade_message.rs:86 | byte 0 holds the tag |
| Trade.TimestampEncoded | src/models/messages/trade_message.rs:87-88 | bytes 1..5 hold the leading 4 bytes of the timestamp |
| Trade.MatchIdEncoded | src/models/messages/trade_message.rs:88-89 | bytes 5..17 hold the leading 12 bytes of the match id |
| Trade.SideEncoded | src/models/messages/trade_message.rs:89 | byte 17 holds the side |
| Trade.QuantityEncoded | src/models/messages/trade_message.rs:90-91 | bytes 18..26 hold the leading 8 bytes of the quantity |
| Trade.OrderBookIdEncoded | src/models/messages/trade_message.rs:91-92 | bytes 26..30 hold the leading 4 bytes of the order book id |
| Trade.TradePriceEncoded | src/models/messages/trade_message.rs:92 | bytes 30..34 hold the trade price as a big-endian i32 |
| Trade.OwnerEncoded | src/models/messages/trade_message.rs:93 | bytes 34..41 hold the owner participant id |
| Trade.CounterpartyEncoded | src/models/messages/trade_message.rs:94 | bytes 41..48 hold the counterparty participant id |
| Trade.PrintableEncoded | src/models/messages/trade_message.rs:95 | byte 48 holds printable |
| Trade.OccurredAtCrossEncoded | src/models/messages/trade_message.rs:96 | byte 49 holds occurred-at-cross |
| Trade.EncodingLayout | src/models/messages/trade_message.rs:79-99 | the encoded 50 bytes hold every field at its offset; each numeric field keeps only the leading bytes of its 16-byte value, the rest being overwritten by the next field |
| Trade.TradePriceSurvivesEncoding | src/models/messages/trade_message.rs:79-99 | the trade price read back from the encoded bytes is the message's own, whatever its sign |
| Trade.DecodeOfEncoding | src/models/messages/trade_message.rs:21 | what to_bin produces never decodes: the 12-byte match id width is refused |
| AddOrderWithParticipantId.ValidateFields | src/models/messages/add_order_with_participant_id_message.rs:123-141 | valid exactly when the tag is NOT 'F' (the check is inverted as written), the side is 'B' or 'S', the order type truncated to u16 is in the flag table and the lot type truncated to u8 is 0..4; the first failing check is the one reported, a tag of 'F' as InvalidMessageType('F', 'F') |
| AddOrderWithParticipantId.New | src/models/messages/add_order_with_participant_id_message.rs:45-75 | construction succeeds exactly when validate_fields does, keeps every field as given, and otherwise returns validate_fields' error |
| AddOrderWithParticipantId.FromBin | src/models/messages/add_order_with_participant_id_message.rs:101-121 | a buffer that is not 44 bytes is refused; the tag, side and participant id are read in order and the first unprintable byte reported; otherwise the result is new applied to the fields read from the buffer |
| AddOrderWithParticipantId.Encoding | src/models/messages/add_order_with_participant_id_message.rs:79-99 | a size other than 44 is refused; at size 44 the 16-byte exchange order type written at offset 34 runs past the buffer, so it always panics |
| AddOrderWithParticipantId.ToBin | src/models/messages/add_order_with_participant_id_message.rs:79-99 | the size check followed by the writes on a zeroed 44-byte array yields exactly Encoding's result |
| AddOrderWithParticipantId.ExchangeOrderTypesAreFlagUnions | src/models/messages/add_order_with_participant_id_message.rs:5 | the order-type table holds exactly the non-empty unions of the flags 4, 8, 32 and 8192 |
| AddOrderWithParticipantId.WideExchangeOrderTypeAccepted | src/models/messages/add_order_with_participant_id_message.rs:132-134 | an order type of 0x10004 fails the 2-byte Numeric check yet passes validate_fields, because it is truncated to u16 first |
| AddOrderWithParticipantId.FromBinAccepts | src/models/messages/add_order_with_participant_id_message.rs:101-141 | decoding succeeds exactly for a 44-byte buffer with a printable tag other than 'F', side 'B' or 'S', a printable participant id, and order and lot types from their tables |
| AddOrderWithParticipantId.DecodedValid | src/models/messages/add_order_with_participant_id_message.rs:123-141 | the fields read from a 44-byte buffer are valid exactly when the tag byte is not 'F', the side is 'B' or 'S' and the order and lot types are in their tables |
| AddOrderWithParticipantId.TagFNeverDecodes | src/models/messages/add_order_with_participant_id_message.rs:124-126 | a message whose tag is the documented 'F' is always refused with InvalidMessageType('F', 'F') |
| EquilibriumPriceUpdate.ValidateFields | src/models/messages/equilibrium_price_update_message.rs:110-116 | valid exactly when the tag is 'Z'; prices and quantities are not checked |
| EquilibriumPriceUpdate.New | src/models/messages/equilibrium_price_update_message.rs:36-64 | construction succeeds exactly when validate_fields does, keeps every field as given, and otherwise returns validate_fields' error |
| EquilibriumPriceUpdate.FromBin | src/models/messages/equilibrium_price_update_message.rs:89-108 | a buffer that is not 53 bytes is refused; an unprintable tag is reported; otherwise it succeeds exactly when the tag is 'Z', giving the fields read from the buffer |
| EquilibriumPriceUpdate.Encoding | src/models/messages/equilibrium_price_update_message.rs:68-87 | a size other than 53 is refused; at size 53 the 16-byte best ask quantity written at offset 45 runs past the buffer, so it always panics |
| EquilibriumPriceUpdate.ToBin | src/models/messages/equilibrium_price_update_message.rs:68-87 | the size check followed by the writes on a zeroed 53-byte array yields exactly Encoding's result |
| EquilibriumPriceUpdate.OnlyLastWriteOverruns | src/models/messages/equilibrium_price_update_message.rs:75-84 | every write but the last fits the 53-byte buffer; the best bid quantity ends exactly at byte 53 and the best ask quantity at 61 |
| CombinationOrderBookDirectory.ValidateFields | src/models/messages/combination_order_book_directory_message.rs:229-259 | valid exactly when the tag is 'M', the financial product truncated to u8 is 1, 3, 5 or 11, legs 1 and 2 have side 'B' or 'C', legs 3 and 4 'B', 'C' or '?', and the four leg ratios sum to 1; the first failing check is the one reported |
| CombinationOrderBookDirectory.New | src/models/messages/combination_order_book_directory_message.rs:91-151 | construction succeeds exactly when validate_fields does, keeps every field as given, and otherwise returns validate_fields' error |
| CombinationOrderBookDirectory.ReadIdentity | src/models/messages/combination_order_book_directory_message.rs:198-203 | the identity fields read successfully exactly when the tag, symbol, long name and ISIN bytes are printable, giving the bytes at their offsets |
| CombinationOrderBookDirectory.ReadTerms | src/models/messages/combination_order_book_directory_message.rs:204-211 | the lot and price terms read successfully exactly when the trading currency bytes are printable |
| CombinationOrderBookDirectory.ReadLeg | src/models/messages/combination_order_book_directory_message.rs:212-223 | a leg reads successfully exactly when its symbol and side bytes are printable |
| CombinationOrderBookDirectory.TextPrintableByField | src/models/messages/combination_order_book_directory_message.rs:192-227 | the text of a 268-byte buffer is printable exactly when each alpha field is |
| CombinationOrderBookDirectory.FromBin | src/models/messages/combination_order_book_directory_message.rs:192-227 | a buffer that is not 268 bytes is refused with InvalidMessageSize |
| CombinationOrderBookDirectory.Encoding | src/models/messages/combination_order_book_directory_message.rs:155-190 | a size other than 268 is refused; at size 268 the 16-byte leg 4 ratio written at offset 264 runs past the buffer, so it always panics |
| CombinationOrderBookDirectory.ToBin | src/models/messages/combination_order_book_directory_message.rs:155-190 | the size check followed by the writes on a zeroed 268-byte array yields exactly Encoding's result |
| CombinationOrderBookDirectory.ReadIdentityStops | src/models/messages/combination_order_book_directory_message.rs:198-203 | the first unprintable byte among the identity fields is the error reported |
| CombinationOrderBookDirectory.ReadTermsStops | src/models/messages/combination_order_book_directory_message.rs:204-211 | an unprintable trading currency byte is the error reported |
| CombinationOrderBookDirectory.ReadLegStops | src/models/messages/combination_order_book_directory_message.rs:212-223 | the first unprintable byte of a leg's text is the error reported |
| CombinationOrderBookDirectory.FromBinDecodes | src/models/messages/combination_order_book_directory_message.rs:192-227 | when every text byte of a 268-byte buffer is printable, decoding is new applied to the fields read from the buffer |
| CombinationOrderBookDirectory.DecodedOnlyIfPrintable | src/models/messages/combination_order_book_directory_message.rs:192-227 | a successful decode implies the buffer was 268 bytes with printable text, and yields the fields read from it |
| CombinationOrderBookDirectory.StagesPrintableBefore | src/models/messages/combination_order_book_directory_message.rs:192-227 | each reading stage succeeds when all text before its end is printable |
| CombinationOrderBookDirectory.FirstUnprintableReported | src/models/messages/combination_order_book_directory_message.rs:192-227 | the first unprintable text byte of the whole buffer, in field order, is the error decoding reports |
| CombinationOrderBookDirectory.IdentityLocal | src/models/messages/combination_order_book_directory_message.rs:198-203 | the identity stage depends only on bytes 0..73 and 80..92 |
| CombinationOrderBookDirectory.TermsLocal | src/models/messages/combination_order_book_directory_message.rs:204-211 | the terms stage depends only on bytes 92..120 |
| CombinationOrderBookDirectory.LegLocal | src/models/messages/combination_order_book_directory_message.rs:212-223 | a leg depends only on its own 37 bytes |
| CombinationOrderBookDirectory.GapIgnored | src/models/messages/combination_order_book_directory_message.rs:11-12 | bytes 73..80, which no field reads, never affect decoding |
| CombinationOrderBookDirectory.DecodedFieldsFit | src/models/messages/combination_order_book_directory_message.rs:192-227 | decoded fields are small: the financial product is below 256 and the four leg ratios sum to less than 2^34, so the u128 sum in validate_fields cannot overflow on the decoding path |
| CombinationOrderBookDirectory.WideFinancialProductAccepted | src/models/messages/combination_order_book_directory_message.rs:234-236 | a financial product of 0x101 fails the 1-byte Numeric check yet passes validate_fields, because it is truncated to u8 first |

## Left out

- The `TDataType` and `TMessage` traits (src/traits): these are signatures only. Each message module provides the same operations under the same names.
- `Display`/`Debug` for `DataFeedError` (src/enums/data_feed_error.rs:19-56): this is message text only. The variants (lines 3-17) are modelled as a datatype.
- `global_constants` is not part of this model. The message sizes 5, 6, 18, 25, 29, 44, 50, 52, 53, 58 and 268 are written into each module. Each equals the last field's offset plus its length.
- `new` takes the finished record rather than one argument per field. The two forms carry the same information.
- A panic is modelled as the `Panicked` outcome. The model does not cover unwinding, or what a caller sees after a panic.
- CombinationOrderBookDirectory.ValidateFields: sums the four leg ratios as mathematical integers, so it does not model the `u128` overflow of the sum at src/models/messages/combination_order_book_directory_message.rs:254. That overflow needs ratios near 2^126, which no `Numeric<4>` built by `new` can hold. `DecodedFieldsFit` shows that decoded ratios sum to less than 2^34.
- CombinationOrderBookDirectory.FromBin: its own contract states only the size check. The decoding path is stated by the lemmas beside it:
  - `FromBinDecodes` and `DecodedOnlyIfPrintable` cover decoding.
  - `FirstUnprintableReported` covers the error reported.
  - `GapIgnored` covers the bytes no field reads.
- The `EncodingLayout` lemmas state the numeric fields of an encoding only as the leading bytes of each 16-byte value. They do not say what value those bytes decode to. `DecodeOfEncoding` covers that where decoding can succeed.
- No message dispatcher on the tag byte is modelled. The code has none: each `from_bin` is called for a type the caller already knows.
