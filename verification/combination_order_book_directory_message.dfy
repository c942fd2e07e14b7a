/**
 * Combination Order Book Directory ('M'): the definition of a combination
 * order book of up to four legs. Wire size 268 bytes.
 */
module CombinationOrderBookDirectory {
  import opened Ints
  import opened DataFeedErrors
  import opened NumericType
  import opened AlphaType
  import opened BufferUtils
  import opened FieldWrites

  const COMBINATION_ORDER_BOOK_DIRECTORY_MESSAGE_BYTE_COUNT: nat := 268

  const VALID_FINANCIAL_PRODUCT_VALUES: seq<int> := [1, 3, 5, 11]
  const VALID_LEG_1_AND_2_SIDE_VALUES: seq<char> := ['B', 'C']
  const VALID_LEG_3_AND_4_SIDE_VALUES: seq<char> := ['B', 'C', '?']

  const MESSAGE_TYPE_BYTE_OFFSET: nat := 0
  const NANOSECONDS_BYTE_OFFSET: nat := 1
  const ORDER_BOOK_ID_BYTE_OFFSET: nat := 5
  const SYMBOL_BYTE_OFFSET: nat := 9
  const LONG_NAME_BYTE_OFFSET: nat := 41
  const ISIN_BYTE_OFFSET: nat := 80
  const FINANCIAL_PRODUCT_BYTE_OFFSET: nat := 92
  const TRADING_CURRENCY_BYTE_OFFSET: nat := 93
  const NUMBER_OF_DECIMALS_IN_PRICE_BYTE_OFFSET: nat := 96
  const NUMBER_OF_DECIMALS_IN_NOMINAL_VALUE_BYTE_OFFSET: nat := 98
  const ODD_LOT_SIZE_BYTE_OFFSET: nat := 100
  const ROUND_LOT_SIZE_BYTE_OFFSET: nat := 104
  const BLOCK_LOT_SIZE_BYTE_OFFSET: nat := 108
  const NOMINAL_VALUE_BYTE_OFFSET: nat := 112
  const LEG_1_SYMBOL_BYTE_OFFSET: nat := 120
  const LEG_1_SIDE_BYTE_OFFSET: nat := 152
  const LEG_1_RATIO_BYTE_OFFSET: nat := 153
  const LEG_2_SYMBOL_BYTE_OFFSET: nat := 157
  const LEG_2_SIDE_BYTE_OFFSET: nat := 189
  const LEG_2_RATIO_BYTE_OFFSET: nat := 190
  const LEG_3_SYMBOL_BYTE_OFFSET: nat := 194
  const LEG_3_SIDE_BYTE_OFFSET: nat := 226
  const LEG_3_RATIO_BYTE_OFFSET: nat := 227
  const LEG_4_SYMBOL_BYTE_OFFSET: nat := 231
  const LEG_4_SIDE_BYTE_OFFSET: nat := 263
  const LEG_4_RATIO_BYTE_OFFSET: nat := 264

  const MESSAGE_TYPE_LENGTH: nat := 1
  const NANOSECONDS_LENGTH: nat := 4
  const ORDER_BOOK_ID_LENGTH: nat := 4
  const SYMBOL_LENGTH: nat := 32
  const LONG_NAME_LENGTH: nat := 32
  const ISIN_LENGTH: nat := 12
  const FINANCIAL_PRODUCT_LENGTH: nat := 1
  const TRADING_CURRENCY_LENGTH: nat := 3
  const NUMBER_OF_DECIMALS_IN_PRICE_LENGTH: nat := 2
  const NUMBER_OF_DECIMALS_IN_NOMINAL_VALUE_LENGTH: nat := 2
  const ODD_LOT_SIZE_LENGTH: nat := 4
  const ROUND_LOT_SIZE_LENGTH: nat := 4
  const BLOCK_LOT_SIZE_LENGTH: nat := 4
  const NOMINAL_VALUE_LENGTH: nat := 8
  const LEG_SYMBOL_LENGTH: nat := 32
  const LEG_SIDE_LENGTH: nat := 1
  const LEG_RATIO_LENGTH: nat := 4

  datatype CombinationOrderBookDirectoryMessage = CombinationOrderBookDirectoryMessage(
    messageType: Alpha1,
    nanoseconds: Numeric,
    orderBookId: Numeric,
    symbol: Alpha32,
    longName: Alpha32,
    isin: Alpha12,
    financialProduct: Numeric,
    tradingCurrency: Alpha3,
    numberOfDecimalsInPrice: Numeric,
    numberOfDecimalsInNominalValue: Numeric,
    oddLotSize: Numeric,
    roundLotSize: Numeric,
    blockLotSize: Numeric,
    nominalValue: Numeric,
    leg1Symbol: Alpha32,
    leg1Side: Alpha1,
    leg1Ratio: Numeric,
    leg2Symbol: Alpha32,
    leg2Side: Alpha1,
    leg2Ratio: Numeric,
    leg3Symbol: Alpha32,
    leg3Side: Alpha1,
    leg3Ratio: Numeric,
    leg4Symbol: Alpha32,
    leg4Side: Alpha1,
    leg4Ratio: Numeric)

  /** Exactly one of the four leg ratios is 1 and the other three are 0. */
  ghost predicate SingleUnitLeg(m: CombinationOrderBookDirectoryMessage) {
    || (m.leg1Ratio.value == 1 && m.leg2Ratio.value == 0 && m.leg3Ratio.value == 0 && m.leg4Ratio.value == 0)
    || (m.leg1Ratio.value == 0 && m.leg2Ratio.value == 1 && m.leg3Ratio.value == 0 && m.leg4Ratio.value == 0)
    || (m.leg1Ratio.value == 0 && m.leg2Ratio.value == 0 && m.leg3Ratio.value == 1 && m.leg4Ratio.value == 0)
    || (m.leg1Ratio.value == 0 && m.leg2Ratio.value == 0 && m.leg3Ratio.value == 0 && m.leg4Ratio.value == 1)
  }

  /** The leg sides a `new` call accepts: 'B' or 'C' for legs 1 and 2, and also '?' for legs 3 and 4. */
  ghost predicate ValidSides(m: CombinationOrderBookDirectoryMessage) {
    && m.leg1Side.value[0] in {'B', 'C'}
    && m.leg2Side.value[0] in {'B', 'C'}
    && m.leg3Side.value[0] in {'B', 'C', '?'}
    && m.leg4Side.value[0] in {'B', 'C', '?'}
  }

  /** The checks before the leg sides pass: tag 'M' and a financial product whose low 8 bits are listed. */
  ghost predicate HeaderValid(m: CombinationOrderBookDirectoryMessage) {
    m.messageType.value[0] == 'M' && m.financialProduct.value % 0x100 in {1, 3, 5, 11}
  }

  /**
   * The message a `new` call accepts: tag 'M', a financial product whose
   * low 8 bits are 1, 3, 5 or 11, valid leg sides, and leg ratios of which
   * exactly one is 1 and the rest 0.
   */
  ghost predicate Valid(m: CombinationOrderBookDirectoryMessage) {
    && m.messageType.value[0] == 'M'
    && m.financialProduct.value % 0x100 in {1, 3, 5, 11}
    && ValidSides(m)
    && SingleUnitLeg(m)
  }

  /**
   * `validate_fields`: tag, financial product (compared after truncation
   * to `u8`), the four leg sides in order, then the sum of the leg ratios,
   * which must be 1; the first failure is reported.
   */
  function ValidateFields(m: CombinationOrderBookDirectoryMessage): (r: Result<()>)
    ensures r.Ok? <==> Valid(m)
    ensures m.messageType.value[0] != 'M' ==> r == Err(InvalidMessageType('M', m.messageType.value[0]))
    ensures m.messageType.value[0] == 'M' && m.financialProduct.value % 0x100 !in {1, 3, 5, 11} ==>
              r == Err(InvalidFinancialProductValue(m.financialProduct.value))
    ensures HeaderValid(m) && m.leg1Side.value[0] !in {'B', 'C'} ==>
              r == Err(InvalidSideValue(m.leg1Side.value[0]))
    ensures HeaderValid(m) && m.leg1Side.value[0] in {'B', 'C'} && m.leg2Side.value[0] !in {'B', 'C'} ==>
              r == Err(InvalidSideValue(m.leg2Side.value[0]))
    ensures HeaderValid(m) && m.leg1Side.value[0] in {'B', 'C'} && m.leg2Side.value[0] in {'B', 'C'} &&
            m.leg3Side.value[0] !in {'B', 'C', '?'} ==>
              r == Err(InvalidSideValue(m.leg3Side.value[0]))
    ensures HeaderValid(m) && m.leg1Side.value[0] in {'B', 'C'} && m.leg2Side.value[0] in {'B', 'C'} &&
            m.leg3Side.value[0] in {'B', 'C', '?'} && m.leg4Side.value[0] !in {'B', 'C', '?'} ==>
              r == Err(InvalidSideValue(m.leg4Side.value[0]))
    ensures HeaderValid(m) && ValidSides(m) && !SingleUnitLeg(m) ==>
              r == Err(InvalidLegRatioValues(m.leg1Ratio.value, m.leg2Ratio.value, m.leg3Ratio.value, m.leg4Ratio.value))
  {
    if m.messageType.value != ['M'] then
      Err(InvalidMessageType('M', m.messageType.value[0]))
    else if m.financialProduct.value % 0x100 !in VALID_FINANCIAL_PRODUCT_VALUES then
      Err(InvalidFinancialProductValue(m.financialProduct.value))
    else if m.leg1Side.value[0] !in VALID_LEG_1_AND_2_SIDE_VALUES then
      Err(InvalidSideValue(m.leg1Side.value[0]))
    else if m.leg2Side.value[0] !in VALID_LEG_1_AND_2_SIDE_VALUES then
      Err(InvalidSideValue(m.leg2Side.value[0]))
    else if m.leg3Side.value[0] !in VALID_LEG_3_AND_4_SIDE_VALUES then
      Err(InvalidSideValue(m.leg3Side.value[0]))
    else if m.leg4Side.value[0] !in VALID_LEG_3_AND_4_SIDE_VALUES then
      Err(InvalidSideValue(m.leg4Side.value[0]))
    else if m.leg1Ratio.value + m.leg2Ratio.value + m.leg3Ratio.value + m.leg4Ratio.value != 1 then
      Err(InvalidLegRatioValues(m.leg1Ratio.value, m.leg2Ratio.value, m.leg3Ratio.value, m.leg4Ratio.value))
    else
      Ok(())
  }

  /** `CombinationOrderBookDirectoryMessage::new`: the fields as given, if they validate. */
  function New(m: CombinationOrderBookDirectoryMessage): (r: Result<CombinationOrderBookDirectoryMessage>)
    ensures r.Ok? <==> Valid(m)
    ensures r.Ok? ==> r.value == m
    ensures r.Err? ==> r.error == ValidateFields(m).error
  {
    var _ :- ValidateFields(m);
    Ok(m)
  }

  /**
   * The positions `from_bin` reads as text: the tag, symbol and long name,
   * the ISIN, the trading currency, and each leg's symbol and side. The
   * text fields are read in ascending order of offset.
   */
  predicate InText(i: int) {
    || i == 0
    || 9 <= i < 73
    || 80 <= i < 92
    || 93 <= i < 96
    || 120 <= i < 153
    || 157 <= i < 190
    || 194 <= i < 227
    || 231 <= i < 264
  }

  /** Every byte in `lo..hi` that `from_bin` reads as text is in 0x20..=0x7F. */
  ghost predicate TextPrintableIn(data: seq<u8>, lo: nat, hi: nat)
    requires hi <= |data|
  {
    forall i :: lo <= i < hi && InText(i) ==> IsPrintable(data[i])
  }

  /** Every byte that `from_bin` reads as text is in 0x20..=0x7F. */
  ghost predicate TextPrintable(data: seq<u8>) {
    TextPrintableIn(data, 0, |data|)
  }

  /** Position k holds the first text byte in `lo..hi` outside 0x20..=0x7F. */
  ghost predicate FirstBadText(data: seq<u8>, lo: nat, hi: nat, k: int)
    requires hi <= |data|
  {
    lo <= k < hi && InText(k) && !IsPrintable(data[k]) && TextPrintableIn(data, lo, k)
  }

  /** The fields from the tag to the ISIN, at bytes 0 to 92. */
  datatype Identity = Identity(
    messageType: Alpha1,
    nanoseconds: Numeric,
    orderBookId: Numeric,
    symbol: Alpha32,
    longName: Alpha32,
    isin: Alpha12)

  /** The fields from the financial product to the nominal value, at bytes 92 to 120. */
  datatype Terms = Terms(
    financialProduct: Numeric,
    tradingCurrency: Alpha3,
    numberOfDecimalsInPrice: Numeric,
    numberOfDecimalsInNominalValue: Numeric,
    oddLotSize: Numeric,
    roundLotSize: Numeric,
    blockLotSize: Numeric,
    nominalValue: Numeric)

  /** The fields of one leg: symbol, side and ratio, 37 bytes from the start of the symbol. */
  datatype Leg = Leg(symbol: Alpha32, side: Alpha1, ratio: Numeric)

  function IdentityOf(data: seq<u8>): Identity
    requires 92 <= |data|
  {
    Identity(
      Alpha(Chars(data, MESSAGE_TYPE_BYTE_OFFSET, MESSAGE_TYPE_LENGTH)),
      NumericAt(data, NANOSECONDS_BYTE_OFFSET, NANOSECONDS_LENGTH).value,
      NumericAt(data, ORDER_BOOK_ID_BYTE_OFFSET, ORDER_BOOK_ID_LENGTH).value,
      Alpha(Chars(data, SYMBOL_BYTE_OFFSET, SYMBOL_LENGTH)),
      Alpha(Chars(data, LONG_NAME_BYTE_OFFSET, LONG_NAME_LENGTH)),
      Alpha(Chars(data, ISIN_BYTE_OFFSET, ISIN_LENGTH)))
  }

  function TermsOf(data: seq<u8>): Terms
    requires 120 <= |data|
  {
    Terms(
      NumericAt(data, FINANCIAL_PRODUCT_BYTE_OFFSET, FINANCIAL_PRODUCT_LENGTH).value,
      Alpha(Chars(data, TRADING_CURRENCY_BYTE_OFFSET, TRADING_CURRENCY_LENGTH)),
      NumericAt(data, NUMBER_OF_DECIMALS_IN_PRICE_BYTE_OFFSET, NUMBER_OF_DECIMALS_IN_PRICE_LENGTH).value,
      NumericAt(data, NUMBER_OF_DECIMALS_IN_NOMINAL_VALUE_BYTE_OFFSET, NUMBER_OF_DECIMALS_IN_NOMINAL_VALUE_LENGTH).value,
      NumericAt(data, ODD_LOT_SIZE_BYTE_OFFSET, ODD_LOT_SIZE_LENGTH).value,
      NumericAt(data, ROUND_LOT_SIZE_BYTE_OFFSET, ROUND_LOT_SIZE_LENGTH).value,
      NumericAt(data, BLOCK_LOT_SIZE_BYTE_OFFSET, BLOCK_LOT_SIZE_LENGTH).value,
      NumericAt(data, NOMINAL_VALUE_BYTE_OFFSET, NOMINAL_VALUE_LENGTH).value)
  }

  function LegOf(data: seq<u8>, offset: nat): Leg
    requires offset + LEG_SYMBOL_LENGTH + LEG_SIDE_LENGTH + LEG_RATIO_LENGTH <= |data|
  {
    Leg(Alpha(Chars(data, offset, LEG_SYMBOL_LENGTH)),
        Alpha(Chars(data, offset + LEG_SYMBOL_LENGTH, LEG_SIDE_LENGTH)),
        NumericAt(data, offset + LEG_SYMBOL_LENGTH + LEG_SIDE_LENGTH, LEG_RATIO_LENGTH).value)
  }

  /** The message made of the fields read in the stages of `from_bin`. */
  function Assemble(id: Identity, terms: Terms, leg1: Leg, leg2: Leg, leg3: Leg, leg4: Leg): CombinationOrderBookDirectoryMessage {
    CombinationOrderBookDirectoryMessage(
      id.messageType, id.nanoseconds, id.orderBookId, id.symbol, id.longName, id.isin,
      terms.financialProduct, terms.tradingCurrency, terms.numberOfDecimalsInPrice,
      terms.numberOfDecimalsInNominalValue, terms.oddLotSize, terms.roundLotSize,
      terms.blockLotSize, terms.nominalValue,
      leg1.symbol, leg1.side, leg1.ratio, leg2.symbol, leg2.side, leg2.ratio,
      leg3.symbol, leg3.side, leg3.ratio, leg4.symbol, leg4.side, leg4.ratio)
  }

  /** The message whose fields are the given bytes, read at the field offsets. */
  function Decoded(data: seq<u8>): CombinationOrderBookDirectoryMessage
    requires |data| == COMBINATION_ORDER_BOOK_DIRECTORY_MESSAGE_BYTE_COUNT
  {
    Assemble(IdentityOf(data), TermsOf(data),
             LegOf(data, LEG_1_SYMBOL_BYTE_OFFSET), LegOf(data, LEG_2_SYMBOL_BYTE_OFFSET),
             LegOf(data, LEG_3_SYMBOL_BYTE_OFFSET), LegOf(data, LEG_4_SYMBOL_BYTE_OFFSET))
  }

  /** The reads of `from_bin` from the tag to the ISIN, in order; the first unprintable text byte stops them. */
  function ReadIdentity(data: seq<u8>): (r: Result<Identity>)
    requires 92 <= |data|
    ensures r.Ok? <==> PrintableRange(data, 0, 1) && PrintableRange(data, 9, 32) && PrintableRange(data, 41, 32) &&
                       PrintableRange(data, 80, 12)
    ensures r.Ok? ==> r.value == IdentityOf(data)
  {
    var messageType :- AlphaAt(data, MESSAGE_TYPE_BYTE_OFFSET, MESSAGE_TYPE_LENGTH);
    var nanoseconds := NumericAt(data, NANOSECONDS_BYTE_OFFSET, NANOSECONDS_LENGTH).value;
    var orderBookId := NumericAt(data, ORDER_BOOK_ID_BYTE_OFFSET, ORDER_BOOK_ID_LENGTH).value;
    var symbol :- AlphaAt(data, SYMBOL_BYTE_OFFSET, SYMBOL_LENGTH);
    var longName :- AlphaAt(data, LONG_NAME_BYTE_OFFSET, LONG_NAME_LENGTH);
    var isin :- AlphaAt(data, ISIN_BYTE_OFFSET, ISIN_LENGTH);
    Ok(Identity(messageType, nanoseconds, orderBookId, symbol, longName, isin))
  }

  /** The reads of `from_bin` from the financial product to the nominal value, in order. */
  function ReadTerms(data: seq<u8>): (r: Result<Terms>)
    requires 120 <= |data|
    ensures r.Ok? <==> PrintableRange(data, 93, 3)
    ensures r.Ok? ==> r.value == TermsOf(data)
  {
    var financialProduct := NumericAt(data, FINANCIAL_PRODUCT_BYTE_OFFSET, FINANCIAL_PRODUCT_LENGTH).value;
    var tradingCurrency :- AlphaAt(data, TRADING_CURRENCY_BYTE_OFFSET, TRADING_CURRENCY_LENGTH);
    var decimalsInPrice :=
      NumericAt(data, NUMBER_OF_DECIMALS_IN_PRICE_BYTE_OFFSET, NUMBER_OF_DECIMALS_IN_PRICE_LENGTH).value;
    var decimalsInNominalValue :=
      NumericAt(data, NUMBER_OF_DECIMALS_IN_NOMINAL_VALUE_BYTE_OFFSET, NUMBER_OF_DECIMALS_IN_NOMINAL_VALUE_LENGTH).value;
    var oddLotSize := NumericAt(data, ODD_LOT_SIZE_BYTE_OFFSET, ODD_LOT_SIZE_LENGTH).value;
    var roundLotSize := NumericAt(data, ROUND_LOT_SIZE_BYTE_OFFSET, ROUND_LOT_SIZE_LENGTH).value;
    var blockLotSize := NumericAt(data, BLOCK_LOT_SIZE_BYTE_OFFSET, BLOCK_LOT_SIZE_LENGTH).value;
    var nominalValue := NumericAt(data, NOMINAL_VALUE_BYTE_OFFSET, NOMINAL_VALUE_LENGTH).value;
    Ok(Terms(financialProduct, tradingCurrency, decimalsInPrice, decimalsInNominalValue,
             oddLotSize, roundLotSize, blockLotSize, nominalValue))
  }

  /** The reads of `from_bin` for the leg whose symbol starts at `offset`: symbol, side, ratio. */
  function ReadLeg(data: seq<u8>, offset: nat): (r: Result<Leg>)
    requires offset + 37 <= |data|
    ensures r.Ok? <==> PrintableRange(data, offset, 32) && PrintableRange(data, offset + 32, 1)
    ensures r.Ok? ==> r.value == LegOf(data, offset)
  {
    var symbol :- AlphaAt(data, offset, LEG_SYMBOL_LENGTH);
    var side :- AlphaAt(data, offset + LEG_SYMBOL_LENGTH, LEG_SIDE_LENGTH);
    var ratio := NumericAt(data, offset + LEG_SYMBOL_LENGTH + LEG_SIDE_LENGTH, LEG_RATIO_LENGTH).value;
    Ok(Leg(symbol, side, ratio))
  }

  /** The text bytes are printable exactly when each text field's bytes are. */
  lemma TextPrintableByField(data: seq<u8>)
    requires |data| == 268
    ensures TextPrintable(data) <==>
              && PrintableRange(data, 0, 1) && PrintableRange(data, 9, 32) && PrintableRange(data, 41, 32)
              && PrintableRange(data, 80, 12) && PrintableRange(data, 93, 3)
              && PrintableRange(data, 120, 32) && PrintableRange(data, 152, 1)
              && PrintableRange(data, 157, 32) && PrintableRange(data, 189, 1)
              && PrintableRange(data, 194, 32) && PrintableRange(data, 226, 1)
              && PrintableRange(data, 231, 32) && PrintableRange(data, 263, 1)
  {
  }

  /**
   * `from_bin`: the size, then every field in order of offset, the text
   * fields failing on their first unprintable byte, then `new` on what was
   * read. Numeric widths 1, 2, 4 and 8 are all valid, so no numeric read
   * fails. The reads are grouped in the stages above, in the same order.
   */
  function FromBin(data: seq<u8>): (r: Result<CombinationOrderBookDirectoryMessage>)
    ensures |data| != 268 ==> r == Err(InvalidMessageSize(268, |data|))
  {
    if |data| != COMBINATION_ORDER_BOOK_DIRECTORY_MESSAGE_BYTE_COUNT then
      Err(InvalidMessageSize(COMBINATION_ORDER_BOOK_DIRECTORY_MESSAGE_BYTE_COUNT, |data|))
    else
      var id :- ReadIdentity(data);
      var terms :- ReadTerms(data);
      var leg1 :- ReadLeg(data, LEG_1_SYMBOL_BYTE_OFFSET);
      var leg2 :- ReadLeg(data, LEG_2_SYMBOL_BYTE_OFFSET);
      var leg3 :- ReadLeg(data, LEG_3_SYMBOL_BYTE_OFFSET);
      var leg4 :- ReadLeg(data, LEG_4_SYMBOL_BYTE_OFFSET);
      New(Assemble(id, terms, leg1, leg2, leg3, leg4))
  }

  /** The writes of `to_bin`, in order; each numeric field is written as all 16 bytes of its `u128`. */
  function Writes(m: CombinationOrderBookDirectoryMessage): seq<FieldWrite> {
    [ AlphaWrite(MESSAGE_TYPE_BYTE_OFFSET, m.messageType.value),
      NumWrite(NANOSECONDS_BYTE_OFFSET, U128ToBeBytes(m.nanoseconds.value)),
      NumWrite(ORDER_BOOK_ID_BYTE_OFFSET, U128ToBeBytes(m.orderBookId.value)),
      AlphaWrite(SYMBOL_BYTE_OFFSET, m.symbol.value),
      AlphaWrite(LONG_NAME_BYTE_OFFSET, m.longName.value),
      AlphaWrite(ISIN_BYTE_OFFSET, m.isin.value),
      NumWrite(FINANCIAL_PRODUCT_BYTE_OFFSET, U128ToBeBytes(m.financialProduct.value)),
      AlphaWrite(TRADING_CURRENCY_BYTE_OFFSET, m.tradingCurrency.value),
      NumWrite(NUMBER_OF_DECIMALS_IN_PRICE_BYTE_OFFSET, U128ToBeBytes(m.numberOfDecimalsInPrice.value)),
      NumWrite(NUMBER_OF_DECIMALS_IN_NOMINAL_VALUE_BYTE_OFFSET, U128ToBeBytes(m.numberOfDecimalsInNominalValue.value)),
      NumWrite(ODD_LOT_SIZE_BYTE_OFFSET, U128ToBeBytes(m.oddLotSize.value)),
      NumWrite(ROUND_LOT_SIZE_BYTE_OFFSET, U128ToBeBytes(m.roundLotSize.value)),
      NumWrite(BLOCK_LOT_SIZE_BYTE_OFFSET, U128ToBeBytes(m.blockLotSize.value)),
      NumWrite(NOMINAL_VALUE_BYTE_OFFSET, U128ToBeBytes(m.nominalValue.value)),
      AlphaWrite(LEG_1_SYMBOL_BYTE_OFFSET, m.leg1Symbol.value),
      AlphaWrite(LEG_1_SIDE_BYTE_OFFSET, m.leg1Side.value),
      NumWrite(LEG_1_RATIO_BYTE_OFFSET, U128ToBeBytes(m.leg1Ratio.value)),
      AlphaWrite(LEG_2_SYMBOL_BYTE_OFFSET, m.leg2Symbol.value),
      AlphaWrite(LEG_2_SIDE_BYTE_OFFSET, m.leg2Side.value),
      NumWrite(LEG_2_RATIO_BYTE_OFFSET, U128ToBeBytes(m.leg2Ratio.value)),
      AlphaWrite(LEG_3_SYMBOL_BYTE_OFFSET, m.leg3Symbol.value),
      AlphaWrite(LEG_3_SIDE_BYTE_OFFSET, m.leg3Side.value),
      NumWrite(LEG_3_RATIO_BYTE_OFFSET, U128ToBeBytes(m.leg3Ratio.value)),
      AlphaWrite(LEG_4_SYMBOL_BYTE_OFFSET, m.leg4Symbol.value),
      AlphaWrite(LEG_4_SIDE_BYTE_OFFSET, m.leg4Side.value),
      NumWrite(LEG_4_RATIO_BYTE_OFFSET, U128ToBeBytes(m.leg4Ratio.value)) ]
  }

  /**
   * What `to_bin::<size>` does. The 16-byte leg 4 ratio written at offset
   * 264 runs past the 268-byte buffer, so encoding at the right size
   * always panics.
   */
  function Encoding(m: CombinationOrderBookDirectoryMessage, size: nat): (r: ToBinResult)
    ensures size != 268 ==> r == Rejected(InvalidMessageSize(268, size))
    ensures size == 268 ==> r == Panicked
  {
    if size != COMBINATION_ORDER_BOOK_DIRECTORY_MESSAGE_BYTE_COUNT then
      Rejected(InvalidMessageSize(COMBINATION_ORDER_BOOK_DIRECTORY_MESSAGE_BYTE_COUNT, size))
    else
      assert End(Writes(m)[25]) > size;
      Encode(size, Writes(m))
  }

  /** `to_bin`: check the size, then perform the writes on a zero-filled buffer. */
  method ToBin(m: CombinationOrderBookDirectoryMessage, size: nat) returns (r: ToBinResult)
    ensures r == Encoding(m, size)
  {
    if size != COMBINATION_ORDER_BOOK_DIRECTORY_MESSAGE_BYTE_COUNT {
      return Rejected(InvalidMessageSize(COMBINATION_ORDER_BOOK_DIRECTORY_MESSAGE_BYTE_COUNT, size));
    }
    r := Serialize(size, Writes(m));
  }

  /** The first unprintable text byte among bytes 0 to 92 is the one the identity reads report. */
  lemma ReadIdentityStops(data: seq<u8>, k: nat)
    requires 92 <= |data| && FirstBadText(data, 0, 92, k)
    ensures ReadIdentity(data) == Err(NonISO88591Value(ByteToChar(data[k])))
  {
    if k == 0 {
      AlphaAtStopsAt(data, 0, 1, k);
    } else if k < 41 {
      AlphaAtStopsAt(data, 9, 32, k);
    } else if k < 73 {
      AlphaAtStopsAt(data, 41, 32, k);
    } else {
      AlphaAtStopsAt(data, 80, 12, k);
    }
  }

  /** The first unprintable text byte among bytes 92 to 120 is the one the terms reads report. */
  lemma ReadTermsStops(data: seq<u8>, k: nat)
    requires 120 <= |data| && FirstBadText(data, 92, 120, k)
    ensures ReadTerms(data) == Err(NonISO88591Value(ByteToChar(data[k])))
  {
    AlphaAtStopsAt(data, 93, 3, k);
  }

  /** The first unprintable text byte of a leg is the one its reads report. */
  lemma ReadLegStops(data: seq<u8>, offset: nat, k: nat)
    requires offset in {LEG_1_SYMBOL_BYTE_OFFSET, LEG_2_SYMBOL_BYTE_OFFSET, LEG_3_SYMBOL_BYTE_OFFSET, LEG_4_SYMBOL_BYTE_OFFSET}
    requires offset + 37 <= |data| && FirstBadText(data, offset, offset + 37, k)
    ensures ReadLeg(data, offset) == Err(NonISO88591Value(ByteToChar(data[k])))
  {
    if k < offset + 32 {
      AlphaAtStopsAt(data, offset, 32, k);
    } else {
      AlphaAtStopsAt(data, offset + 32, 1, k);
    }
  }

  /**
   * A buffer of the right size whose text bytes are all printable is
   * decoded field by field and handed to `new`.
   */
  lemma FromBinDecodes(data: seq<u8>)
    requires |data| == 268 && TextPrintable(data)
    ensures FromBin(data) == New(Decoded(data))
  {
    TextPrintableByField(data);
    assert ReadIdentity(data) == Ok(IdentityOf(data));
    assert ReadTerms(data) == Ok(TermsOf(data));
    assert ReadLeg(data, 120) == Ok(LegOf(data, 120));
    assert ReadLeg(data, 157) == Ok(LegOf(data, 157));
    assert ReadLeg(data, 194) == Ok(LegOf(data, 194));
    assert ReadLeg(data, 231) == Ok(LegOf(data, 231));
  }

  /** A buffer decodes only if all its text bytes are printable, and then into the message its fields spell. */
  lemma DecodedOnlyIfPrintable(data: seq<u8>)
    requires FromBin(data).Ok?
    ensures |data| == 268 && TextPrintable(data) && FromBin(data).value == Decoded(data)
  {
    assert ReadIdentity(data).Ok? && ReadTerms(data).Ok?;
    assert ReadLeg(data, 120).Ok? && ReadLeg(data, 157).Ok?;
    assert ReadLeg(data, 194).Ok? && ReadLeg(data, 231).Ok?;
    TextPrintableByField(data);
  }

  /** A field lying wholly in text positions of a printable stretch is printable. */
  lemma PrintableField(data: seq<u8>, hi: nat, offset: nat, size: nat)
    requires hi <= |data| && TextPrintableIn(data, 0, hi) && offset + size <= hi
    requires forall i :: offset <= i < offset + size ==> InText(i)
    ensures PrintableRange(data, offset, size)
  {
  }

  /** The stages whose text lies wholly before position k succeed when the text before k is printable. */
  lemma StagesPrintableBefore(data: seq<u8>, k: nat)
    requires |data| == 268 && k <= 268 && TextPrintableIn(data, 0, k)
    ensures k >= 92 ==> ReadIdentity(data).Ok?
    ensures k >= 120 ==> ReadTerms(data).Ok?
    ensures k >= 157 ==> ReadLeg(data, 120).Ok?
    ensures k >= 194 ==> ReadLeg(data, 157).Ok?
    ensures k >= 231 ==> ReadLeg(data, 194).Ok?
  {
    if k >= 92 {
      PrintableField(data, k, 0, 1);
      PrintableField(data, k, 9, 32);
      PrintableField(data, k, 41, 32);
      PrintableField(data, k, 80, 12);
    }
    if k >= 120 {
      PrintableField(data, k, 93, 3);
    }
    if k >= 157 {
      PrintableField(data, k, 120, 32);
      PrintableField(data, k, 152, 1);
    }
    if k >= 194 {
      PrintableField(data, k, 157, 32);
      PrintableField(data, k, 189, 1);
    }
    if k >= 231 {
      PrintableField(data, k, 194, 32);
      PrintableField(data, k, 226, 1);
    }
  }

  /**
   * The text fields are read in ascending order of offset and the numeric
   * reads between them cannot fail, so the error reported for a buffer of
   * the right size is the first unprintable text byte of the whole buffer.
   */
  lemma FirstUnprintableReported(data: seq<u8>, k: nat)
    requires |data| == 268 && FirstBadText(data, 0, 268, k)
    ensures FromBin(data) == Err(NonISO88591Value(ByteToChar(data[k])))
  {
    StagesPrintableBefore(data, k);
    if k < 92 {
      ReadIdentityStops(data, k);
    } else if k < 120 {
      ReadTermsStops(data, k);
    } else if k < 157 {
      ReadLegStops(data, 120, k);
    } else if k < 194 {
      ReadLegStops(data, 157, k);
    } else if k < 231 {
      ReadLegStops(data, 194, k);
    } else {
      ReadLegStops(data, 231, k);
    }
  }

  /** The identity reads see only bytes 0 to 73 and 80 to 92. */
  lemma IdentityLocal(a: seq<u8>, b: seq<u8>)
    requires |a| == 268 && |b| == 268
    requires forall i :: 0 <= i < 73 || 80 <= i < 92 ==> a[i] == b[i]
    ensures ReadIdentity(a) == ReadIdentity(b)
  {
    FieldsLocal(a, b, 0, 1);
    FieldsLocal(a, b, 1, 4);
    FieldsLocal(a, b, 5, 4);
    FieldsLocal(a, b, 9, 32);
    FieldsLocal(a, b, 41, 32);
    FieldsLocal(a, b, 80, 12);
  }

  /** The terms reads see only bytes 92 to 120. */
  lemma TermsLocal(a: seq<u8>, b: seq<u8>)
    requires |a| == 268 && |b| == 268
    requires forall i :: 92 <= i < 120 ==> a[i] == b[i]
    ensures ReadTerms(a) == ReadTerms(b)
  {
    FieldsLocal(a, b, 92, 1);
    FieldsLocal(a, b, 93, 3);
    FieldsLocal(a, b, 96, 2);
    FieldsLocal(a, b, 98, 2);
    FieldsLocal(a, b, 100, 4);
    FieldsLocal(a, b, 104, 4);
    FieldsLocal(a, b, 108, 4);
    FieldsLocal(a, b, 112, 8);
  }

  /** A leg's reads see only the leg's 37 bytes. */
  lemma LegLocal(a: seq<u8>, b: seq<u8>, offset: nat)
    requires offset + 37 <= |a| && offset + 37 <= |b|
    requires forall i :: offset <= i < offset + 37 ==> a[i] == b[i]
    ensures ReadLeg(a, offset) == ReadLeg(b, offset)
  {
    assert a[offset..offset + 37] == b[offset..offset + 37];
    ReadLegOfBytes(a, b, offset);
  }

  lemma ReadLegOfBytes(a: seq<u8>, b: seq<u8>, offset: nat)
    requires offset + 37 <= |a| && offset + 37 <= |b|
    requires a[offset..offset + 37] == b[offset..offset + 37]
    ensures ReadLeg(a, offset) == ReadLeg(b, offset)
  {
    forall i | offset <= i < offset + 37
      ensures a[i] == b[i]
    {
      assert a[i] == a[offset..offset + 37][i - offset];
    }
    assert a[offset + 33..offset + 37] == b[offset + 33..offset + 37];
    NumericLocal(a, b, offset + 33, 4);
    AlphaLocal(a, b, offset, 32);
    AlphaLocal(a, b, offset + 32, 1);
    ReadLegOfFields(a, b, offset);
  }

  /** Buffers whose leg fields read alike give the same leg. */
  lemma ReadLegOfFields(a: seq<u8>, b: seq<u8>, offset: nat)
    requires offset + 37 <= |a| && offset + 37 <= |b|
    requires AlphaAt(a, offset, 32) == AlphaAt(b, offset, 32)
    requires AlphaAt(a, offset + 32, 1) == AlphaAt(b, offset + 32, 1)
    requires NumericAt(a, offset + 33, 4) == NumericAt(b, offset + 33, 4)
    ensures ReadLeg(a, offset) == ReadLeg(b, offset)
  {
  }

  /**
   * Bytes 73 to 80, between the long name and the ISIN, are never read:
   * buffers that differ only there decode alike.
   */
  lemma GapIgnored(a: seq<u8>, b: seq<u8>)
    requires |a| == 268 && |b| == 268
    requires forall i :: 0 <= i < 73 || 80 <= i < 268 ==> a[i] == b[i]
    ensures FromBin(a) == FromBin(b)
  {
    IdentityLocal(a, b);
    TermsLocal(a, b);
    LegLocal(a, b, 120);
    LegLocal(a, b, 157);
    LegLocal(a, b, 194);
    LegLocal(a, b, 231);
  }

  /**
   * A decoded financial product fits in one byte, so the cast to `u8` in
   * `validate_fields` loses nothing, and four decoded 4-byte ratios sum to
   * less than 2^34, so their `u128` sum cannot overflow.
   */
  lemma DecodedFieldsFit(data: seq<u8>)
    requires |data| == 268
    ensures Decoded(data).financialProduct.value < 0x100
    ensures Decoded(data).leg1Ratio.value + Decoded(data).leg2Ratio.value +
            Decoded(data).leg3Ratio.value + Decoded(data).leg4Ratio.value < 0x4_0000_0000
  {
    Pow256Values();
  }

  /**
   * Only the low 8 bits of the financial product are compared: 0x101 is
   * not a 1-byte `Numeric`, yet a message carrying it passes as if it were 1.
   */
  lemma WideFinancialProductAccepted(m: CombinationOrderBookDirectoryMessage)
    requires Valid(m.(financialProduct := Numeric(1)))
    ensures NumericType.Validate(1, Numeric(0x101)).Err?
    ensures New(m.(financialProduct := Numeric(0x101))).Ok?
  {
    Pow256Values();
  }
}
