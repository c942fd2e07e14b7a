/** `Numeric<SIZE>`: an unsigned value held in a `u128`, checked against a byte width. */
module NumericType {
  import opened Ints
  import opened DataFeedErrors

  /** The widths, in bytes, for which a numeric field is defined. */
  const VALID_NUMERIC_SIZES: seq<nat> := [1, 2, 4, 8, 16]

  const INVALID_SIZE_MESSAGE: string := "An invalid SIZE value was provided for Numeric type."

  const U8_MIN: int := 0
  const U8_MAX: int := 0xFF
  const U16_MIN: int := 0
  const U16_MAX: int := 0xFFFF
  const U32_MIN: int := 0
  const U32_MAX: int := 0xFFFF_FFFF
  const U64_MIN: int := 0
  const U64_MAX: int := 0xFFFF_FFFF_FFFF_FFFF

  /** Rust's `Numeric<SIZE>` carries the width as a const generic; here it is passed to each operation. */
  datatype Numeric = Numeric(value: u128)

  /**
   * `validate`: a range check per width. The comparisons against the MIN
   * constants are kept as written; they cannot fail for an unsigned value.
   */
  function Validate(size: nat, n: Numeric): (r: Result<()>)
    ensures r.Ok? <==> size in VALID_NUMERIC_SIZES && n.value < Pow256(size)
    ensures r.Err? && size in VALID_NUMERIC_SIZES ==> r.error == InvalidNumericSize(size)
    ensures size !in VALID_NUMERIC_SIZES ==> r == Err(Other(INVALID_SIZE_MESSAGE))
  {
    Pow256Values();
    match size
    case 1 =>
      if n.value < U8_MIN || n.value > U8_MAX then Err(InvalidNumericSize(size)) else Ok(())
    case 2 =>
      if n.value < U16_MIN || n.value > U16_MAX then Err(InvalidNumericSize(size)) else Ok(())
    case 4 =>
      if n.value < U32_MIN || n.value > U32_MAX then Err(InvalidNumericSize(size)) else Ok(())
    case 8 =>
      if n.value < U64_MIN || n.value > U64_MAX then Err(InvalidNumericSize(size)) else Ok(())
    case 16 =>
      Ok(())
    case _ =>
      Err(Other(INVALID_SIZE_MESSAGE))
  }

  /** `Numeric::new`: build the value, then validate it. */
  function New(size: nat, value: u128): (r: Result<Numeric>)
    ensures r.Ok? <==> size in VALID_NUMERIC_SIZES && value < Pow256(size)
    ensures r.Ok? ==> r.value == Numeric(value)
    ensures r.Err? ==> r.error == Validate(size, Numeric(value)).error
  {
    var numeric := Numeric(value);
    var _ :- Validate(size, numeric);
    Ok(numeric)
  }

  /** The width checks at their boundaries, and the sizes that take the `Other` branch. */
  lemma NewBoundaries()
    ensures New(1, 255) == Ok(Numeric(255))
    ensures New(1, 256) == Err(InvalidNumericSize(1))
    ensures New(2, 65535) == Ok(Numeric(65535))
    ensures New(2, 65536) == Err(InvalidNumericSize(2))
    ensures New(16, U128_MAX) == Ok(Numeric(U128_MAX))
    ensures New(3, 0) == Err(Other(INVALID_SIZE_MESSAGE))
    ensures New(12, 0) == Err(Other(INVALID_SIZE_MESSAGE))
  {
    Pow256Values();
  }

  /** The listed sizes are exactly those for which `validate` never reports `Other`. */
  lemma ValidSizesAvoidOther(size: nat, v: u128)
    ensures Validate(size, Numeric(v)) == Err(Other(INVALID_SIZE_MESSAGE)) <==> size !in VALID_NUMERIC_SIZES
  {
  }
}
