/** `Price`: a signed 32-bit value with no constraint and no scaling. */
module PriceType {
  import opened Ints
  import opened DataFeedErrors

  datatype Price = Price(value: i32)

  /** `Price::validate` has no failing branch. */
  function Validate(p: Price): (r: Result<()>)
    ensures r.Ok?
  {
    Ok(())
  }

  /** `Price::new` never fails and keeps the value as given, negative values included. */
  function New(value: i32): (r: Result<Price>)
    ensures r.Ok? && r.value.value == value
  {
    var price := Price(value);
    match Validate(price)
    case Ok(_) => Ok(price)
    case Err(e) => Err(e)
  }
}
