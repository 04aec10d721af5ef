/**
  The integer conversions of Resources/Convertible.swift, Sources/Convertible.swift and
  Sources/Initializable.swift. The first two have the same body (the second is written
  against a later revision of the value type) and are modelled by one function.
*/
module Conversions {
  import opened Wrappers
  import opened Interchange

  /** `Int.fromCustomInterchangeData` and `Int.from(customInterchangeData:)`: the truncated
      number, or nil for every other variant. Failure is signalled only by nil. */
  function IntFromCustom(v: InterchangeData): (r: Option<int>)
    ensures r.Some? <==> v.NumberValue?
    ensures r.Some? ==> r.value == Truncate(v.n)
  {
    match v
    case NumberValue(number) => Some(Truncate(number))
    case _ => None
  }

  /** `ConvertibleError`, declared in all three files; only the initialiser raises it. */
  datatype ConvertibleError = CantBindToNeededType

  /** The throwing `Int.init(interchangeData:)`: a number initialises to its truncation,
      every other variant throws `cantBindToNeededType`. */
  function IntInit(v: InterchangeData): (r: Result<int, ConvertibleError>)
    ensures r.Ok? <==> v.NumberValue?
    ensures r.Err? ==> r.error == CantBindToNeededType
    ensures r.ToOption() == IntFromCustom(v)
  {
    match v
    case NumberValue(number) => Ok(Truncate(number))
    case _ => Err(CantBindToNeededType)
  }

  /** An integral number converts back to the same integer, whichever conversion is used;
      in particular a Number payload of 5.0 converts to 5. */
  lemma {:induction false} IntegralNumbersUnchanged(k: int)
    ensures IntFromCustom(FromInt(k)) == Some(k)
    ensures IntInit(NumberValue(k as real)) == Ok(k)
    ensures IntInit(NumberValue(5.0)) == Ok(5)
  {
    var t := Truncate(k as real);
    assert t == k;
  }
}
