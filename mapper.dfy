/**
  The extraction engine of Sources/Mapper.swift and the `Mappable` protocol of
  Sources/Mappable.swift.

  A `Mapper` wraps one immutable value. Each extraction comes in four flavours, chosen in
  Swift by overload resolution on the target type `T`:
  - plain: the runtime cast `get<T>()`, here a target `Shape`;
  - `Convertible`: the type's own `fromCustomInterchangeData`, here a parameter `conv`;
  - `RawRepresentable`: a cast to the raw type, then the case lookup `T(rawValue:)`,
    here a raw `Shape` and a parameter `init`;
  - `Mappable`: `T(map:)` over a fresh Mapper, here a parameter `build`.
*/
module Mapping {
  import opened Wrappers
  import opened Interchange
  import opened Sequences

  /** `Mapper`: a wrapper around exactly one value, its `interchangeData`. */
  datatype Mapper = Mapper(subject: InterchangeData)

  /** Everything an extraction can throw: `Mapper.Error`, `UnwrapError`, the value type's
      own error, and any other error a `Mappable` initialiser throws. */
  datatype MapError =
    | CantInitFromRawValue
    | NoInterchangeData(key: string)
    | RawIntNotSupported
    | TryingToUnwrapNil
    | Incompatible
    | Thrown(code: int)

  /** Rethrows the value type's IncompatibleType unchanged. */
  function Rethrow<T>(r: Result<T, Error>): (r': Result<T, MapError>)
    ensures r'.Ok? <==> r.Ok?
    ensures r'.Ok? ==> r'.value == r.value
    ensures r'.Err? ==> r'.error == Incompatible
  {
    match r
    case Ok(x) => Ok(x)
    case Err(_) => Err(Incompatible)
  }

  /** `unwrap`: nil becomes `UnwrapError.tryingToUnwrapNil`. */
  function Unwrap<T>(o: Option<T>): (r: Result<T, MapError>)
    ensures r.Ok? <==> o.Some?
    ensures r.Ok? ==> r.value == o.value
    ensures r.Err? ==> r.error == TryingToUnwrapNil
  {
    match o
    case Some(x) => Ok(x)
    case None => Err(TryingToUnwrapNil)
  }

  // ---------------------------------------------------------------------------
  // Required extraction

  /** Plain `from(key)`: exactly the value type's `get(key)`; throws when the key is
      missing or the value there is not of the requested shape. */
  function From(m: Mapper, key: string, shape: Shape): (r: Result<Typed, MapError>)
    ensures r.Ok? <==> KeyGet(m.subject, key).Some? && Get(m.subject.o[key], shape).Ok?
    ensures r.Ok? ==> r.value == Get(m.subject.o[key], shape).value
    ensures r.Err? ==> r.error == Incompatible
  {
    Rethrow(GetKey(m.subject, key, shape))
  }

  /** `Convertible` `from(key)`: a missing key throws `noInterchangeData(key)`; a present key
      whose converter answers nil throws `tryingToUnwrapNil`. */
  function FromConvertible<T>(m: Mapper, key: string, conv: InterchangeData -> Option<T>): (r: Result<T, MapError>)
    ensures KeyGet(m.subject, key).None? ==> r == Err(NoInterchangeData(key))
    ensures KeyGet(m.subject, key).Some? ==>
      var converted := conv(m.subject.o[key]);
      && (r.Ok? <==> converted.Some?)
      && (r.Ok? ==> r.value == converted.value)
      && (r.Err? ==> r.error == TryingToUnwrapNil)
  {
    match KeyGet(m.subject, key)
    case Some(nested) => Unwrap(conv(nested))
    case None => Err(NoInterchangeData(key))
  }

  /** `RawRepresentable` `from(key)`: the raw value is cast at the key with `get(key)`, then
      looked up among the cases. The guard `T.self != Int.self` compares the enumeration
      type itself with Int; no RawRepresentable type is Int, so the guard never throws. */
  function FromRaw<T>(m: Mapper, key: string, rawShape: Shape, init: Typed -> Option<T>): (r: Result<T, MapError>)
    ensures GetKey(m.subject, key, rawShape).Err? ==> r == Err(Incompatible)
    ensures GetKey(m.subject, key, rawShape).Ok? ==>
      var found := init(GetKey(m.subject, key, rawShape).value);
      && (r.Ok? <==> found.Some?)
      && (r.Ok? ==> r.value == found.value)
      && (r.Err? ==> r.error == CantInitFromRawValue)
  {
    match GetKey(m.subject, key, rawShape)
    case Err(_) => Err(Incompatible)
    case Ok(raw) =>
      match init(raw)
      case Some(value) => Ok(value)
      case None => Err(CantInitFromRawValue)
  }

  /** `Mappable` `from(key)`: a missing key throws `noInterchangeData(key)`; otherwise the
      result, value or error, is that of `T(map:)` over a fresh Mapper of exactly the value
      at the key. */
  function FromMappable<T>(m: Mapper, key: string, build: Mapper -> Result<T, MapError>): (r: Result<T, MapError>)
    ensures KeyGet(m.subject, key).None? ==> r == Err(NoInterchangeData(key))
    ensures KeyGet(m.subject, key).Some? ==> r == build(Mapper(m.subject.o[key]))
  {
    match KeyGet(m.subject, key)
    case Some(nested) => build(Mapper(nested))
    case None => Err(NoInterchangeData(key))
  }

  /** `Mappable.from(interchangeData:)`: never throws; the value `T(map:)` builds from a
      Mapper of exactly `v`, or nil when it throws. */
  function MappableFrom<T>(v: InterchangeData, build: Mapper -> Result<T, MapError>): (r: Option<T>)
    ensures r.Some? <==> build(Mapper(v)).Ok?
    ensures r.Some? ==> r.value == build(Mapper(v)).value
  {
    match build(Mapper(v))
    case Ok(x) => Some(x)
    case Err(_) => None
  }

  // ---------------------------------------------------------------------------
  // Arrays: the outer lookup may throw; elements that fail are dropped

  /** The outer step of every array form: cast the value at the key to an array. */
  function ArrayAt(m: Mapper, key: string): (r: Result<seq<InterchangeData>, MapError>)
    ensures r.Ok? <==> KeyGet(m.subject, key).Some? && m.subject.o[key].ArrayValue?
    ensures r.Ok? ==> r.value == m.subject.o[key].a
    ensures r.Err? ==> r.error == Incompatible
  {
    match GetKey(m.subject, key, ArrayShape)
    case Ok(TArray(a)) => Ok(a)
    case _ => Err(Incompatible)
  }

  /** Per-element conversions of the four flavours; nil drops the element. */
  function PlainElement(shape: Shape): InterchangeData -> Option<Typed> {
    e => Get(e, shape).ToOption()
  }

  function RawElement<T>(rawShape: Shape, init: Typed -> Option<T>): InterchangeData -> Option<T> {
    e => match Get(e, rawShape) case Ok(raw) => init(raw) case Err(_) => None
  }

  function MappableElement<T>(build: Mapper -> Result<T, MapError>): InterchangeData -> Option<T> {
    e => MappableFrom(e, build)
  }

  /** Plain `fromArray(key)`: throws only when the outer lookup fails; otherwise the elements
      that cast to the shape, in order (see `Sequences.FilterMapSelects`). */
  function FromArray(m: Mapper, key: string, shape: Shape): (r: Result<seq<Typed>, MapError>)
    ensures r.Ok? <==> ArrayAt(m, key).Ok?
    ensures r.Err? ==> r == Err(Incompatible)
    ensures r.Ok? ==> |r.value| <= |ArrayAt(m, key).value|
    ensures r.Ok? ==> r.value == FilterMap(ArrayAt(m, key).value, PlainElement(shape))
  {
    match ArrayAt(m, key)
    case Ok(a) => Ok(FilterMap(a, PlainElement(shape)))
    case Err(e) => Err(e)
  }

  function FromArrayConvertible<T>(m: Mapper, key: string, conv: InterchangeData -> Option<T>): (r: Result<seq<T>, MapError>)
    ensures r.Ok? <==> ArrayAt(m, key).Ok?
    ensures r.Err? ==> r == Err(Incompatible)
    ensures r.Ok? ==> |r.value| <= |ArrayAt(m, key).value|
    ensures r.Ok? ==> r.value == FilterMap(ArrayAt(m, key).value, conv)
  {
    match ArrayAt(m, key)
    case Ok(a) => Ok(FilterMap(a, conv))
    case Err(e) => Err(e)
  }

  function FromArrayRaw<T>(m: Mapper, key: string, rawShape: Shape, init: Typed -> Option<T>): (r: Result<seq<T>, MapError>)
    ensures r.Ok? <==> ArrayAt(m, key).Ok?
    ensures r.Err? ==> r == Err(Incompatible)
    ensures r.Ok? ==> |r.value| <= |ArrayAt(m, key).value|
    ensures r.Ok? ==> r.value == FilterMap(ArrayAt(m, key).value, RawElement(rawShape, init))
  {
    match ArrayAt(m, key)
    case Ok(a) => Ok(FilterMap(a, RawElement(rawShape, init)))
    case Err(e) => Err(e)
  }

  function FromArrayMappable<T>(m: Mapper, key: string, build: Mapper -> Result<T, MapError>): (r: Result<seq<T>, MapError>)
    ensures r.Ok? <==> ArrayAt(m, key).Ok?
    ensures r.Err? ==> r == Err(Incompatible)
    ensures r.Ok? ==> |r.value| <= |ArrayAt(m, key).value|
    ensures r.Ok? ==> r.value == FilterMap(ArrayAt(m, key).value, MappableElement(build))
  {
    match ArrayAt(m, key)
    case Ok(a) => Ok(FilterMap(a, MappableElement(build)))
    case Err(e) => Err(e)
  }

  // ---------------------------------------------------------------------------
  // Optionals: every failure folds into nil

  /** Plain `optionalFrom(key)`: nil exactly when `from(key)` throws, else the same value. */
  function OptionalFrom(m: Mapper, key: string, shape: Shape): (r: Option<Typed>)
    ensures r.None? <==> From(m, key, shape).Err?
    ensures r.Some? ==> r.value == From(m, key, shape).value
  {
    match From(m, key, shape)
    case Ok(x) => Some(x)
    case Err(_) => None
  }

  /** `Convertible` `optionalFrom(key)`: nil when the key is absent, otherwise the converter's
      answer; so it is nil exactly when the required form throws. */
  function OptionalFromConvertible<T>(m: Mapper, key: string, conv: InterchangeData -> Option<T>): (r: Option<T>)
    ensures r == FromConvertible(m, key, conv).ToOption()
  {
    match KeyGet(m.subject, key)
    case Some(nested) => conv(nested)
    case None => None
  }

  function OptionalFromRaw<T>(m: Mapper, key: string, rawShape: Shape, init: Typed -> Option<T>): (r: Option<T>)
    ensures r.None? <==> FromRaw(m, key, rawShape, init).Err?
    ensures r.Some? ==> r.value == FromRaw(m, key, rawShape, init).value
  {
    match FromRaw(m, key, rawShape, init)
    case Ok(x) => Some(x)
    case Err(_) => None
  }

  function OptionalFromMappable<T>(m: Mapper, key: string, build: Mapper -> Result<T, MapError>): (r: Option<T>)
    ensures r.None? <==> FromMappable(m, key, build).Err?
    ensures r.Some? ==> r.value == FromMappable(m, key, build).value
  {
    match FromMappable(m, key, build)
    case Ok(x) => Some(x)
    case Err(_) => None
  }

  // Optional arrays: nil exactly when the outer lookup fails, else the array form's result.

  function OptionalFromArray(m: Mapper, key: string, shape: Shape): (r: Option<seq<Typed>>)
    ensures r.None? <==> ArrayAt(m, key).Err?
    ensures r.Some? ==> FromArray(m, key, shape) == Ok(r.value)
  {
    match ArrayAt(m, key)
    case Ok(a) => Some(FilterMap(a, PlainElement(shape)))
    case Err(_) => None
  }

  function OptionalFromArrayConvertible<T>(m: Mapper, key: string, conv: InterchangeData -> Option<T>): (r: Option<seq<T>>)
    ensures r.None? <==> ArrayAt(m, key).Err?
    ensures r.Some? ==> FromArrayConvertible(m, key, conv) == Ok(r.value)
  {
    match ArrayAt(m, key)
    case Ok(a) => Some(FilterMap(a, conv))
    case Err(_) => None
  }

  function OptionalFromArrayRaw<T>(m: Mapper, key: string, rawShape: Shape, init: Typed -> Option<T>): (r: Option<seq<T>>)
    ensures r.None? <==> ArrayAt(m, key).Err?
    ensures r.Some? ==> FromArrayRaw(m, key, rawShape, init) == Ok(r.value)
  {
    match ArrayAt(m, key)
    case Ok(a) => Some(FilterMap(a, RawElement(rawShape, init)))
    case Err(_) => None
  }

  function OptionalFromArrayMappable<T>(m: Mapper, key: string, build: Mapper -> Result<T, MapError>): (r: Option<seq<T>>)
    ensures r.None? <==> ArrayAt(m, key).Err?
    ensures r.Some? ==> FromArrayMappable(m, key, build) == Ok(r.value)
  {
    match ArrayAt(m, key)
    case Ok(a) => Some(FilterMap(a, MappableElement(build)))
    case Err(_) => None
  }

  // ---------------------------------------------------------------------------
  // Properties across the forms

  /** `rawIntNotSupported` is never thrown, and an enumeration backed by Int always fails
      with IncompatibleType: a number is never `as? Int`. */
  lemma RawIntGuardIsDead<T>(m: Mapper, key: string, rawShape: Shape, init: Typed -> Option<T>)
    ensures FromRaw(m, key, rawShape, init) != Err(RawIntNotSupported)
    ensures FromRaw(m, key, IntShape, init) == Err(Incompatible)
    ensures OptionalFromRaw(m, key, IntShape, init) == None
  {
    if KeyGet(m.subject, key).Some? {
      GetNeverYields(m.subject.o[key], IntShape);
    }
  }

  /** A missing key: every required form throws (Convertible and Mappable with the key),
      every optional form is nil, every array form throws IncompatibleType. */
  lemma MissingKey<T>(m: Mapper, key: string, shape: Shape, rawShape: Shape,
                      conv: InterchangeData -> Option<T>, init: Typed -> Option<T>,
                      build: Mapper -> Result<T, MapError>)
    requires KeyGet(m.subject, key).None?
    ensures From(m, key, shape) == Err(Incompatible)
    ensures FromConvertible(m, key, conv) == Err(NoInterchangeData(key))
    ensures FromRaw(m, key, rawShape, init) == Err(Incompatible)
    ensures FromMappable(m, key, build) == Err(NoInterchangeData(key))
    ensures OptionalFrom(m, key, shape).None? && OptionalFromConvertible(m, key, conv).None?
    ensures OptionalFromRaw(m, key, rawShape, init).None? && OptionalFromMappable(m, key, build).None?
    ensures FromArray(m, key, shape).Err? && OptionalFromArray(m, key, shape).None?
  {
  }

  /** A nested Mappable is all or nothing: the required form yields what `T(map:)` built
      over exactly the sub-value, the optional form yields that same value or nil, and an
      error of the nested build reaches the caller unchanged. */
  lemma {:induction false} NestedAllOrNothing<T>(m: Mapper, key: string, build: Mapper -> Result<T, MapError>)
    requires KeyGet(m.subject, key).Some?
    ensures var inner := build(Mapper(m.subject.o[key]));
      && (inner.Err? ==> FromMappable(m, key, build) == Err(inner.error))
      && (inner.Err? ==> OptionalFromMappable(m, key, build) == None)
      && (inner.Ok? ==> OptionalFromMappable(m, key, build) == Some(inner.value))
      && MappableFrom(m.subject.o[key], build) == OptionalFromMappable(m, key, build)
  {
  }
}
