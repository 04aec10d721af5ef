/**
  `mapThrough` and `flatMapThrough` of Sources/InterchangeData.swift, and the same members
  with the same bodies in Sources/StructuredData.swift (written against a later revision
  of the value type), together with that file's `mapper` property.
*/
module Through {
  import opened Wrappers
  import opened Interchange
  import opened Sequences
  import Mapping

  /** What the through-forms throw: the value type's IncompatibleType, or the error the
      transform threw, rethrown unchanged. */
  datatype Thrown<E> = Incompatible | Rethrown(error: E)

  function RethrowAll<T, E>(r: Result<T, E>): (r': Result<T, Thrown<E>>)
    ensures r'.Ok? <==> r.Ok?
    ensures r'.Ok? ==> r'.value == r.value
    ensures r'.Err? ==> r'.error == Rethrown(r.error)
  {
    match r
    case Ok(x) => Ok(x)
    case Err(e) => Err(Rethrown(e))
  }

  /** The `mapper` property: a Mapper over exactly this value. */
  function MapperOf(v: InterchangeData): (m: Mapping.Mapper)
    ensures m.subject == v
  {
    Mapping.Mapper(v)
  }

  /** `mapThrough(transform)`: on an Array, the transform of every element in order, or the
      first error it throws; on any other variant, IncompatibleType. */
  function MapThrough<T, E>(v: InterchangeData, transform: InterchangeData -> Result<T, E>): (r: Result<seq<T>, Thrown<E>>)
    ensures !v.ArrayValue? ==> r == Err(Incompatible)
    ensures v.ArrayValue? ==> r == RethrowAll(MapAll(v.a, transform))
    ensures r.Ok? ==>
      && v.ArrayValue? && |r.value| == |v.a|
      && forall i :: 0 <= i < |v.a| ==> r.value[i] == transform(v.a[i]).value
  {
    match Array(v)
    case Some(elements) => RethrowAll(MapAll(elements, transform))
    case None => Err(Incompatible)
  }

  /** `mapThrough(key, transform)`: IncompatibleType when `self[key]` is nil, otherwise the
      unkeyed form over the value at the key. */
  function MapThroughKey<T, E>(v: InterchangeData, key: string, transform: InterchangeData -> Result<T, E>): (r: Result<seq<T>, Thrown<E>>)
    ensures KeyGet(v, key).None? ==> r == Err(Incompatible)
    ensures KeyGet(v, key).Some? ==> r == MapThrough(v.o[key], transform)
  {
    match KeyGet(v, key)
    case Some(value) => MapThrough(value, transform)
    case None => Err(Incompatible)
  }

  /** `flatMapThrough(transform)`: on an Array, the non-nil transform results in order, or the
      first error the transform throws; on any other variant, IncompatibleType. */
  function FlatMapThrough<T, E>(v: InterchangeData, transform: InterchangeData -> Result<Option<T>, E>): (r: Result<seq<T>, Thrown<E>>)
    ensures !v.ArrayValue? ==> r == Err(Incompatible)
    ensures v.ArrayValue? ==> r == RethrowAll(FlatMapAll(v.a, transform))
    ensures r.Ok? ==> v.ArrayValue? && |r.value| <= |v.a|
  {
    match Array(v)
    case Some(elements) => RethrowAll(FlatMapAll(elements, transform))
    case None => Err(Incompatible)
  }

  function FlatMapThroughKey<T, E>(v: InterchangeData, key: string, transform: InterchangeData -> Result<Option<T>, E>): (r: Result<seq<T>, Thrown<E>>)
    ensures KeyGet(v, key).None? ==> r == Err(Incompatible)
    ensures KeyGet(v, key).Some? ==> r == FlatMapThrough(v.o[key], transform)
  {
    match KeyGet(v, key)
    case Some(value) => FlatMapThrough(value, transform)
    case None => Err(Incompatible)
  }

  /** A transform error is propagated, never skipped: if the transform throws on some element
      of an Array, `mapThrough` and `flatMapThrough` throw the error of the first such
      element. */
  lemma {:induction false} TransformErrorsPropagate<T, E>(
      v: InterchangeData, i: nat,
      transform: InterchangeData -> Result<T, E>, partial: InterchangeData -> Result<Option<T>, E>)
    requires v.ArrayValue? && i < |v.a|
    requires transform(v.a[i]).Err? && partial(v.a[i]).Err?
    requires forall j :: 0 <= j < i ==> transform(v.a[j]).Ok? && partial(v.a[j]).Ok?
    ensures MapThrough(v, transform) == Err(Rethrown(transform(v.a[i]).error))
    ensures FlatMapThrough(v, partial) == Err(Rethrown(partial(v.a[i]).error))
  {
    var r := MapAll(v.a, transform);
    assert r.Err?;
    var k :| 0 <= k < |v.a| && transform(v.a[k]) == Err(r.error) && forall j :: 0 <= j < k ==> transform(v.a[j]).Ok?;
    assert k == i;
    var q := FlatMapAll(v.a, partial);
    assert q.Err?;
    var l :| 0 <= l < |v.a| && partial(v.a[l]) == Err(q.error) && forall j :: 0 <= j < l ==> partial(v.a[j]).Ok?;
    assert l == i;
  }
}
