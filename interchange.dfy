/**
  The structured-data value of Resources/InterchangeData.swift: a closed tagged union
  with per-variant accessors, the runtime-cast `get`, the index and key subscripts,
  structural equality and the literal initialisers.

  A Swift `Double` is modelled as a `real`; the runtime casts `as? T` become a closed
  set of target `Shape`s.
*/
module Interchange {
  import opened Wrappers

  datatype InterchangeData =
    | NullValue
    | BooleanValue(b: bool)
    | NumberValue(n: real)
    | StringValue(s: string)
    | ArrayValue(a: seq<InterchangeData>)
    | ObjectValue(o: map<string, InterchangeData>)

  /** `InterchangeData.Error`: the only error the value type throws. */
  datatype Error = IncompatibleType

  // ---------------------------------------------------------------------------
  // Variant predicates and typed accessors

  predicate IsBoolean(v: InterchangeData) { v.BooleanValue? }
  predicate IsNumber(v: InterchangeData) { v.NumberValue? }
  predicate IsString(v: InterchangeData) { v.StringValue? }
  predicate IsArray(v: InterchangeData) { v.ArrayValue? }
  predicate IsObject(v: InterchangeData) { v.ObjectValue? }

  function Bool(v: InterchangeData): Option<bool> {
    match v
    case BooleanValue(b) => Some(b)
    case _ => None
  }

  function Double(v: InterchangeData): Option<real> {
    match v
    case NumberValue(n) => Some(n)
    case _ => None
  }

  function Str(v: InterchangeData): Option<string> {
    match v
    case StringValue(s) => Some(s)
    case _ => None
  }

  function Array(v: InterchangeData): Option<seq<InterchangeData>> {
    match v
    case ArrayValue(a) => Some(a)
    case _ => None
  }

  function Dictionary(v: InterchangeData): Option<map<string, InterchangeData>> {
    match v
    case ObjectValue(o) => Some(o)
    case _ => None
  }

  /** Swift's `Int(Double)`: truncation toward zero. */
  function Truncate(x: real): (r: int)
    ensures x >= 0.0 ==> 0 <= r && r as real <= x < r as real + 1.0
    ensures x < 0.0 ==> r <= 0 && r as real - 1.0 < x <= r as real
  {
    if x >= 0.0 then x.Floor else -((-x).Floor)
  }

  /** The `int` accessor: the truncated number, or nil for every other variant. */
  function Int(v: InterchangeData): (r: Option<int>)
    ensures r.Some? <==> v.NumberValue?
    ensures r.Some? ==> r.value == Truncate(v.n)
  {
    match Double(v)
    case Some(d) => Some(Truncate(d))
    case None => None
  }

  /** The `uint` accessor. `UInt(Double)` traps on a value that truncates below zero. */
  function UInt(v: InterchangeData): (r: Option<nat>)
    requires v.NumberValue? ==> v.n > -1.0
    ensures r.Some? <==> v.NumberValue?
    ensures r.Some? ==> r.value == Truncate(v.n)
  {
    match Double(v)
    case Some(d) => Some(Truncate(d))
    case None => None
  }

  // Throwing accessors: each throws IncompatibleType exactly when its optional accessor is nil.

  function AsBool(v: InterchangeData): Result<bool, Error> {
    match Bool(v)
    case Some(x) => Ok(x)
    case None => Err(IncompatibleType)
  }

  function AsDouble(v: InterchangeData): Result<real, Error> {
    match Double(v)
    case Some(x) => Ok(x)
    case None => Err(IncompatibleType)
  }

  function AsInt(v: InterchangeData): Result<int, Error> {
    match Int(v)
    case Some(x) => Ok(x)
    case None => Err(IncompatibleType)
  }

  function AsUInt(v: InterchangeData): Result<nat, Error>
    requires v.NumberValue? ==> v.n > -1.0
  {
    match UInt(v)
    case Some(x) => Ok(x)
    case None => Err(IncompatibleType)
  }

  function AsString(v: InterchangeData): Result<string, Error> {
    match Str(v)
    case Some(x) => Ok(x)
    case None => Err(IncompatibleType)
  }

  function AsArray(v: InterchangeData): Result<seq<InterchangeData>, Error> {
    match Array(v)
    case Some(x) => Ok(x)
    case None => Err(IncompatibleType)
  }

  function AsDictionary(v: InterchangeData): Result<map<string, InterchangeData>, Error> {
    match Dictionary(v)
    case Some(x) => Ok(x)
    case None => Err(IncompatibleType)
  }

  /** Each `isX` and each typed accessor answers for exactly its own variant, returns
      that variant's payload, and the matching `asX` throws exactly when the accessor is nil. */
  lemma AccessorsAgree(v: InterchangeData)
    ensures IsBoolean(v) <==> Bool(v).Some?
    ensures IsNumber(v) <==> Double(v).Some?
    ensures IsString(v) <==> Str(v).Some?
    ensures IsArray(v) <==> Array(v).Some?
    ensures IsObject(v) <==> Dictionary(v).Some?
    ensures Bool(v).Some? ==> v == BooleanValue(Bool(v).value)
    ensures Double(v).Some? ==> v == NumberValue(Double(v).value)
    ensures Str(v).Some? ==> v == StringValue(Str(v).value)
    ensures Array(v).Some? ==> v == ArrayValue(Array(v).value)
    ensures Dictionary(v).Some? ==> v == ObjectValue(Dictionary(v).value)
    ensures AsBool(v).ToOption() == Bool(v)
    ensures AsDouble(v).ToOption() == Double(v)
    ensures AsInt(v).ToOption() == Int(v)
    ensures (v.NumberValue? ==> v.n > -1.0) ==> AsUInt(v).ToOption() == UInt(v)
    ensures AsString(v).ToOption() == Str(v)
    ensures AsArray(v).ToOption() == Array(v)
    ensures AsDictionary(v).ToOption() == Dictionary(v)
  {
  }

  // ---------------------------------------------------------------------------
  // The runtime cast `get<T>()`, over a closed set of target shapes

  /** The target types `T` a caller can request. `IntShape` stands for `T == Int`:
      the payload of a NumberValue is a Double, and `Double as? Int` never succeeds. */
  datatype Shape = BoolShape | DoubleShape | IntShape | StringShape | ArrayShape | ObjectShape

  /** A payload that a cast produced. */
  datatype Typed =
    | TBool(b: bool)
    | TDouble(d: real)
    | TString(s: string)
    | TArray(a: seq<InterchangeData>)
    | TObject(o: map<string, InterchangeData>)

  function ShapeOf(t: Typed): Shape {
    match t
    case TBool(_) => BoolShape
    case TDouble(_) => DoubleShape
    case TString(_) => StringShape
    case TArray(_) => ArrayShape
    case TObject(_) => ObjectShape
  }

  /** The variant a typed payload is carried in. */
  function Embed(t: Typed): (v: InterchangeData)
    ensures !v.NullValue?
  {
    match t
    case TBool(b) => BooleanValue(b)
    case TDouble(d) => NumberValue(d)
    case TString(s) => StringValue(s)
    case TArray(a) => ArrayValue(a)
    case TObject(o) => ObjectValue(o)
  }

  /** The throwing `get<T>()`: succeeds exactly when some payload of the requested shape is
      what `v` carries, and then returns that payload. */
  function Get(v: InterchangeData, shape: Shape): (r: Result<Typed, Error>)
    ensures r.Ok? ==> ShapeOf(r.value) == shape && Embed(r.value) == v
    ensures r.Err? ==> r.error == IncompatibleType
    ensures r.Err? ==> forall t :: ShapeOf(t) == shape ==> Embed(t) != v
  {
    match (v, shape)
    case (BooleanValue(b), BoolShape) => Ok(TBool(b))
    case (NumberValue(n), DoubleShape) => Ok(TDouble(n))
    case (StringValue(s), StringShape) => Ok(TString(s))
    case (ArrayValue(a), ArrayShape) => Ok(TArray(a))
    case (ObjectValue(o), ObjectShape) => Ok(TObject(o))
    case _ => Err(IncompatibleType)
  }

  /** The optional `get<T>() -> T?`: nil exactly when the throwing form throws. */
  function GetOptional(v: InterchangeData, shape: Shape): (r: Option<Typed>)
    ensures r == Get(v, shape).ToOption()
  {
    match (v, shape)
    case (NullValue, _) => None
    case (BooleanValue(b), BoolShape) => Some(TBool(b))
    case (NumberValue(n), DoubleShape) => Some(TDouble(n))
    case (StringValue(s), StringShape) => Some(TString(s))
    case (ArrayValue(a), ArrayShape) => Some(TArray(a))
    case (ObjectValue(o), ObjectShape) => Some(TObject(o))
    case _ => None
  }

  /** A payload always casts back to itself at its own shape. */
  lemma GetEmbed(t: Typed)
    ensures Get(Embed(t), ShapeOf(t)) == Ok(t)
  {
  }

  /** `NullValue` never yields a value, and no number is ever an `Int`. */
  lemma GetNeverYields(v: InterchangeData, shape: Shape)
    ensures Get(NullValue, shape).Err?
    ensures Get(v, IntShape).Err?
  {
  }

  /** `get<T>(key)`: throws IncompatibleType when the receiver is not an Object, lacks
      the key, or the value at the key is not a `T`. */
  function GetKey(v: InterchangeData, key: string, shape: Shape): (r: Result<Typed, Error>)
    ensures r.Ok? <==> v.ObjectValue? && key in v.o && Get(v.o[key], shape).Ok?
    ensures r.Ok? ==> Embed(r.value) == v.o[key] && ShapeOf(r.value) == shape
    ensures r.Err? ==> r.error == IncompatibleType
  {
    match KeyGet(v, key)
    case Some(value) => Get(value, shape)
    case None => Err(IncompatibleType)
  }

  // ---------------------------------------------------------------------------
  // Subscripts

  /** The index getter: nil for every non-Array, whatever the index. On an Array a negative
      index traps in Swift. */
  function IndexGet(v: InterchangeData, index: int): (r: Option<InterchangeData>)
    requires v.ArrayValue? ==> index >= 0
    ensures r.Some? <==> v.ArrayValue? && index < |v.a|
    ensures r.Some? ==> r.value == v.a[index]
  {
    match v
    case ArrayValue(a) => if index < |a| then Some(a[index]) else None
    case _ => None
  }

  /** The index setter: on an Array with the index in range, only that slot changes and
      nil is stored as NullValue; any other receiver or index leaves the value as it was. On an
      Array a negative index traps in Swift. */
  function IndexSet(v: InterchangeData, index: int, newValue: Option<InterchangeData>): (r: InterchangeData)
    requires v.ArrayValue? ==> index >= 0
    ensures v.ArrayValue? && index < |v.a| ==>
      && r.ArrayValue? && |r.a| == |v.a|
      && r.a[index] == newValue.GetOr(NullValue)
      && forall j :: 0 <= j < |v.a| && j != index ==> r.a[j] == v.a[j]
    ensures !(v.ArrayValue? && index < |v.a|) ==> r == v
  {
    match v
    case ArrayValue(a) =>
      if index < |a| then ArrayValue(a[index := newValue.GetOr(NullValue)]) else v
    case _ => v
  }

  /** The key getter: nil for every non-Object and for a missing key. */
  function KeyGet(v: InterchangeData, key: string): (r: Option<InterchangeData>)
    ensures r.Some? <==> v.ObjectValue? && key in v.o
    ensures r.Some? ==> r.value == v.o[key]
  {
    match v
    case ObjectValue(o) => if key in o then Some(o[key]) else None
    case _ => None
  }

  /** The key setter: on an Object, sets the key (removes it for nil) and keeps every other
      entry; on any other variant it is a no-op. */
  function KeySet(v: InterchangeData, key: string, newValue: Option<InterchangeData>): (r: InterchangeData)
    ensures v.ObjectValue? ==>
      && r.ObjectValue?
      && (newValue.Some? ==> key in r.o && r.o[key] == newValue.value)
      && (newValue.None? ==> key !in r.o)
      && (forall k :: k != key ==> (k in r.o <==> k in v.o))
      && (forall k :: k != key && k in v.o ==> r.o[k] == v.o[k])
    ensures !v.ObjectValue? ==> r == v
  {
    match v
    case ObjectValue(o) =>
      (match newValue
       case Some(x) => ObjectValue(o[key := x])
       case None => ObjectValue(o - {key}))
    case _ => v
  }

  /** Reading a slot back after setting it: the stored value when the set took effect,
      otherwise whatever was there before. */
  lemma IndexGetAfterSet(v: InterchangeData, i: int, j: int, newValue: Option<InterchangeData>)
    requires v.ArrayValue? ==> i >= 0 && j >= 0
    ensures IndexGet(IndexSet(v, i, newValue), j) ==
      if v.ArrayValue? && i < |v.a| && j == i then Some(newValue.GetOr(NullValue)) else IndexGet(v, j)
  {
  }

  lemma KeyGetAfterSet(v: InterchangeData, key: string, other: string, newValue: Option<InterchangeData>)
    ensures KeyGet(KeySet(v, key, newValue), key) == if v.ObjectValue? then newValue else None
    ensures other != key ==> KeyGet(KeySet(v, key, newValue), other) == KeyGet(v, other)
  {
  }

  // ---------------------------------------------------------------------------
  // Equality

  /** The source's `==`: same variant and equal payloads; arrays element by element,
      objects as dictionaries (same keys, equal values at each key). */
  predicate Equals(l: InterchangeData, r: InterchangeData)
  {
    match l
    case NullValue => r.NullValue?
    case BooleanValue(x) => r.BooleanValue? && x == r.b
    case StringValue(x) => r.StringValue? && x == r.s
    case NumberValue(x) => r.NumberValue? && x == r.n
    case ArrayValue(x) =>
      r.ArrayValue? && |x| == |r.a| && forall i :: 0 <= i < |x| ==> Equals(x[i], r.a[i])
    case ObjectValue(x) =>
      r.ObjectValue? && x.Keys == r.o.Keys && forall k :: k in x ==> Equals(x[k], r.o[k])
  }

  /** The source's `==` is exactly structural equality of values: it is reflexive, and it
      never holds across variants. */
  lemma {:induction false} EqualsIsStructural(l: InterchangeData, r: InterchangeData)
    ensures Equals(l, r) <==> l == r
  {
    match l
    case ArrayValue(x) =>
      if r.ArrayValue? && |x| == |r.a| {
        forall i | 0 <= i < |x| ensures Equals(x[i], r.a[i]) <==> x[i] == r.a[i] {
          EqualsIsStructural(x[i], r.a[i]);
        }
        if Equals(l, r) {
          assert x == r.a;
        }
      }
    case ObjectValue(x) =>
      if r.ObjectValue? && x.Keys == r.o.Keys {
        forall k | k in x ensures Equals(x[k], r.o[k]) <==> x[k] == r.o[k] {
          EqualsIsStructural(x[k], r.o[k]);
        }
        if Equals(l, r) {
          assert x == r.o;
        }
      }
    case _ =>
  }

  // ---------------------------------------------------------------------------
  // Literal initialisers

  /** `from(value: Int)` and the integer literal: the integer is widened to a Double. */
  function FromInt(i: int): (r: InterchangeData)
    ensures Int(r) == Some(i)
  {
    NumberValue(i as real)
  }

  /** The dictionary literal's resulting dictionary: pairs are stored in order, so a later
      pair overwrites an earlier one with the same key. */
  function Stored(elements: seq<(string, InterchangeData)>): map<string, InterchangeData>
  {
    if elements == [] then map[]
    else Stored(elements[..|elements| - 1])[elements[|elements| - 1].0 := elements[|elements| - 1].1]
  }

  /** A key is in the literal's dictionary exactly when some pair names it, and its value
      is that of the last such pair. */
  lemma {:induction false} StoredLastWins(elements: seq<(string, InterchangeData)>, key: string)
    ensures key in Stored(elements) <==> exists i :: 0 <= i < |elements| && elements[i].0 == key
    ensures forall i :: 0 <= i < |elements| && elements[i].0 == key &&
                        (forall j :: i < j < |elements| ==> elements[j].0 != key) ==>
                        Stored(elements)[key] == elements[i].1
  {
    if elements != [] {
      var n := |elements| - 1;
      var init := elements[..n];
      StoredLastWins(init, key);
      if key != elements[n].0 {
        if exists i :: 0 <= i < |elements| && elements[i].0 == key {
          var i :| 0 <= i < |elements| && elements[i].0 == key;
          assert init[i].0 == key;
        }
        forall i | 0 <= i < |elements| && elements[i].0 == key &&
                   (forall j :: i < j < |elements| ==> elements[j].0 != key)
          ensures Stored(elements)[key] == elements[i].1
        {
          assert init[i] == elements[i];
          assert forall j :: i < j < |init| ==> init[j].0 != key;
        }
      }
    }
  }

  /** The dictionary literal `[k1: v1, k2: v2, ...]`, built by storing the pairs one by one. */
  method DictionaryLiteral(elements: seq<(string, InterchangeData)>) returns (v: InterchangeData)
    ensures v == ObjectValue(Stored(elements))
  {
    var dictionary: map<string, InterchangeData> := map[];
    for i := 0 to |elements|
      invariant dictionary == Stored(elements[..i])
    {
      assert elements[..i + 1][..i] == elements[..i];
      dictionary := dictionary[elements[i].0 := elements[i].1];
    }
    assert elements[..|elements|] == elements;
    v := ObjectValue(dictionary);
  }
}
