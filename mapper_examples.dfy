/**
  The behaviour the mapper's tests check (TopoTests/ and Tests/InterchangeDataMapper/),
  stated over the model: concrete documents, concrete domain types, concrete results.
*/
module MapperExamples {
  import opened Wrappers
  import opened Interchange
  import opened Sequences
  import opened Mapping
  import opened Conversions

  /** A one-key document `[key: value]`. */
  function Doc(key: string, value: InterchangeData): Mapper {
    Mapper(ObjectValue(map[key := value]))
  }

  /** `["strings": ["first", "second", 3]]` as `[String]`: the number is dropped, the strings
      keep their order, and nothing is thrown. */
  lemma PartiallyInvalidArray()
    ensures FromArray(Doc("strings", ArrayValue([StringValue("first"), StringValue("second"), NumberValue(3.0)])), "strings", StringShape)
            == Ok([TString("first"), TString("second")])
  {
    var a := [StringValue("first"), StringValue("second"), NumberValue(3.0)];
    var f := PlainElement(StringShape);
    assert f(a[0]) == Some(TString("first")) && f(a[1]) == Some(TString("second")) && f(a[2]) == None;
    assert FilterMap(a[..1], f) == [TString("first")] by { assert a[..1][..0] == []; }
    assert FilterMap(a[..2], f) == [TString("first"), TString("second")] by { assert a[..2][..1] == a[..1]; }
    assert FilterMap(a, f) == [TString("first"), TString("second")] by { assert a[..2] == [a[0], a[1]]; }
    assert ArrayAt(Doc("strings", ArrayValue(a)), "strings") == Ok(a);
  }

  /** Required extraction from `[:]` throws; the optional form falls back to nil. */
  lemma MissingKeyExample(key: string)
    ensures From(Mapper(ObjectValue(map[])), key, StringShape) == Err(Incompatible)
    ensures OptionalFrom(Mapper(ObjectValue(map[])), key, StringShape) == None
    ensures OptionalFrom(Mapper(NullValue), key, StringShape) == None
    ensures OptionalFromArray(Mapper(NullValue), key, StringShape) == None
  {
  }

  /** `optionalFromArray("whiskey")` on `["whiskey": ["lera", "lynn"]]`. */
  lemma OptionalExistingArray()
    ensures OptionalFromArray(Doc("whiskey", ArrayValue([StringValue("lera"), StringValue("lynn")])), "whiskey", StringShape)
            == Some([TString("lera"), TString("lynn")])
  {
    var a := [StringValue("lera"), StringValue("lynn")];
    var f := PlainElement(StringShape);
    assert f(a[0]) == Some(TString("lera")) && f(a[1]) == Some(TString("lynn"));
    assert FilterMap(a[..1], f) == [TString("lera")] by { assert a[..1][..0] == []; }
    assert FilterMap(a, f) == [TString("lera"), TString("lynn")] by { assert a[..1] == [a[0]]; }
    assert ArrayAt(Doc("whiskey", ArrayValue(a)), "whiskey") == Ok(a);
  }

  /** `enum Barney: String { case Stinson, Awesome, Legendary }`. */
  datatype Barney = Stinson | Awesome | Legendary

  function BarneyFromRaw(raw: Typed): Option<Barney> {
    match raw
    case TString(s) =>
      if s == "Stinson" then Some(Stinson)
      else if s == "Awesome" then Some(Awesome)
      else if s == "Legendary" then Some(Legendary)
      else None
    case _ => None
  }

  lemma BarneyRawValues()
    ensures BarneyFromRaw(TString("Legendary")) == Some(Legendary)
    ensures BarneyFromRaw(TString("Stinson")) == Some(Stinson)
    ensures BarneyFromRaw(TString("Captain")) == None
  {
    assert "Legendary"[0] != "Stinson"[0] && "Legendary"[0] != "Awesome"[0];
    assert "Captain"[0] != "Stinson"[0] && "Captain"[0] != "Awesome"[0] && "Captain"[0] != "Legendary"[0];
  }

  /** `["barneys": ["Legendary", "Stinson", "Captain"]]` as `[Barney]`: the unknown raw value
      is dropped and the others keep their order; as an optional array, the same. */
  lemma RawPartialArray()
    ensures FromArrayRaw(Doc("barneys", ArrayValue([StringValue("Legendary"), StringValue("Stinson"), StringValue("Captain")])),
                         "barneys", StringShape, BarneyFromRaw) == Ok([Legendary, Stinson])
    ensures OptionalFromArrayRaw(Mapper(NullValue), "barneys", StringShape, BarneyFromRaw) == None
  {
    var a := [StringValue("Legendary"), StringValue("Stinson"), StringValue("Captain")];
    var f := RawElement(StringShape, BarneyFromRaw);
    BarneyRawValues();
    assert Get(a[0], StringShape) == Ok(TString("Legendary")) && Get(a[1], StringShape) == Ok(TString("Stinson"));
    assert Get(a[2], StringShape) == Ok(TString("Captain"));
    assert f(a[0]) == Some(Legendary) && f(a[1]) == Some(Stinson) && f(a[2]) == None;
    assert FilterMap(a[..1], f) == [Legendary] by { assert a[..1][..0] == []; }
    assert FilterMap(a[..2], f) == [Legendary, Stinson] by { assert a[..2][..1] == a[..1]; }
    assert FilterMap(a, f) == [Legendary, Stinson] by { assert a[..2] == [a[0], a[1]]; }
    assert ArrayAt(Doc("barneys", ArrayValue(a)), "barneys") == Ok(a);
  }

  /** `enum Value: Double { case First = 1.0 }`. */
  datatype Value = First

  function ValueFromRaw(raw: Typed): Option<Value> {
    match raw
    case TDouble(d) => if d == 1.0 then Some(First) else None
    case _ => None
  }

  /** A Double-backed enumeration is found from `1.0`; a string in its place, or a missing
      key, makes the optional form nil and the required form throw. */
  lemma RawNumberExamples()
    ensures FromRaw(Doc("value", NumberValue(1.0)), "value", DoubleShape, ValueFromRaw) == Ok(First)
    ensures OptionalFromRaw(Doc("value", StringValue("cike")), "value", DoubleShape, ValueFromRaw) == None
    ensures FromRaw(Mapper(NullValue), "value", DoubleShape, ValueFromRaw).Err?
    ensures FromRaw(Doc("value", NumberValue(2.0)), "value", DoubleShape, ValueFromRaw) == Err(CantInitFromRawValue)
  {
  }

  /** `["ints": [1, 5, 7, 9, 11]]` as `[Int]` through the Convertible conversion: the same ints. */
  lemma IntArray()
    ensures FromArrayConvertible(Doc("ints", ArrayValue([FromInt(1), FromInt(5), FromInt(7), FromInt(9), FromInt(11)])),
                                 "ints", IntFromCustom) == Ok([1, 5, 7, 9, 11])
  {
    var a := [FromInt(1), FromInt(5), FromInt(7), FromInt(9), FromInt(11)];
    IntegralNumbersUnchanged(1);
    IntegralNumbersUnchanged(5);
    IntegralNumbersUnchanged(7);
    IntegralNumbersUnchanged(9);
    IntegralNumbersUnchanged(11);
    FilterMapAllSome(a, IntFromCustom);
    var r := FilterMap(a, IntFromCustom);
    assert |r| == 5 && r[0] == 1 && r[1] == 5 && r[2] == 7 && r[3] == 9 && r[4] == 11;
    assert r == [1, 5, 7, 9, 11];
    assert ArrayAt(Doc("ints", ArrayValue(a)), "ints") == Ok(a);
  }

  /** A nested Mappable: `struct Nested { let string: String }` inside `struct Test { let nest: Nested }`. */
  datatype Nested = Nested(str: string)
  datatype Test = Test(nest: Nested)

  function BuildNested(m: Mapper): Result<Nested, MapError> {
    match From(m, "string", StringShape)
    case Ok(TString(s)) => Ok(Nested(s))
    case Ok(_) => Err(Incompatible)
    case Err(e) => Err(e)
  }

  function BuildTest(m: Mapper): Result<Test, MapError> {
    match FromMappable(m, "nest", BuildNested)
    case Ok(n) => Ok(Test(n))
    case Err(e) => Err(e)
  }

  /** `["nest": ["string": "hello"]]` builds; `["nest": ["strong": "er"]]` fails as a whole in
      the required form and is nil, not partly built, in the optional form. */
  lemma NestedExamples()
    ensures BuildTest(Doc("nest", ObjectValue(map["string" := StringValue("hello")]))) == Ok(Test(Nested("hello")))
    ensures BuildTest(Doc("nest", ObjectValue(map["strong" := StringValue("er")]))) == Err(Incompatible)
    ensures OptionalFromMappable(Doc("nest", ObjectValue(map["strong" := StringValue("er")])), "nest", BuildNested) == None
  {
  }
}
