/**
  `InterchangeData.description` of Resources/InterchangeData.swift: an indented rendering in
  which every array element and object member sits on its own line, four spaces deeper than
  its container, followed by a comma unless it is the last, and the closing bracket sits on
  its own line at the container's indent.

  The source keeps the current depth in a captured variable `indentLevel` that
  `serializeArray` and `serializeObject` raise and lower around their loops; the model keeps
  it in the field of a `Describer`. Objects are listed in ascending key order (module
  `KeyOrder`). A number whose truncation equals it is written as a decimal integer; the text
  of any other number is the parameter `fractional`.
*/
module Describing {
  import opened Interchange
  import opened Escaping
  import opened KeyOrder

  /** `indent()` at a depth: four spaces per level. */
  function IndentText(level: nat): (r: string)
    ensures |r| == 4 * level
    ensures forall i :: 0 <= i < |r| ==> r[i] == ' '
  {
    if level == 0 then "" else IndentText(level - 1) + "    "
  }

  // ---------------------------------------------------------------------------
  // Numbers

  function Digit(d: nat): char
    requires d < 10
  {
    "0123456789"[d]
  }

  /** The decimal digits of a natural number, most significant first. */
  function Digits(n: nat): (r: string)
    ensures |r| >= 1
    ensures forall i :: 0 <= i < |r| ==> '0' <= r[i] <= '9'
    decreases n
  {
    if n < 10 then [Digit(n)] else Digits(n / 10) + [Digit(n % 10)]
  }

  /** The value of a string of decimal digits. */
  function DecimalValue(s: string): nat
    requires forall i :: 0 <= i < |s| ==> '0' <= s[i] <= '9'
  {
    if s == [] then 0
    else DecimalValue(s[..|s| - 1]) * 10 + (s[|s| - 1] as int - '0' as int)
  }

  /** The digits read back as the number they were written from. */
  lemma {:induction false} DigitsRoundTrip(n: nat)
    ensures DecimalValue(Digits(n)) == n
    decreases n
  {
    if n >= 10 {
      DigitsRoundTrip(n / 10);
      var s := Digits(n);
      assert s[..|s| - 1] == Digits(n / 10);
      DigitCode(n % 10);
      assert n == n / 10 * 10 + n % 10;
    } else {
      DigitCode(n);
    }
  }

  lemma DigitCode(d: nat)
    requires d < 10
    ensures Digit(d) as int - '0' as int == d
  {
  }

  /** `Int64(n).description`. */
  function IntText(i: int): string {
    if i < 0 then "-" + Digits(-i) else Digits(i)
  }

  /** `n == Double(Int64(n))`. */
  predicate IsIntegral(n: real) {
    n == Truncate(n) as real
  }

  /** `serializeNumber`: an integral number is written as a decimal integer, with a minus
      sign exactly when it is negative; any other number as the floating-point text. */
  function NumberText(n: real, fractional: real -> string): (r: string)
    ensures IsIntegral(n) ==> |r| >= 1 && (r[0] == '-' <==> n < 0.0)
    ensures !IsIntegral(n) ==> r == fractional(n)
  {
    if IsIntegral(n) then IntText(Truncate(n)) else fractional(n)
  }

  /** `Int64(n).description` reads back as `n`: its digits, after the minus sign it has
      exactly when `n` is negative, have the magnitude of `n` as their decimal value. */
  lemma IntTextReadsBack(t: int)
    ensures t >= 0 ==> var r := IntText(t);
      (forall i :: 0 <= i < |r| ==> '0' <= r[i] <= '9') && DecimalValue(r) == t
    ensures t < 0 ==> var r := IntText(t);
      |r| >= 1 && r[0] == '-' &&
      (forall i :: 0 <= i < |r| - 1 ==> '0' <= r[1..][i] <= '9') && DecimalValue(r[1..]) == -t
  {
    if t < 0 {
      var digits := Digits(-t);
      assert ("-" + digits)[1..] == digits;
      DigitsRoundTrip(-t);
    } else {
      DigitsRoundTrip(t);
    }
  }

  /** The text of an integral number reads back as the number. */
  lemma NumberTextReadsBack(n: real, fractional: real -> string)
    requires IsIntegral(n)
    ensures n >= 0.0 ==> var r := NumberText(n, fractional);
      (forall i :: 0 <= i < |r| ==> '0' <= r[i] <= '9') && DecimalValue(r) as real == n
    ensures n < 0.0 ==> var r := NumberText(n, fractional)[1..];
      (forall i :: 0 <= i < |r| ==> '0' <= r[i] <= '9') && -(DecimalValue(r) as real) == n
  {
    var t := Truncate(n);
    assert NumberText(n, fractional) == IntText(t);
    assert n < 0.0 <==> t < 0 by {
      assert t as real == n;
    }
    IntTextReadsBack(t);
  }



  // ---------------------------------------------------------------------------
  // The rendering

  /** The lines of a container after its opening bracket: for each of the first `n` texts, a
      line break, the indent of `level`, the text and, unless it is the last of all the
      texts, a comma. */
  function Entries(texts: seq<string>, n: nat, level: nat): string
    requires n <= |texts|
  {
    if n == 0 then ""
    else Entries(texts, n - 1, level) + "\n" + IndentText(level) + texts[n - 1]
         + (if n - 1 != |texts| - 1 then "," else "")
  }

  lemma MemberTextAt(v: InterchangeData, level: nat, fractional: real -> string, i: nat)
    requires v.ObjectValue? && i < |v.o|
    ensures i < |SortedKeys(v.o.Keys)| && SortedKeys(v.o.Keys)[i] in v.o
    ensures MemberTexts(v, level, fractional)[i]
         == Member(SortedKeys(v.o.Keys)[i], Render(v.o[SortedKeys(v.o.Keys)[i]], level, fractional))
  {
    SortedKeysAreTheKeys(v.o.Keys);
  }

  /** Appending a line break, the indent, the next text and, unless it is the last, a comma
      extends the entries by one. */
  lemma AppendEntry(s: string, open: string, texts: seq<string>, i: nat, level: nat)
    requires i < |texts| && s == open + Entries(texts, i, level)
    ensures i != |texts| - 1 ==> s + "\n" + IndentText(level) + texts[i] + "," == open + Entries(texts, i + 1, level)
    ensures i == |texts| - 1 ==> s + "\n" + IndentText(level) + texts[i] == open + Entries(texts, i + 1, level)
  {
    var e, pad, t := Entries(texts, i, level), IndentText(level), texts[i];
    Associative(open, e, "\n");
    Associative(open, e + "\n", pad);
    Associative(open, e + "\n" + pad, t);
    var line := e + "\n" + pad + t;
    if i != |texts| - 1 {
      Associative(open, line, ",");
    } else {
      assert line + "" == line;
    }
  }

  /** The text of an object member: its escaped key, a colon, a space and its value. */
  function Member(key: string, value: string): string {
    Quote(EscapeBody(key)) + ": " + value
  }

  /** What `description` returns for `v` when the current depth is `level`. */
  ghost function Render(v: InterchangeData, level: nat, fractional: real -> string): string
    decreases v, 1
  {
    match v
    case NullValue => "null"
    case BooleanValue(b) => if b then "true" else "false"
    case NumberValue(n) => NumberText(n, fractional)
    case StringValue(s) => Quote(EscapeBody(s))
    case ArrayValue(a) =>
      "[" + Entries(ElementTexts(v, level + 1, fractional), |a|, level + 1) + "\n" + IndentText(level) + "]"
    case ObjectValue(o) =>
      "{" + Entries(MemberTexts(v, level + 1, fractional), |o|, level + 1) + "\n" + IndentText(level) + "}"
  }

  /** The renderings of an array's elements at `level`. */
  ghost function ElementTexts(v: InterchangeData, level: nat, fractional: real -> string): (r: seq<string>)
    requires v.ArrayValue?
    ensures |r| == |v.a|
    decreases v, 0
  {
    seq(|v.a|, i requires 0 <= i < |v.a| => Render(v.a[i], level, fractional))
  }

  /** The renderings of an object's members at `level`, in ascending key order. */
  ghost function MemberTexts(v: InterchangeData, level: nat, fractional: real -> string): (r: seq<string>)
    requires v.ObjectValue?
    ensures |r| == |v.o|
    decreases v, 0
  {
    var keys := SortedKeys(v.o.Keys);
    SortedKeysAreTheKeys(v.o.Keys);
    assert |keys| == |v.o|;
    seq(|keys|, i requires 0 <= i < |keys| => Member(keys[i], Render(v.o[keys[i]], level, fractional)))
  }

  /** The state of `description`'s nested functions: the current depth, and the text of
      non-integral numbers. */
  class Describer {
    var indentLevel: nat
    const fractional: real -> string

    constructor (fractional: real -> string)
      ensures indentLevel == 0 && this.fractional == fractional
    {
      indentLevel := 0;
      this.fractional := fractional;
    }

    /** `indent()`. */
    method Indent() returns (s: string)
      ensures s == IndentText(indentLevel)
    {
      s := "";
      for i := 0 to indentLevel
        invariant s == IndentText(i)
      {
        s := s + "    ";
      }
    }

    /** `serialize(data)`: renders `data` at the current depth and leaves the depth as it
        found it. */
    method Serialize(data: InterchangeData) returns (s: string)
      modifies this
      ensures indentLevel == old(indentLevel)
      ensures s == Render(data, indentLevel, fractional)
      decreases data, 3
    {
      match data
      case NullValue => s := "null";
      case BooleanValue(b) => s := if b then "true" else "false";
      case NumberValue(n) => s := NumberText(n, fractional);
      case StringValue(str) => s := Escape(str);
      case ArrayValue(_) => s := SerializeArray(data);
      case ObjectValue(_) => s := SerializeObject(data);
    }

    /** `serializeArray(a)`. */
    method SerializeArray(data: InterchangeData) returns (s: string)
      requires data.ArrayValue?
      modifies this
      ensures indentLevel == old(indentLevel)
      ensures s == Render(data, indentLevel, fractional)
      decreases data, 2
    {
      var a := data.a;
      ghost var texts := ElementTexts(data, indentLevel + 1, fractional);
      s := "[";
      indentLevel := indentLevel + 1;
      for i := 0 to |a|
        invariant indentLevel == old(indentLevel) + 1
        invariant s == "[" + Entries(texts, i, indentLevel)
      {
        AppendEntry(s, "[", texts, i, indentLevel);
        s := s + "\n";
        var pad := Indent();
        s := s + pad;
        var item := Serialize(a[i]);
        s := s + item;
        if i != |a| - 1 {
          s := s + ",";
        }
      }
      indentLevel := indentLevel - 1;
      var pad := Indent();
      s := s + "\n" + pad + "]";
    }

    /** `serializeObject(o)`, visiting the keys in ascending order. */
    method SerializeObject(data: InterchangeData) returns (s: string)
      requires data.ObjectValue?
      modifies this
      ensures indentLevel == old(indentLevel)
      ensures s == Render(data, indentLevel, fractional)
      decreases data, 2
    {
      var o := data.o;
      var keys := OrderedKeys(o.Keys);
      ghost var texts := MemberTexts(data, indentLevel + 1, fractional);
      s := "{";
      indentLevel := indentLevel + 1;
      for i := 0 to |keys|
        invariant indentLevel == old(indentLevel) + 1
        invariant s == "{" + Entries(texts, i, indentLevel)
      {
        AppendEntry(s, "{", texts, i, indentLevel);
        s := s + "\n";
        var pad := Indent();
        s := s + pad;
        var member := SerializeMember(data, keys[i], i);
        s := s + member;
        if i != |o| - 1 {
          s := s + ",";
        }
      }
      indentLevel := indentLevel - 1;
      var pad := Indent();
      s := s + "\n" + pad + "}";
    }

    /** The text `serializeObject` writes for one member: the escaped key, a colon, a space
        and the value serialized at the current depth. */
    method SerializeMember(data: InterchangeData, key: string, ghost i: nat) returns (text: string)
      requires data.ObjectValue? && i < |data.o| && SortedKeys(data.o.Keys)[i] == key
      modifies this
      ensures indentLevel == old(indentLevel)
      ensures text == MemberTexts(data, indentLevel, fractional)[i]
      decreases data, 1
    {
      MemberTextAt(data, indentLevel, fractional, i);
      var k := Escape(key);
      var value := Serialize(data.o[key]);
      text := k + ": " + value;
    }
  }

  /** `description`: the rendering of the whole value at depth zero. */
  method Description(v: InterchangeData, fractional: real -> string) returns (s: string)
    ensures s == Render(v, 0, fractional)
  {
    var d := new Describer(fractional);
    s := d.Serialize(v);
  }
}
