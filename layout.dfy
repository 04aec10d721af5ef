/**
  What the layout of `description` promises, proved about `Describing.Render`: the members
  of a container are its lines joined by commas, so every line but the last ends in a comma;
  a container closes on its own line at its own indent; and every line break inside a value
  rendered at depth `level` is followed by at least that depth's indent, so nested lines are
  never shallower than their container.
*/
module Layout {
  import opened Interchange
  import opened Escaping
  import opened KeyOrder
  import opened Describing

  /** The lines of a container before commas are placed: a line break, the indent, the text. */
  function Lines(texts: seq<string>, level: nat): (r: seq<string>)
    ensures |r| == |texts|
  {
    seq(|texts|, i requires 0 <= i < |texts| => "\n" + IndentText(level) + texts[i])
  }

  /** The items joined with a comma between each two. */
  function JoinComma(items: seq<string>): string {
    if |items| == 0 then ""
    else if |items| == 1 then items[0]
    else JoinComma(items[..|items| - 1]) + "," + items[|items| - 1]
  }

  lemma {:induction false} EntriesBeforeLast(texts: seq<string>, n: nat, level: nat)
    requires 1 <= n < |texts|
    ensures Entries(texts, n, level) == JoinComma(Lines(texts, level)[..n]) + ","
    decreases n
  {
    var lines := Lines(texts, level);
    if n == 1 {
      assert lines[..1] == [lines[0]];
    } else {
      EntriesBeforeLast(texts, n - 1, level);
      assert lines[..n][..n - 1] == lines[..n - 1];
      LineAppend(JoinComma(lines[..n - 1]) + ",", IndentText(level), texts[n - 1]);
    }
  }

  lemma LineAppend(x: string, pad: string, t: string)
    ensures ((x + "\n") + pad) + t == x + (("\n" + pad) + t)
  {
    Associative(x, "\n", pad);
    Associative(x, "\n" + pad, t);
  }

  /** The loop's "comma unless last" is a comma between each two lines. */
  lemma {:induction false} EntriesAreCommaSeparated(texts: seq<string>, level: nat)
    ensures Entries(texts, |texts|, level) == JoinComma(Lines(texts, level))
  {
    var lines := Lines(texts, level);
    var n := |texts|;
    if n == 1 {
      assert Entries(texts, 1, level) == Entries(texts, 0, level) + lines[0];
    } else if n > 1 {
      EntriesBeforeLast(texts, n - 1, level);
      assert lines[..n - 1] == lines[..|lines| - 1];
      LineAppend(JoinComma(lines[..n - 1]) + ",", IndentText(level), texts[n - 1]);
      var last := Entries(texts, n - 1, level) + "\n" + IndentText(level) + texts[n - 1];
      assert last + "" == last;
    }
  }

  /** An array: each element on its own line one level deeper, commas between elements, and
      the closing bracket on its own line at the array's indent. */
  lemma ArrayLayout(a: seq<InterchangeData>, level: nat, fractional: real -> string)
    ensures Render(ArrayValue(a), level, fractional)
         == "[" + JoinComma(Lines(ElementTexts(ArrayValue(a), level + 1, fractional), level + 1))
            + "\n" + IndentText(level) + "]"
    ensures forall i :: 0 <= i < |a| ==>
      ElementTexts(ArrayValue(a), level + 1, fractional)[i] == Render(a[i], level + 1, fractional)
  {
    EntriesAreCommaSeparated(ElementTexts(ArrayValue(a), level + 1, fractional), level + 1);
  }

  /** An object: each member on its own line one level deeper as escaped key, colon, space
      and value, in ascending key order, commas between members, and the closing brace on its
      own line at the object's indent. */
  lemma ObjectLayout(o: map<string, InterchangeData>, level: nat, fractional: real -> string)
    ensures Render(ObjectValue(o), level, fractional)
         == "{" + JoinComma(Lines(MemberTexts(ObjectValue(o), level + 1, fractional), level + 1))
            + "\n" + IndentText(level) + "}"
    ensures forall i :: 0 <= i < |o| ==>
      SortedKeys(o.Keys)[i] in o &&
      MemberTexts(ObjectValue(o), level + 1, fractional)[i]
        == Quote(EscapeBody(SortedKeys(o.Keys)[i])) + ": " + Render(o[SortedKeys(o.Keys)[i]], level + 1, fractional)
  {
    var v := ObjectValue(o);
    EntriesAreCommaSeparated(MemberTexts(v, level + 1, fractional), level + 1);
    forall i | 0 <= i < |o|
      ensures SortedKeys(o.Keys)[i] in o
      ensures MemberTexts(v, level + 1, fractional)[i]
        == Quote(EscapeBody(SortedKeys(o.Keys)[i])) + ": " + Render(o[SortedKeys(o.Keys)[i]], level + 1, fractional)
    {
      MemberTextAt(v, level + 1, fractional, i);
    }
  }

  /** Empty containers still put the closing bracket on a line of its own. */
  lemma EmptyContainers(level: nat, fractional: real -> string)
    ensures Render(ArrayValue([]), level, fractional) == "[\n" + IndentText(level) + "]"
    ensures Render(ObjectValue(map[]), level, fractional) == "{\n" + IndentText(level) + "}"
  {
    var empty: map<string, InterchangeData> := map[];
    assert |empty| == 0;
  }

  // ---------------------------------------------------------------------------
  // Indentation after line breaks

  predicate OneLine(s: string) {
    forall i :: 0 <= i < |s| ==> s[i] != '\n'
  }

  /** Every line break in `s` is followed, inside `s`, by at least `width` spaces. */
  predicate BreaksIndented(s: string, width: nat) {
    forall i :: 0 <= i < |s| && s[i] == '\n' ==> SpacesAfter(s, i, width)
  }

  predicate SpacesAfter(s: string, i: nat, width: nat) {
    i + width < |s| && forall j :: i < j <= i + width ==> s[j] == ' '
  }

  lemma OneLineBreaksIndented(s: string, width: nat)
    requires OneLine(s)
    ensures BreaksIndented(s, width)
  {
  }

  lemma Narrower(s: string, width: nat, narrower: nat)
    requires BreaksIndented(s, width) && narrower <= width
    ensures BreaksIndented(s, narrower)
  {
    forall i | 0 <= i < |s| && s[i] == '\n' ensures SpacesAfter(s, i, narrower) {
      assert SpacesAfter(s, i, width);
    }
  }

  lemma BreaksIndentedConcat(a: string, b: string, width: nat)
    requires BreaksIndented(a, width) && BreaksIndented(b, width)
    ensures BreaksIndented(a + b, width)
  {
    var s := a + b;
    forall i | 0 <= i < |s| && s[i] == '\n' ensures SpacesAfter(s, i, width) {
      if i < |a| {
        assert a[i] == '\n' && SpacesAfter(a, i, width);
        forall j | i < j <= i + width ensures s[j] == ' ' {
          assert s[j] == a[j];
        }
      } else {
        assert b[i - |a|] == '\n' && SpacesAfter(b, i - |a|, width);
        forall j | i < j <= i + width ensures s[j] == ' ' {
          assert s[j] == b[j - |a|];
        }
      }
    }
  }

  lemma LineStartIndented(level: nat, width: nat)
    requires width <= 4 * level
    ensures BreaksIndented("\n" + IndentText(level), width)
  {
    var s := "\n" + IndentText(level);
    forall i | 0 <= i < |s| && s[i] == '\n' ensures SpacesAfter(s, i, width) {
      assert i == 0;
      forall j | i < j <= i + width ensures s[j] == ' ' {
        assert s[j] == IndentText(level)[j - 1];
      }
    }
  }

  lemma {:induction false} EntriesBreaksIndented(texts: seq<string>, n: nat, level: nat, width: nat)
    requires n <= |texts| && width <= 4 * level
    requires forall i :: 0 <= i < |texts| ==> BreaksIndented(texts[i], width)
    ensures BreaksIndented(Entries(texts, n, level), width)
    decreases n
  {
    if n > 0 {
      EntriesBreaksIndented(texts, n - 1, level, width);
      LineStartIndented(level, width);
      var comma := if n - 1 != |texts| - 1 then "," else "";
      OneLineBreaksIndented(comma, width);
      var e := Entries(texts, n - 1, level);
      BreaksIndentedConcat(e, "\n" + IndentText(level), width);
      BreaksIndentedConcat(e + "\n" + IndentText(level), texts[n - 1], width);
      BreaksIndentedConcat(e + "\n" + IndentText(level) + texts[n - 1], comma, width);
    }
  }

  /** A container whose entries keep the indent keeps it with its brackets around them. */
  lemma ContainerBreaksIndented(open: string, texts: seq<string>, level: nat, close: string)
    requires OneLine(open) && OneLine(close)
    requires forall i :: 0 <= i < |texts| ==> BreaksIndented(texts[i], 4 * level)
    ensures BreaksIndented(open + Entries(texts, |texts|, level + 1) + "\n" + IndentText(level) + close, 4 * level)
  {
    EntriesBreaksIndented(texts, |texts|, level + 1, 4 * level);
    Bracketed(open, Entries(texts, |texts|, level + 1), level, close);
  }

  lemma Bracketed(open: string, middle: string, level: nat, close: string)
    requires OneLine(open) && OneLine(close) && BreaksIndented(middle, 4 * level)
    ensures BreaksIndented(open + middle + "\n" + IndentText(level) + close, 4 * level)
  {
    var w := 4 * level;
    OneLineBreaksIndented(open, w);
    BreaksIndentedConcat(open, middle, w);
    ClosingLine(open + middle, level, close);
  }

  lemma ClosingLine(s: string, level: nat, close: string)
    requires OneLine(close) && BreaksIndented(s, 4 * level)
    ensures BreaksIndented(s + "\n" + IndentText(level) + close, 4 * level)
  {
    var w := 4 * level;
    LineStartIndented(level, w);
    OneLineBreaksIndented(close, w);
    BreaksIndentedConcat("\n" + IndentText(level), close, w);
    BreaksIndentedConcat(s, "\n" + IndentText(level) + close, w);
    assert s + "\n" + IndentText(level) + close == s + ("\n" + IndentText(level) + close);
  }

  lemma OneLineQuoted(s: string)
    ensures OneLine(Quote(EscapeBody(s)))
  {
    EscapeBodyIsOneLine(s);
    var q := Quote(EscapeBody(s));
    forall i | 0 <= i < |q| ensures q[i] != '\n' {
      if 0 < i < |q| - 1 {
        assert q[i] == EscapeBody(s)[i - 1];
        assert !IsLineBreak(EscapeBody(s)[i - 1]);
      }
    }
  }

  lemma OneLineNumber(n: real, fractional: real -> string)
    requires forall x :: OneLine(fractional(x))
    ensures OneLine(NumberText(n, fractional))
  {
    if IsIntegral(n) {
      var t := Truncate(n);
      var d := Digits(if t < 0 then -t else t);
      assert OneLine(d);
      assert IntText(t) == (if t < 0 then "-" + d else d);
    } else {
      assert OneLine(fractional(n));
    }
  }

  /** Nested lines are never shallower than their container: in a value rendered at depth
      `level`, every line break is followed by at least `level` indents. It holds whatever
      text non-integral numbers get, provided that text is a single line. */
  lemma {:induction false} RenderBreaksIndented(v: InterchangeData, level: nat, fractional: real -> string)
    requires forall x :: OneLine(fractional(x))
    ensures BreaksIndented(Render(v, level, fractional), 4 * level)
    decreases v, 2
  {
    var w := 4 * level;
    match v
    case NullValue =>
      OneLineBreaksIndented("null", w);
    case BooleanValue(b) =>
      OneLineBreaksIndented(if b then "true" else "false", w);
    case NumberValue(n) =>
      OneLineNumber(n, fractional);
      OneLineBreaksIndented(NumberText(n, fractional), w);
    case StringValue(s) =>
      OneLineQuoted(s);
      OneLineBreaksIndented(Quote(EscapeBody(s)), w);
    case ArrayValue(_) =>
      ArrayBreaksIndented(v, level, fractional);
    case ObjectValue(_) =>
      ObjectBreaksIndented(v, level, fractional);
  }

  lemma {:induction false} ArrayBreaksIndented(v: InterchangeData, level: nat, fractional: real -> string)
    requires forall x :: OneLine(fractional(x))
    requires v.ArrayValue?
    ensures BreaksIndented(Render(v, level, fractional), 4 * level)
    decreases v, 1
  {
    var w := 4 * level;
    var texts := ElementTexts(v, level + 1, fractional);
    forall i | 0 <= i < |texts| ensures BreaksIndented(texts[i], w) {
      ElementBreaksIndented(v, level, fractional, i);
    }
    ContainerBreaksIndented("[", texts, level, "]");
  }

  lemma {:induction false} ElementBreaksIndented(v: InterchangeData, level: nat, fractional: real -> string, i: nat)
    requires forall x :: OneLine(fractional(x))
    requires v.ArrayValue? && i < |v.a|
    ensures BreaksIndented(Render(v.a[i], level + 1, fractional), 4 * level)
    decreases v, 0
  {
    RenderBreaksIndented(v.a[i], level + 1, fractional);
    Narrower(Render(v.a[i], level + 1, fractional), 4 * (level + 1), 4 * level);
  }

  lemma {:induction false} ObjectBreaksIndented(v: InterchangeData, level: nat, fractional: real -> string)
    requires forall x :: OneLine(fractional(x))
    requires v.ObjectValue?
    ensures BreaksIndented(Render(v, level, fractional), 4 * level)
    decreases v, 1
  {
    var w := 4 * level;
    var texts := MemberTexts(v, level + 1, fractional);
    forall i | 0 <= i < |texts| ensures BreaksIndented(texts[i], w) {
      MemberTextAt(v, level + 1, fractional, i);
      MemberBreaksIndented(v, level, fractional, SortedKeys(v.o.Keys)[i]);
    }
    ContainerBreaksIndented("{", texts, level, "}");
  }

  lemma {:induction false} MemberBreaksIndented(v: InterchangeData, level: nat, fractional: real -> string, key: string)
    requires forall x :: OneLine(fractional(x))
    requires v.ObjectValue? && key in v.o
    ensures BreaksIndented(Member(key, Render(v.o[key], level + 1, fractional)), 4 * level)
    decreases v, 0
  {
    var w := 4 * level;
    var value := Render(v.o[key], level + 1, fractional);
    RenderBreaksIndented(v.o[key], level + 1, fractional);
    Narrower(value, 4 * (level + 1), w);
    MemberLine(key, value, w);
  }

  /** A member's key part is one line, so its line breaks are those of its value. */
  lemma MemberLine(key: string, value: string, w: nat)
    requires BreaksIndented(value, w)
    ensures BreaksIndented(Member(key, value), w)
  {
    var k := Quote(EscapeBody(key));
    OneLineQuoted(key);
    assert OneLine(k + ": ");
    OneLineBreaksIndented(k + ": ", w);
    BreaksIndentedConcat(k + ": ", value, w);
  }
}
