/**
  The hexadecimal rendering of `Data` in Resources/ZData.swift: `hexString(delimiter:)` writes
  each byte as two lowercase hexadecimal digits and, when the delimiter `d` is not zero,
  writes a space before every byte whose index is a positive multiple of `d`, so the digits
  come in groups of `d` bytes. `hexDescription` and `debugDescription` use groups of two.
*/
module HexData {
  import opened Wrappers
  import opened ByteData
  import Escaping

  function HexDigit(d: nat): char
    requires d < 16
  {
    "0123456789abcdef"[d]
  }

  /** `String(n, radix: 16)`: the lowercase hexadecimal digits of `n`, without leading
      zeros. */
  function Radix16(n: nat): (r: string)
    ensures |r| >= 1
    decreases n
  {
    if n < 16 then [HexDigit(n)] else Radix16(n / 16) + [HexDigit(n % 16)]
  }

  /** The text of one byte: a "0" for bytes below 16, then the byte in base 16. */
  function HexByte(b: Byte): string {
    (if b < 16 then "0" else "") + Radix16(b as nat)
  }

  /** Every byte is two lowercase hexadecimal digits, the high digit first. */
  lemma HexByteDigits(b: Byte)
    ensures |HexByte(b)| == 2
    ensures HexByte(b)[0] == HexDigit(b as nat / 16) && HexByte(b)[1] == HexDigit(b as nat % 16)
  {
    var n := b as nat;
    if n < 16 {
      assert HexDigit(0) == '0';
    } else {
      assert Radix16(n / 16) == [HexDigit(n / 16)];
    }
  }

  /** Whether `hexString(delimiter: d)` writes a space before the byte at `index`. */
  predicate SpaceBefore(index: nat, delimiter: int) {
    delimiter != 0 && index > 0 && index % delimiter == 0
  }

  /** The text `hexString(delimiter:)` returns for `bytes`. */
  function Hex(bytes: seq<Byte>, delimiter: int): string
    decreases |bytes|
  {
    if bytes == [] then ""
    else
      var n := |bytes| - 1;
      Hex(bytes[..n], delimiter) + (if SpaceBefore(n, delimiter) then " " else "") + HexByte(bytes[n])
  }

  /** `hexString(delimiter:)`. */
  method HexString(data: Data, delimiter: int) returns (s: string)
    ensures s == Hex(data.bytes, delimiter)
  {
    var bytes := data.bytes;
    s := "";
    for index := 0 to |bytes|
      invariant s == Hex(bytes[..index], delimiter)
    {
      HexStep(bytes, index, delimiter);
      if delimiter != 0 && index > 0 && index % delimiter == 0 {
        s := s + " ";
      }
      var value := bytes[index];
      var digits := (if value < 16 then "0" else "") + Radix16(value as nat);
      s := s + digits;
    }
    assert bytes[..|bytes|] == bytes;
  }

  /** One more byte: the text so far, the gap if any, then the byte's digits. */
  lemma HexStep(bytes: seq<Byte>, index: nat, delimiter: int)
    requires index < |bytes|
    ensures SpaceBefore(index, delimiter) ==>
      Hex(bytes[..index + 1], delimiter) == Hex(bytes[..index], delimiter) + " " + HexByte(bytes[index])
    ensures !SpaceBefore(index, delimiter) ==>
      Hex(bytes[..index + 1], delimiter) == Hex(bytes[..index], delimiter) + HexByte(bytes[index])
  {
    assert bytes[..index + 1][..index] == bytes[..index];
    var h := Hex(bytes[..index], delimiter);
    assert h + "" == h;
  }

  /** `hexDescription`: groups of two bytes. */
  method HexDescription(data: Data) returns (s: string)
    ensures s == Hex(data.bytes, 2)
  {
    s := HexString(data, 2);
  }

  /** `debugDescription`: the same text as `hexDescription`. */
  method DebugDescription(data: Data) returns (s: string)
    ensures s == Hex(data.bytes, 2)
  {
    s := HexDescription(data);
  }

  // ---------------------------------------------------------------------------
  // Properties of the rendering

  /** `t` is the digits of `bytes`, two per byte, in order. */
  predicate Pairs(t: string, bytes: seq<Byte>) {
    |t| == 2 * |bytes| && forall i :: 0 <= i < |bytes| ==> t[2 * i..2 * i + 2] == HexByte(bytes[i])
  }

  /** Without a delimiter the text is exactly two digits per byte, in order. */
  lemma UndelimitedLayout(bytes: seq<Byte>)
    ensures |Hex(bytes, 0)| == 2 * |bytes|
    ensures forall i :: 0 <= i < |bytes| ==> Hex(bytes, 0)[2 * i..2 * i + 2] == HexByte(bytes[i])
  {
    UndelimitedPairs(bytes);
  }

  lemma {:induction false} UndelimitedPairs(bytes: seq<Byte>)
    ensures Pairs(Hex(bytes, 0), bytes)
    decreases |bytes|
  {
    if bytes != [] {
      var n := |bytes| - 1;
      var p := Hex(bytes[..n], 0);
      UndelimitedPairs(bytes[..n]);
      LayoutExtends(p, bytes[..n], bytes[n]);
      assert bytes[..n] + [bytes[n]] == bytes;
      assert Hex(bytes, 0) == p + HexByte(bytes[n]);
    }
  }

  /** One more byte's digits after a text laid out as pairs keeps it laid out as pairs. */
  lemma LayoutExtends(p: string, prefix: seq<Byte>, b: Byte)
    requires Pairs(p, prefix)
    ensures Pairs(p + HexByte(b), prefix + [b])
  {
    var h := HexByte(b);
    HexByteDigits(b);
    forall i | 0 <= i < |prefix + [b]| ensures (p + h)[2 * i..2 * i + 2] == HexByte((prefix + [b])[i]) {
      PairOfConcat(p, h, 2 * i);
    }
  }

  lemma PairOfConcat(p: string, h: string, k: nat)
    requires |h| == 2 && k % 2 == 0 && |p| % 2 == 0 && k < |p| + 2
    ensures k < |p| ==> (p + h)[k..k + 2] == p[k..k + 2]
    ensures k == |p| ==> (p + h)[k..k + 2] == h
  {
  }

  lemma MulAtLeast(d: nat, x: int)
    requires d > 0 && x >= 1
    ensures d * x >= d
  {
  }

  lemma DivUnique(k: nat, d: nat, q: int, r: int)
    requires d > 0 && k == d * q + r && 0 <= r < d
    ensures k / d == q && k % d == r
  {
    var q', r' := k / d, k % d;
    assert d * q' + r' == d * q + r;
    assert d * (q' - q) == r - r';
    if q' - q >= 1 {
      MulAtLeast(d, q' - q);
    } else if q - q' >= 1 {
      MulAtLeast(d, q - q');
    }
  }

  lemma DivStep(k: nat, d: nat)
    requires k >= 1 && d > 0
    ensures (k - 1) / d + (if k % d == 0 then 1 else 0) == k / d
  {
    var q := (k - 1) / d;
    var r := (k - 1) % d;
    assert k - 1 == d * q + r && 0 <= r < d;
    if r == d - 1 {
      assert k == d * (q + 1) + 0;
      DivUnique(k, d, q + 1, 0);
    } else {
      DivUnique(k, d, q, r + 1);
    }
  }

  /** With a positive delimiter there is one space between consecutive groups of `d` bytes:
      `(count - 1) / d` spaces in all. */
  lemma {:induction false} DelimitedLength(bytes: seq<Byte>, delimiter: nat)
    requires delimiter > 0
    ensures |Hex(bytes, delimiter)| == 2 * |bytes| + (if bytes == [] then 0 else (|bytes| - 1) / delimiter)
    decreases |bytes|
  {
    if bytes != [] {
      var n := |bytes| - 1;
      DelimitedLength(bytes[..n], delimiter);
      HexByteDigits(bytes[n]);
      if n > 0 {
        DivStep(n, delimiter);
      }
    }
  }

  /** Neither the first nor the last character is a space, and no space follows a space. */
  predicate SpacedWell(s: string) {
    (s == [] || (s[0] != ' ' && s[|s| - 1] != ' '))
    && forall i :: 0 <= i < |s| - 1 && s[i] == ' ' ==> s[i + 1] != ' '
  }

  /** The text never starts or ends with a space, and never holds two spaces in a row. */
  lemma {:induction false} SpacesOnlyBetweenBytes(bytes: seq<Byte>, delimiter: int)
    ensures SpacedWell(Hex(bytes, delimiter))
    decreases |bytes|
  {
    if bytes != [] {
      var n := |bytes| - 1;
      SpacesOnlyBetweenBytes(bytes[..n], delimiter);
      HexLengthAtLeast(bytes[..n], delimiter);
      var h := HexByte(bytes[n]);
      HexByteDigits(bytes[n]);
      assert h[0] != ' ' && h[1] != ' ';
      SpacedWellExtends(Hex(bytes[..n], delimiter), if SpaceBefore(n, delimiter) then " " else "", h);
    }
  }

  /** A well-spaced text, then at most one space (none after the empty text), then two
      characters other than a space, is well spaced. */
  lemma SpacedWellExtends(p: string, gap: string, h: string)
    requires SpacedWell(p)
    requires gap == "" || (gap == " " && p != [])
    requires |h| == 2 && h[0] != ' ' && h[1] != ' '
    ensures SpacedWell(p + gap + h)
  {
    var s := p + gap + h;
    assert s[|s| - 1] == h[1];
    if p == [] {
      assert s == h;
    } else {
      assert s[0] == p[0];
      forall i | 0 <= i < |s| - 1 && s[i] == ' ' ensures s[i + 1] != ' ' {
        if i < |p| - 1 {
          assert s[i] == p[i] && s[i + 1] == p[i + 1];
        } else if i >= |p| {
          assert s[i + 1] == h[i + 1 - |p| - |gap|];
        }
      }
    }
  }

  lemma {:induction false} HexLengthAtLeast(bytes: seq<Byte>, delimiter: int)
    ensures |Hex(bytes, delimiter)| >= 2 * |bytes|
    decreases |bytes|
  {
    if bytes != [] {
      HexLengthAtLeast(bytes[..|bytes| - 1], delimiter);
    }
  }

  /** Empty data renders as the empty string, whatever the delimiter. */
  lemma EmptyData(delimiter: int)
    ensures Hex([], delimiter) == ""
  {
  }

  // ---------------------------------------------------------------------------
  // Reading the text back

  /** The value of a lowercase hexadecimal digit. */
  function DigitValue(c: char): Option<nat> {
    if '0' <= c <= '9' then Some(c as nat - '0' as nat)
    else if 'a' <= c <= 'f' then Some(c as nat - 'a' as nat + 10)
    else None
  }

  function Without(s: string, c: char): string
    decreases |s|
  {
    if s == [] then "" else (if s[0] == c then "" else [s[0]]) + Without(s[1..], c)
  }

  /** The bytes written as pairs of lowercase hexadecimal digits; nil for any other text. */
  function Unhex(s: string): Option<seq<Byte>>
    decreases |s|
  {
    if s == [] then Some([])
    else if |s| == 1 then None
    else match (DigitValue(s[0]), DigitValue(s[1]), Unhex(s[2..]))
      case (Some(hi), Some(lo), Some(rest)) => Some([(hi * 16 + lo) as Byte] + rest)
      case _ => None
  }

  lemma HexByteReadsBack(b: Byte, rest: string)
    ensures Unhex(HexByte(b) + rest) == match Unhex(rest)
      case Some(r) => Some([b] + r)
      case None => None
  {
    var s := HexByte(b) + rest;
    HexByteDigits(b);
    assert s[0] == HexDigit(b as nat / 16) && s[1] == HexDigit(b as nat % 16) && s[2..] == rest;
    assert DigitValue(HexDigit(b as nat / 16)) == Some(b as nat / 16);
    assert DigitValue(HexDigit(b as nat % 16)) == Some(b as nat % 16);
  }

  lemma {:induction false} WithoutConcat(a: string, b: string, c: char)
    ensures Without(a + b, c) == Without(a, c) + Without(b, c)
    decreases |a|
  {
    if a == [] {
      assert a + b == b;
    } else {
      assert (a + b)[0] == a[0] && (a + b)[1..] == a[1..] + b;
      WithoutConcat(a[1..], b, c);
    }
  }

  lemma HexByteHasNoSpace(b: Byte)
    ensures Without(HexByte(b), ' ') == HexByte(b)
  {
    var h := HexByte(b);
    HexByteDigits(b);
    assert h[0] != ' ' && h[1] != ' ';
    assert h[1..][1..] == [] && h[1..][0] == h[1];
    assert Without(h[1..][1..], ' ') == "";
    assert Without(h[1..], ' ') == [h[1]];
    assert Without(h, ' ') == [h[0]] + [h[1]];
  }

  /** Dropping the spaces from a delimited text gives the undelimited text. */
  lemma {:induction false} SpacesOnlyDelimit(bytes: seq<Byte>, delimiter: int)
    ensures Without(Hex(bytes, delimiter), ' ') == Hex(bytes, 0)
    decreases |bytes|
  {
    if bytes != [] {
      var n := |bytes| - 1;
      SpacesOnlyDelimit(bytes[..n], delimiter);
      var gap := if SpaceBefore(n, delimiter) then " " else "";
      WithoutConcat(Hex(bytes[..n], delimiter) + gap, HexByte(bytes[n]), ' ');
      WithoutConcat(Hex(bytes[..n], delimiter), gap, ' ');
      WithoutConcat(Hex(bytes[..n], 0), HexByte(bytes[n]), ' ');
      HexByteHasNoSpace(bytes[n]);
      assert Without(gap, ' ') == "" by {
        if gap == " " {
          assert gap[1..] == "";
        }
      }
    }
  }

  /** The undelimited text reads back as the bytes it was written from, so the rendering
      loses nothing. */
  lemma {:induction false} HexRoundTrip(bytes: seq<Byte>)
    ensures Unhex(Hex(bytes, 0)) == Some(bytes)
    decreases |bytes|
  {
    if bytes != [] {
      HexStartsWithFirst(bytes);
      HexRoundTrip(bytes[1..]);
      HexByteReadsBack(bytes[0], Hex(bytes[1..], 0));
      assert [bytes[0]] + bytes[1..] == bytes;
    }
  }

  /** The undelimited text is the first byte's digits followed by the text of the rest. */
  lemma HexStartsWithFirst(bytes: seq<Byte>)
    requires bytes != []
    ensures Hex(bytes, 0) == HexByte(bytes[0]) + Hex(bytes[1..], 0)
  {
    HexConcat([bytes[0]], bytes[1..]);
    assert [bytes[0]] + bytes[1..] == bytes;
    HexLast([bytes[0]]);
    assert [bytes[0]][..0] == [];
  }

  /** The undelimited text of two runs of bytes is the text of the first then the second. */
  lemma {:induction false} HexConcat(a: seq<Byte>, b: seq<Byte>)
    ensures Hex(a + b, 0) == Hex(a, 0) + Hex(b, 0)
    decreases |b|
  {
    if b == [] {
      assert a + b == a;
    } else {
      var n := |b| - 1;
      var ab := a + b;
      assert Hex(ab, 0) == Hex(a + b[..n], 0) + HexByte(b[n]) by {
        assert ab[..|ab| - 1] == a + b[..n];
        assert ab[|ab| - 1] == b[n];
        HexLast(ab);
      }
      assert Hex(b, 0) == Hex(b[..n], 0) + HexByte(b[n]) by {
        HexLast(b);
      }
      HexConcat(a, b[..n]);
      Escaping.Associative(Hex(a, 0), Hex(b[..n], 0), HexByte(b[n]));
    }
  }

  lemma HexLast(bytes: seq<Byte>)
    requires bytes != []
    ensures Hex(bytes, 0) == Hex(bytes[..|bytes| - 1], 0) + HexByte(bytes[|bytes| - 1])
  {
  }

  /** Any delimited text, once its spaces are dropped, reads back as the bytes. */
  lemma DelimitedRoundTrip(bytes: seq<Byte>, delimiter: int)
    ensures Unhex(Without(Hex(bytes, delimiter), ' ')) == Some(bytes)
  {
    SpacesOnlyDelimit(bytes, delimiter);
    HexRoundTrip(bytes);
  }
}
