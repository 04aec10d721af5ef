/**
  The string escaper of Resources/InterchangeData.swift: `escape` wraps a string in double
  quotes and replaces each character listed in `escapeMapping` by its escape sequence,
  copying every other character unchanged.

  The model escapes per Unicode scalar value. Swift's loop walks `source.characters`, which
  are extended grapheme clusters, and looks up whole clusters; the two agree on every text
  whose clusters are single scalars or CR-LF (`ClustersAgreeOnSimpleText`), and differ when a
  combining mark follows a quote or a backslash (`QuoteWithCombiningMarkLeaks`).
*/
module Escaping {
  import opened Wrappers

  /** `escapeMapping`, keyed by the Character it replaces. */
  const EscapeMapping: map<string, string> := map[
    "\r" := "\\r",
    "\n" := "\\n",
    "\t" := "\\t",
    "\\" := "\\\\",
    "\"" := "\\\"",
    "\U{2028}" := "\\u2028",
    "\U{2029}" := "\\u2029",
    "\r\n" := "\\r\\n"
  ]

  /** The replacement for one scalar: its mapping entry, or the scalar itself. */
  function EscapedChar(c: char): string {
    if [c] in EscapeMapping then EscapeMapping[[c]] else [c]
  }

  /** The text between the quotes that `escape` emits. */
  function EscapeBody(s: string): string
    decreases |s|
  {
    if s == [] then "" else EscapedChar(s[0]) + EscapeBody(s[1..])
  }

  function Quote(body: string): string {
    "\"" + body + "\""
  }

  lemma {:induction false} EscapeBodyAppend(s: string, c: char)
    ensures EscapeBody(s + [c]) == EscapeBody(s) + EscapedChar(c)
    decreases |s|
  {
    if s == [] {
      assert ([] + [c])[1..] == [];
    } else {
      assert (s + [c])[0] == s[0];
      assert (s + [c])[1..] == s[1..] + [c];
      EscapeBodyAppend(s[1..], c);
    }
  }

  lemma Associative(a: string, b: string, c: string)
    ensures (a + b) + c == a + (b + c)
  {
  }

  /** `escape(source)`: an opening quote, each character's replacement in order, a closing
      quote. */
  method Escape(source: string) returns (s: string)
    ensures s == Quote(EscapeBody(source))
    ensures |s| >= 2 && s[0] == '"' && s[|s| - 1] == '"'
  {
    s := "\"";
    for i := 0 to |source|
      invariant s == "\"" + EscapeBody(source[..i])
    {
      var c := source[i];
      EscapeBodyAppend(source[..i], c);
      assert source[..i + 1] == source[..i] + [c];
      Associative("\"", EscapeBody(source[..i]), EscapedChar(c));
      if [c] in EscapeMapping {
        s := s + EscapeMapping[[c]];
      } else {
        s := s + [c];
      }
    }
    assert source[..|source|] == source;
    s := s + "\"";
  }

  // ---------------------------------------------------------------------------
  // The inverse: reading an escaped body back

  function Prepend(c: char, rest: Option<string>): Option<string> {
    match rest
    case Some(t) => Some([c] + t)
    case None => None
  }

  /** Reads the text between the quotes back into the original string; nil for any text the
      escaper cannot have produced (an unknown escape, a raw quote or line break). */
  function Unescape(t: string): Option<string>
    decreases |t|
  {
    if t == [] then Some("")
    else if t[0] == '\\' then
      if |t| >= 6 && t[1..6] == "u2028" then Prepend('\U{2028}', Unescape(t[6..]))
      else if |t| >= 6 && t[1..6] == "u2029" then Prepend('\U{2029}', Unescape(t[6..]))
      else if |t| >= 2 && t[1] == 'r' then Prepend('\r', Unescape(t[2..]))
      else if |t| >= 2 && t[1] == 'n' then Prepend('\n', Unescape(t[2..]))
      else if |t| >= 2 && t[1] == 't' then Prepend('\t', Unescape(t[2..]))
      else if |t| >= 2 && t[1] == '\\' then Prepend('\\', Unescape(t[2..]))
      else if |t| >= 2 && t[1] == '"' then Prepend('"', Unescape(t[2..]))
      else None
    else if [t[0]] in EscapeMapping then None
    else Prepend(t[0], Unescape(t[1..]))
  }

  lemma UnescapeOneChar(c: char, rest: string)
    ensures Unescape(EscapedChar(c) + rest) == Prepend(c, Unescape(rest))
  {
    var t := EscapedChar(c) + rest;
    var e := EscapedChar(c);
    if [c] in EscapeMapping {
      assert t[0] == '\\';
      if c == '\U{2028}' || c == '\U{2029}' {
        assert |e| == 6 && t[1..6] == e[1..6] && t[6..] == rest;
      } else {
        assert |e| == 2 && t[1] == e[1] && t[2..] == rest;
      }
    } else {
      assert t[0] == c && t[1..] == rest;
    }
  }

  /** Escaping loses nothing: the escaped body reads back as the original string. */
  lemma {:induction false} EscapeRoundTrip(s: string)
    ensures Unescape(EscapeBody(s)) == Some(s)
    decreases |s|
  {
    if s != [] {
      EscapeRoundTrip(s[1..]);
      UnescapeOneChar(s[0], EscapeBody(s[1..]));
      assert [s[0]] + s[1..] == s;
    }
  }

  /** And every body that reads back is the escape of what it reads back as, so escaping is
      a bijection between strings and well-formed bodies. */
  lemma {:induction false} UnescapeInverts(t: string)
    requires Unescape(t).Some?
    ensures EscapeBody(Unescape(t).value) == t
    decreases |t|
  {
    if t != [] {
      var k := UnescapeHead(t);
      UnescapeInverts(t[k..]);
      assert t == t[..k] + t[k..];
    }
  }

  /** A body that reads back starts with the escape of the first character it reads back
      as, `k` characters long, and the rest reads back as the rest. */
  lemma UnescapeHead(t: string) returns (k: nat)
    requires t != [] && Unescape(t).Some?
    ensures 1 <= k <= |t| && Unescape(t[k..]).Some? && Unescape(t).value != []
    ensures EscapedChar(Unescape(t).value[0]) == t[..k]
    ensures Unescape(t).value[1..] == Unescape(t[k..]).value
  {
    if t[0] != '\\' {
      k := 1;
    } else if |t| >= 6 && (t[1..6] == "u2028" || t[1..6] == "u2029") {
      k := 6;
    } else {
      k := 2;
    }
  }

  /** The line-breaking characters a body never holds raw. */
  predicate IsLineBreak(c: char) {
    c == '\n' || c == '\r' || c == '\t' || c == '\U{2028}' || c == '\U{2029}'
  }

  /** The body never holds a raw line break or tab, so an escaped string stays on one line. */
  lemma {:induction false} EscapeBodyIsOneLine(s: string)
    ensures forall i :: 0 <= i < |EscapeBody(s)| ==> !IsLineBreak(EscapeBody(s)[i])
    decreases |s|
  {
    if s != [] {
      EscapeBodyIsOneLine(s[1..]);
      var c := s[0];
      var e := EscapedChar(c);
      if [c] in EscapeMapping {
        assert c in {'\r', '\n', '\t', '\\', '"', '\U{2028}', '\U{2029}'};
        assert e in {"\\r", "\\n", "\\t", "\\\\", "\\\"", "\\u2028", "\\u2029"};
      }
      assert forall i :: 0 <= i < |e| ==> !IsLineBreak(e[i]);
      assert EscapeBody(s) == e + EscapeBody(s[1..]);
    }
  }

  /** A string none of whose characters is in the mapping is copied unchanged. */
  lemma {:induction false} PlainTextUnchanged(s: string)
    requires forall i :: 0 <= i < |s| ==> [s[i]] !in EscapeMapping
    ensures EscapeBody(s) == s
    decreases |s|
  {
    if s != [] {
      PlainTextUnchanged(s[1..]);
      assert [s[0]] + s[1..] == s;
    }
  }

  /** The CR-LF entry of the mapping is the escape of CR followed by the escape of LF. */
  lemma CrLfEntryAgrees()
    ensures EscapeMapping["\r\n"] == EscapeBody("\r\n")
  {
    assert "\r\n"[1..] == "\n";
    assert "\n"[1..] == "";
  }

  // ---------------------------------------------------------------------------
  // As written: one lookup per grapheme cluster

  /** The loop as Swift runs it: `clusters` is `source.characters`, each an extended grapheme
      cluster, and a cluster is replaced only when the whole cluster is a mapping key. */
  function EscapeClusters(clusters: seq<string>): string
    decreases |clusters|
  {
    if clusters == [] then ""
    else
      (if clusters[0] in EscapeMapping then EscapeMapping[clusters[0]] else clusters[0])
      + EscapeClusters(clusters[1..])
  }

  function Flatten(clusters: seq<string>): string
    decreases |clusters|
  {
    if clusters == [] then "" else clusters[0] + Flatten(clusters[1..])
  }

  lemma {:induction false} EscapeBodyConcat(a: string, b: string)
    ensures EscapeBody(a + b) == EscapeBody(a) + EscapeBody(b)
    decreases |a|
  {
    if a == [] {
      assert a + b == b;
    } else {
      assert (a + b)[0] == a[0] && (a + b)[1..] == a[1..] + b;
      EscapeBodyConcat(a[1..], b);
    }
  }

  /** On text whose clusters are single scalars or CR-LF, the cluster loop and the scalar
      model give the same output. */
  lemma {:induction false} ClustersAgreeOnSimpleText(clusters: seq<string>)
    requires forall i :: 0 <= i < |clusters| ==> |clusters[i]| == 1 || clusters[i] == "\r\n"
    ensures EscapeClusters(clusters) == EscapeBody(Flatten(clusters))
    decreases |clusters|
  {
    if clusters != [] {
      var c := clusters[0];
      ClustersAgreeOnSimpleText(clusters[1..]);
      EscapeBodyConcat(c, Flatten(clusters[1..]));
      if c == "\r\n" {
        CrLfEntryAgrees();
      } else {
        assert c == [c[0]] && c[1..] == [];
      }
    }
  }

  /** A quote followed by U+0301 COMBINING ACUTE ACCENT is one Character in Swift, which is
      not a mapping key, so the loop copies the quote raw; the result does not read back. The
      scalar model escapes the quote and reads back. */
  lemma QuoteWithCombiningMarkLeaks()
    ensures EscapeClusters(["\"\U{0301}"]) == "\"\U{0301}"
    ensures Unescape(EscapeClusters(["\"\U{0301}"])) == None
    ensures EscapeBody("\"\U{0301}") == "\\\"\U{0301}"
    ensures Unescape(EscapeBody("\"\U{0301}")) == Some("\"\U{0301}")
  {
    assert "\"\U{0301}" !in EscapeMapping;
    assert "\"\U{0301}"[1..] == "\U{0301}";
    assert "\U{0301}"[1..] == "";
    EscapeRoundTrip("\"\U{0301}");
  }
}
