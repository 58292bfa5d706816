/**
 * The two Python string methods the texture-pack loader relies on: `str.strip()` and
 * `str.lower()` (restricted to ASCII letters).
 */
module PyStr {
  /** Characters Python's `str.strip()` removes (those for which `str.isspace()` holds). */
  predicate IsSpace(c: char)
  {
    c == ' ' || ('\t' <= c <= '\r') || ('\U{1C}' <= c <= '\U{1F}') || c == '\U{85}' || c == '\U{A0}'
    || c == '\U{1680}' || ('\U{2000}' <= c <= '\U{200A}') || c == '\U{2028}' || c == '\U{2029}'
    || c == '\U{202F}' || c == '\U{205F}' || c == '\U{3000}'
  }

  function StripLeft(s: string): (r: string)
    ensures |r| <= |s| && r == s[|s| - |r|..]
    ensures r == "" || !IsSpace(r[0])
    ensures forall k :: 0 <= k < |s| - |r| ==> IsSpace(s[k])
  {
    if s != [] && IsSpace(s[0]) then StripLeft(s[1..]) else s
  }

  function StripRight(s: string): (r: string)
    ensures |r| <= |s| && r == s[..|r|]
    ensures r == "" || !IsSpace(r[|r| - 1])
    ensures forall k :: |r| <= k < |s| ==> IsSpace(s[k])
  {
    if s != [] && IsSpace(s[|s| - 1]) then StripRight(s[..|s| - 1]) else s
  }

  /** `str.strip()`. */
  function Strip(s: string): string
  {
    StripRight(StripLeft(s))
  }

  /** A stripped line neither starts nor ends with whitespace, and stripping it again changes
      nothing. */
  lemma StripShape(s: string)
    ensures var t := Strip(s); t == "" || (!IsSpace(t[0]) && !IsSpace(t[|t| - 1]))
    ensures Strip(Strip(s)) == Strip(s)
  {
    var l := StripLeft(s);
    var t := StripRight(l);
    if t != "" {
      assert t[0] == l[0];
    }
    assert StripLeft(t) == t;
  }

  /** One step of each strip, for the examples below. */
  lemma StripLeftStep(s: string)
    requires s != [] && IsSpace(s[0])
    ensures StripLeft(s) == StripLeft(s[1..])
  {
  }

  lemma StripRightStep(s: string)
    requires s != [] && IsSpace(s[|s| - 1])
    ensures StripRight(s) == StripRight(s[..|s| - 1])
  {
  }

  lemma StripLeftStops(s: string)
    requires s != [] && !IsSpace(s[0])
    ensures StripLeft(s) == s
  {
  }

  lemma StripRightStops(s: string)
    requires s != [] && !IsSpace(s[|s| - 1])
    ensures StripRight(s) == s
  {
  }

  /** Leading blanks go and a '#' after them stays. */
  lemma StripIndentedExample()
    ensures Strip("  # leaves") == "# leaves"
  {
    var a := "  # leaves";
    assert IsSpace(a[0]);
    StripLeftStep(a);
    var a1 := a[1..];
    assert a1 == " # leaves" && IsSpace(a1[0]);
    StripLeftStep(a1);
    var a2 := a1[1..];
    assert a2 == "# leaves" && a2[0] == '#';
    StripLeftStops(a2);
    assert a2[|a2| - 1] == 's';
    StripRightStops(a2);
  }

  /** Blanks and a line break at both ends go. */
  lemma StripBothEndsExample()
    ensures Strip(" dirt\n") == "dirt"
  {
    var b := " dirt\n";
    assert IsSpace(b[0]);
    StripLeftStep(b);
    var b1 := b[1..];
    assert b1 == "dirt\n" && b1[0] == 'd';
    StripLeftStops(b1);
    assert IsSpace(b1[|b1| - 1]);
    StripRightStep(b1);
    var b2 := b1[..|b1| - 1];
    assert b2 == "dirt" && b2[|b2| - 1] == 't';
    StripRightStops(b2);
  }

  /** A line holding only a line break strips to nothing; inner blanks stay. */
  lemma StripBlankAndInnerExample()
    ensures Strip("\n") == ""
    ensures Strip("glass # note") == "glass # note"
  {
    var d := "\n";
    assert IsSpace(d[0]);
    StripLeftStep(d);
    assert d[1..] == "";
    var e := "glass # note";
    assert e[0] == 'g' && e[|e| - 1] == 'e';
    StripLeftStops(e);
    StripRightStops(e);
  }

  /** `str.lower()` on one character, for ASCII letters. */
  function LowerChar(c: char): char
  {
    if 'A' <= c <= 'Z' then (c as int + 32) as char else c
  }

  /** ASCII `str.lower()`. */
  function Lower(s: string): (r: string)
    ensures |r| == |s| && forall k :: 0 <= k < |s| ==> r[k] == LowerChar(s[k])
  {
    seq(|s|, k requires 0 <= k < |s| => LowerChar(s[k]))
  }
}
