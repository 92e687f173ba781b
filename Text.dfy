/**
 * String helpers used by both halves of the system: whitespace trimming as
 * JavaScript's `String.prototype.trim` and Python's `str.strip()` do it, and
 * `Array.prototype.join`.
 */
module Text {

  /** Characters removed by JavaScript's `trim()`: WhiteSpace and LineTerminator. */
  predicate IsJsSpace(c: char) {
    c == '\t' || c == '\n' || c == '\U{000B}' || c == '\U{000C}' || c == '\r' || c == ' '
    || c == '\U{00A0}' || c == '\U{1680}' || ('\U{2000}' <= c <= '\U{200A}')
    || c == '\U{2028}' || c == '\U{2029}' || c == '\U{202F}' || c == '\U{205F}'
    || c == '\U{3000}' || c == '\U{FEFF}'
  }

  /** Characters removed by Python's `str.strip()` with no argument (`str.isspace`). */
  predicate IsPySpace(c: char) {
    ('\t' <= c <= '\r') || ('\U{001C}' <= c <= '\U{001F}') || c == ' '
    || c == '\U{0085}' || c == '\U{00A0}' || c == '\U{1680}' || ('\U{2000}' <= c <= '\U{200A}')
    || c == '\U{2028}' || c == '\U{2029}' || c == '\U{202F}' || c == '\U{205F}'
    || c == '\U{3000}'
  }

  /** Every character of `s` is whitespace in the sense of `space`. */
  predicate AllSpace(s: string, space: char -> bool) {
    forall i :: 0 <= i < |s| ==> space(s[i])
  }

  function TrimStart(s: string, space: char -> bool): string {
    if |s| > 0 && space(s[0]) then TrimStart(s[1..], space) else s
  }

  function TrimEnd(s: string, space: char -> bool): string {
    if |s| > 0 && space(s[|s| - 1]) then TrimEnd(s[..|s| - 1], space) else s
  }

  /** Removes leading and trailing whitespace. */
  function Trim(s: string, space: char -> bool): string {
    TrimEnd(TrimStart(s, space), space)
  }

  /** `s.trim()` in JavaScript. */
  function JsTrim(s: string): string { Trim(s, IsJsSpace) }

  /** `s.strip()` in Python. */
  function PyStrip(s: string): string { Trim(s, IsPySpace) }

  /** Trimming keeps a contiguous slice of the input whose ends are not whitespace. */
  lemma {:induction false} TrimStartIsSuffix(s: string, space: char -> bool)
    ensures var t := TrimStart(s, space);
      |t| <= |s| && t == s[|s| - |t|..] && AllSpace(s[..|s| - |t|], space)
      && (|t| > 0 ==> !space(t[0]))
    decreases |s|
  {
    if |s| > 0 && space(s[0]) {
      TrimStartIsSuffix(s[1..], space);
      var t := TrimStart(s[1..], space);
      assert s[1..][|s| - 1 - |t|..] == s[|s| - |t|..];
      assert s[..|s| - |t|] == [s[0]] + s[1..][..|s| - 1 - |t|];
    }
  }

  lemma {:induction false} TrimEndIsPrefix(s: string, space: char -> bool)
    ensures var t := TrimEnd(s, space);
      |t| <= |s| && t == s[..|t|] && AllSpace(s[|t|..], space)
      && (|t| > 0 ==> !space(t[|t| - 1]))
    decreases |s|
  {
    if |s| > 0 && space(s[|s| - 1]) {
      var s' := s[..|s| - 1];
      TrimEndIsPrefix(s', space);
      var t := TrimEnd(s', space);
      assert s'[..|t|] == s[..|t|];
      assert s[|t|..] == s'[|t|..] + [s[|s| - 1]];
    }
  }

  /**
   * A string trims to "" exactly when it is all whitespace: the blank-input
   * tests `!s.trim()` and `not s.strip()` accept nothing else.
   */
  lemma TrimEmptyIffAllSpace(s: string, space: char -> bool)
    ensures Trim(s, space) == "" <==> AllSpace(s, space)
  {
    TrimStartIsSuffix(s, space);
    var u := TrimStart(s, space);
    TrimEndIsPrefix(u, space);
    assert |u| > 0 ==> u[0] == s[|s| - |u|];
    if Trim(s, space) == "" {
      assert s == s[..|s| - |u|] + u;
      assert forall i :: 0 <= i < |u| ==> space(u[i]) by {
        assert u[..0] == [] && u[0..] == u;
      }
    }
  }

  /** `parts.join(sep)` in JavaScript. */
  function Join(parts: seq<string>, sep: string): string {
    if |parts| == 0 then ""
    else if |parts| == 1 then parts[0]
    else parts[0] + sep + Join(parts[1..], sep)
  }

  /**
   * With a non-empty separator the joined string is empty only for no parts or
   * for a single empty part.
   */
  lemma JoinEmptyIff(parts: seq<string>, sep: string)
    requires sep != ""
    ensures Join(parts, sep) == "" <==> |parts| == 0 || (|parts| == 1 && parts[0] == "")
  {
    if |parts| >= 2 {
      assert |Join(parts, sep)| >= |sep|;
    }
  }

  /** The joined string's length is the parts' lengths plus one separator between neighbours. */
  lemma {:induction false} JoinLength(parts: seq<string>, sep: string)
    requires |parts| > 0
    ensures |Join(parts, sep)| == TotalLength(parts) + (|parts| - 1) * |sep|
  {
    if |parts| > 1 {
      JoinLength(parts[1..], sep);
    }
  }

  function TotalLength(parts: seq<string>): nat {
    if parts == [] then 0 else |parts[0]| + TotalLength(parts[1..])
  }
}
