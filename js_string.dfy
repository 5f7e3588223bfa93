/**
 * The part of ECMAScript's string library the widget relies on:
 * `String.prototype.trim`, which removes leading and trailing white space
 * and line terminators.
 */
module JsString {

  /** The characters `trim` removes: the WhiteSpace and LineTerminator
      productions of ECMA-262 (tab, vertical tab, form feed, space, no-break
      space, zero width no-break space, the Unicode "Zs" space separators,
      line feed, carriage return, line and paragraph separators). */
  predicate IsWhitespace(c: char) {
    || c == '\t' || c == '\n' || c == '\U{000B}' || c == '\U{000C}' || c == '\r'
    || c == ' ' || c == '\U{00A0}' || c == '\U{1680}'
    || ('\U{2000}' <= c <= '\U{200A}')
    || c == '\U{2028}' || c == '\U{2029}' || c == '\U{202F}' || c == '\U{205F}'
    || c == '\U{3000}' || c == '\U{FEFF}'
  }

  /** Every character of `s` is white space (vacuously true of ""). */
  predicate IsBlank(s: string) {
    forall i :: 0 <= i < |s| ==> IsWhitespace(s[i])
  }

  /** `s` without its leading white space: a suffix of `s`, everything
      dropped is white space, and what is left does not start with any. */
  function TrimStart(s: string): (r: string)
    ensures |r| <= |s| && r == s[|s| - |r|..]
    ensures IsBlank(s[..|s| - |r|])
    ensures r == [] || !IsWhitespace(r[0])
    decreases |s|
  {
    if s != [] && IsWhitespace(s[0]) then
      var r := TrimStart(s[1..]);
      assert s[..|s| - |r|] == [s[0]] + s[1..][..|s[1..]| - |r|];
      r
    else
      s
  }

  /** `s` without its trailing white space: a prefix of `s`, everything
      dropped is white space, and what is left does not end with any. */
  function TrimEnd(s: string): (r: string)
    ensures |r| <= |s| && r == s[..|r|]
    ensures IsBlank(s[|r|..])
    ensures r == [] || !IsWhitespace(r[|r| - 1])
    decreases |s|
  {
    if s != [] && IsWhitespace(s[|s| - 1]) then
      var r := TrimEnd(s[..|s| - 1]);
      assert s[|r|..] == s[..|s| - 1][|r|..] + [s[|s| - 1]];
      r
    else
      s
  }

  /** How many leading white-space characters `trim` drops. */
  function LeadingBlank(s: string): (k: nat)
    ensures k <= |s| && IsBlank(s[..k])
  {
    |s| - |TrimStart(s)|
  }

  /** `String.prototype.trim`: the slice of `s` left after dropping white
      space at both ends; it neither starts nor ends with white space. */
  function Trim(s: string): (r: string)
    ensures LeadingBlank(s) + |r| <= |s|
    ensures r == s[LeadingBlank(s)..LeadingBlank(s) + |r|]
    ensures IsBlank(s[..LeadingBlank(s)])
    ensures IsBlank(s[LeadingBlank(s) + |r|..])
    ensures r != [] ==> !IsWhitespace(r[0]) && !IsWhitespace(r[|r| - 1])
  {
    TrimIsSlice(s);
    TrimDropsBlankTail(s);
    TrimEnd(TrimStart(s))
  }

  /** What is left after both trims is a slice of `s`. */
  lemma TrimIsSlice(s: string)
    ensures TrimEnd(TrimStart(s)) == s[LeadingBlank(s)..LeadingBlank(s) + |TrimEnd(TrimStart(s))|]
  {
    var t := TrimStart(s);
    var k := LeadingBlank(s);
    assert t == s[k..];
    assert TrimEnd(t) == t[..|TrimEnd(t)|];
  }

  /** Everything after that slice is white space. */
  lemma TrimDropsBlankTail(s: string)
    ensures IsBlank(s[LeadingBlank(s) + |TrimEnd(TrimStart(s))|..])
  {
    var t := TrimStart(s);
    var r := TrimEnd(t);
    var k := LeadingBlank(s);
    assert t == s[k..];
    assert s[k + |r|..] == t[|r|..];
  }

  /** The test `input.trim() === ""` holds exactly when every character of
      the input is white space. */
  lemma TrimEmptyIffBlank(s: string)
    ensures Trim(s) == [] <==> IsBlank(s)
  {
    var t := TrimStart(s);
    assert s == s[..|s| - |t|] + t;
    if Trim(s) == [] {
      assert t[0..] == t;
      assert t == [];
    }
  }
}
