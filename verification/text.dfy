/**
 The three string operations the name filter uses: `trim()`, `toLowerCase()` and
 `includes()`. Lower-casing is modelled on ASCII letters only.
 */
module Text {

  /** The characters `String.prototype.trim` strips: the ECMAScript WhiteSpace and
      LineTerminator code points (tab, vertical tab, form feed, space, no-break space,
      byte order mark, the Unicode space separators, line feed, carriage return, and
      the line and paragraph separators). */
  predicate IsJsSpace(c: char) {
    || c == '\t' || c == '\n' || c == '\U{B}' || c == '\U{C}' || c == '\r' || c == ' '
    || c == '\U{A0}' || c == '\U{1680}' || ('\U{2000}' <= c <= '\U{200A}')
    || c == '\U{2028}' || c == '\U{2029}' || c == '\U{202F}' || c == '\U{205F}'
    || c == '\U{3000}' || c == '\U{FEFF}'
  }

  /** Drops leading white space: the result is the suffix of `s` that starts at its
      first non-space character. */
  function TrimStart(s: string): (r: string)
    ensures |r| <= |s| && r == s[|s| - |r|..]
    ensures forall i :: 0 <= i < |s| - |r| ==> IsJsSpace(s[i])
    ensures r == [] || !IsJsSpace(r[0])
  {
    if s != [] && IsJsSpace(s[0]) then TrimStart(s[1..]) else s
  }

  /** Drops trailing white space: the result is the prefix of `s` that ends at its
      last non-space character. */
  function TrimEnd(s: string): (r: string)
    ensures |r| <= |s| && r == s[..|r|]
    ensures forall i :: |r| <= i < |s| ==> IsJsSpace(s[i])
    ensures r == [] || !IsJsSpace(r[|r| - 1])
  {
    if s != [] && IsJsSpace(s[|s| - 1]) then TrimEnd(s[..|s| - 1]) else s
  }

  /** `s.trim()`: the slice of `s` between its leading and its trailing white space. */
  function Trim(s: string): (r: string)
    ensures |r| <= |s|
    ensures r == [] || (!IsJsSpace(r[0]) && !IsJsSpace(r[|r| - 1]))
  {
    TrimEnd(TrimStart(s))
  }

  /** What `trim()` leaves is a slice of the input with only white space around it. */
  lemma TrimIsSlice(s: string)
    ensures exists lo :: 0 <= lo <= |s| - |Trim(s)| && Trim(s) <= s[lo..]
                         && (forall i :: 0 <= i < lo ==> IsJsSpace(s[i]))
                         && (forall i :: lo + |Trim(s)| <= i < |s| ==> IsJsSpace(s[i]))
  {
    var lo := TrimStartsAt(s);
    assert Trim(s) <= s[lo..];
  }

  /** Where the slice `trim()` leaves begins: after the leading white space. */
  lemma TrimStartsAt(s: string) returns (lo: int)
    ensures 0 <= lo <= |s| - |Trim(s)| && Trim(s) <= s[lo..]
    ensures forall i :: 0 <= i < lo ==> IsJsSpace(s[i])
    ensures forall i :: lo + |Trim(s)| <= i < |s| ==> IsJsSpace(s[i])
  {
    var t := TrimStart(s);
    var r := TrimEnd(t);
    lo := |s| - |t|;
    assert t == s[lo..];
    assert r <= t;
    forall i | lo + |r| <= i < |s|
      ensures IsJsSpace(s[i])
    {
      assert s[i] == t[i - lo];
    }
  }

  function LowerChar(c: char): (d: char)
    ensures 'A' <= c <= 'Z' ==> d as int == c as int + 32
    ensures !('A' <= c <= 'Z') ==> d == c
  {
    if 'A' <= c <= 'Z' then (c as int + 32) as char else c
  }

  /** `s.toLowerCase()` restricted to ASCII letters. */
  function Lower(s: string): (r: string)
    ensures |r| == |s|
    ensures forall i :: 0 <= i < |s| ==> r[i] == LowerChar(s[i])
  {
    seq(|s|, i requires 0 <= i < |s| => LowerChar(s[i]))
  }

  /** `s.includes(t)`: `t` occurs in `s` at some position. */
  function Contains(s: string, t: string): (b: bool)
    ensures b <==> exists i :: 0 <= i <= |s| && t <= s[i..]
  {
    if t <= s then
      assert t <= s[0..];
      true
    else if s == [] then
      false
    else
      var b := Contains(s[1..], t);
      assert forall i :: 1 <= i <= |s| ==> s[i..] == s[1..][i - 1..];
      if b then
        var j :| 0 <= j <= |s[1..]| && t <= s[1..][j..];
        assert t <= s[j + 1..];
        b
      else
        b
  }

  /** Trimming never turns a non-space character into a space, so the search term is
      empty after trimming exactly when the input is all white space. */
  lemma TrimEmptyIffAllSpace(s: string)
    ensures Trim(s) == [] <==> forall i :: 0 <= i < |s| ==> IsJsSpace(s[i])
  {
  }
}
