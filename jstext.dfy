/**
 * The part of JavaScript's string semantics the server relies on:
 * `String.prototype.trim`, which removes leading and trailing white space
 * and line terminators as the ECMAScript language specification defines them.
 */
module JsText {

  /** ECMAScript WhiteSpace and LineTerminator code points. */
  const JsSpaces: set<char> := {
    '\t', '\n', '\U{B}', '\U{C}', '\r', ' ', '\U{A0}', '\U{1680}',
    '\U{2000}', '\U{2001}', '\U{2002}', '\U{2003}', '\U{2004}', '\U{2005}',
    '\U{2006}', '\U{2007}', '\U{2008}', '\U{2009}', '\U{200A}',
    '\U{2028}', '\U{2029}', '\U{202F}', '\U{205F}', '\U{3000}', '\U{FEFF}'
  }

  predicate IsJsSpace(c: char)
  {
    c in JsSpaces
  }

  /** Drops the leading white space of `s`: the result is the suffix of `s` that starts at its first non-space. */
  function TrimStart(s: string): (r: string)
    ensures |r| <= |s| && r == s[|s| - |r|..]
    ensures forall i :: 0 <= i < |s| - |r| ==> IsJsSpace(s[i])
    ensures r != [] ==> !IsJsSpace(r[0])
  {
    if s == [] || !IsJsSpace(s[0]) then s else TrimStart(s[1..])
  }

  /** Drops the trailing white space of `s`: the result is the prefix of `s` that ends at its last non-space. */
  function TrimEnd(s: string): (r: string)
    ensures |r| <= |s| && r == s[..|r|]
    ensures forall i :: |r| <= i < |s| ==> IsJsSpace(s[i])
    ensures r != [] ==> !IsJsSpace(r[|r| - 1])
    ensures s != [] && !IsJsSpace(s[0]) ==> r != [] && r[0] == s[0]
  {
    if s == [] || !IsJsSpace(s[|s| - 1]) then s else TrimEnd(s[..|s| - 1])
  }

  /** White space at positions `k..` of the suffix `s[a..]` is white space at positions `a + k..` of `s`. */
  lemma SuffixSpaces(s: string, a: nat, k: nat)
    requires a + k <= |s|
    requires forall i :: k <= i < |s| - a ==> IsJsSpace(s[a..][i])
    ensures forall i :: a + k <= i < |s| ==> IsJsSpace(s[i])
  {
    forall i | a + k <= i < |s|
      ensures IsJsSpace(s[i])
    {
      assert s[i] == s[a..][i - a];
    }
  }

  /**
   * `s.trim()`: the text between the leading white space (which `TrimStart`
   * removes) and the trailing white space; neither end of the result is white
   * space.
   */
  function Trim(s: string): (r: string)
    ensures |r| <= |s|
    ensures var a := |s| - |TrimStart(s)|;
            && a + |r| <= |s| && r == s[a..a + |r|]
            && (forall i :: a + |r| <= i < |s| ==> IsJsSpace(s[i]))
    ensures r != [] ==> !IsJsSpace(r[0]) && !IsJsSpace(r[|r| - 1])
  {
    var t := TrimStart(s);
    var a := |s| - |t|;
    var r := TrimEnd(t);
    assert t == s[a..] && r == t[..|r|];
    SuffixSpaces(s, a, |r|);
    r
  }

  /** `s.trim()` is empty exactly when `s` is all white space. */
  lemma TrimEmptyIff(s: string)
    ensures Trim(s) == [] <==> forall i :: 0 <= i < |s| ==> IsJsSpace(s[i])
  {
    var r := Trim(s);
    var a := |s| - |TrimStart(s)|;
    if r != [] {
      assert s[a] == r[0];
    }
  }
}
