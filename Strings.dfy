/**
 * The two `java.lang.String` operations the parsers apply to names and
 * addresses: `trim()` and `toUpperCase()`. Upper-casing is modelled over
 * ASCII only; every other character is left unchanged.
 *
 * The functions carry no postconditions of their own, so that a proof that
 * only moves records around does not drag their shape into its context;
 * what they compute is stated by the `...Shape` lemmas below.
 */
module Strings {

  /** `trim()` removes every character whose code is at most U+0020. */
  predicate IsBlank(c: char) {
    c <= ' '
  }

  /** Drops the leading blanks. */
  function TrimStart(s: string): string {
    if |s| > 0 && IsBlank(s[0]) then TrimStart(s[1..]) else s
  }

  /** Drops the trailing blanks. */
  function TrimEnd(s: string): string {
    if |s| > 0 && IsBlank(s[|s| - 1]) then TrimEnd(s[..|s| - 1]) else s
  }

  /** Java's `trim()`: blanks removed from both ends. */
  function Trim(s: string): string {
    TrimEnd(TrimStart(s))
  }

  predicate IsLowerAscii(c: char) {
    'a' <= c <= 'z'
  }

  function UpperChar(c: char): char {
    if IsLowerAscii(c) then (c as int - 32) as char else c
  }

  /** `toUpperCase()` over ASCII. */
  function ToUpper(s: string): string {
    if s == [] then [] else [UpperChar(s[0])] + ToUpper(s[1..])
  }

  /** `TrimStart` returns the suffix of `s` that starts at its first non-blank. */
  lemma {:induction false} TrimStartShape(s: string)
    ensures var r := TrimStart(s);
      && |r| <= |s| && r == s[|s| - |r|..]
      && (r == [] || !IsBlank(r[0]))
      && (forall i :: 0 <= i < |s| - |r| ==> IsBlank(s[i]))
  {
    if |s| > 0 && IsBlank(s[0]) {
      TrimStartShape(s[1..]);
      var r := TrimStart(s[1..]);
      forall i | 0 <= i < |s| - |r| ensures IsBlank(s[i]) {
        if i > 0 {
          assert s[i] == s[1..][i - 1];
        }
      }
    }
  }

  /** `TrimEnd` returns the prefix of `s` that ends at its last non-blank. */
  lemma {:induction false} TrimEndShape(s: string)
    ensures var r := TrimEnd(s);
      && |r| <= |s| && r == s[..|r|]
      && (r == [] || !IsBlank(r[|r| - 1]))
      && (forall i :: |r| <= i < |s| ==> IsBlank(s[i]))
  {
    if |s| > 0 && IsBlank(s[|s| - 1]) {
      TrimEndShape(s[..|s| - 1]);
      var r := TrimEnd(s[..|s| - 1]);
      forall i | |r| <= i < |s| ensures IsBlank(s[i]) {
        if i < |s| - 1 {
          assert s[i] == s[..|s| - 1][i];
        }
      }
    }
  }

  /**
   * `trim()` returns the part of `s` between its first and last non-blank
   * characters: only blanks are removed, and only from the two ends.
   */
  lemma {:induction false} TrimShape(s: string)
    ensures var r, lead := Trim(s), |s| - |TrimStart(s)|;
      && (r == [] || (!IsBlank(r[0]) && !IsBlank(r[|r| - 1])))
      && 0 <= lead && lead + |r| <= |s| && r == s[lead..lead + |r|]
      && (forall i :: 0 <= i < lead ==> IsBlank(s[i]))
      && (forall i :: lead + |r| <= i < |s| ==> IsBlank(s[i]))
  {
    var t := TrimStart(s);
    TrimStartShape(s);
    TrimEndShape(t);
    var r, lead := Trim(s), |s| - |t|;
    assert r == t[..|r|];
    forall i | lead + |r| <= i < |s| ensures IsBlank(s[i]) {
      assert s[i] == t[i - lead];
    }
  }

  /** `toUpperCase()` keeps the length and capitalises each character in place. */
  lemma {:induction false} ToUpperShape(s: string)
    ensures |ToUpper(s)| == |s|
    ensures forall i :: 0 <= i < |s| ==> ToUpper(s)[i] == UpperChar(s[i])
  {
    if s != [] {
      ToUpperShape(s[1..]);
    }
  }

  /** A string is its own upper-cased form exactly when it has no lower-case letter. */
  lemma {:induction false} ToUpperFixedIff(s: string)
    ensures s == ToUpper(s) <==> forall i :: 0 <= i < |s| ==> !IsLowerAscii(s[i])
  {
    ToUpperShape(s);
    if forall i :: 0 <= i < |s| ==> !IsLowerAscii(s[i]) {
      assert forall i :: 0 <= i < |s| ==> ToUpper(s)[i] == s[i];
    } else {
      var i :| 0 <= i < |s| && IsLowerAscii(s[i]);
      assert ToUpper(s)[i] != s[i];
    }
  }

  /** A string with no blank at either end is its own `trim()`. */
  lemma {:induction false} TrimOfTrimmed(s: string)
    requires s == [] || (!IsBlank(s[0]) && !IsBlank(s[|s| - 1]))
    ensures Trim(s) == s
  {
    assert TrimStart(s) == s;
    assert TrimEnd(s) == s;
  }

  /** Upper-casing twice is upper-casing once; the result has no lower-case letter. */
  lemma {:induction false} ToUpperIdempotent(s: string)
    ensures |ToUpper(s)| == |s|
    ensures forall i :: 0 <= i < |s| ==> !IsLowerAscii(ToUpper(s)[i])
    ensures ToUpper(ToUpper(s)) == ToUpper(s)
  {
    var u := ToUpper(s);
    ToUpperShape(s);
    ToUpperShape(u);
    assert forall i :: 0 <= i < |u| ==> ToUpper(u)[i] == u[i];
  }
}
