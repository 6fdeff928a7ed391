/**
 * The three field checks applied to incoming requests: the SWIFT code
 * constraint (size 11 and a regular expression), the class-level check that
 * the declared headquarters flag matches the code, and the upper-case check.
 */
module Validators {
  import opened Wrappers
  import opened Strings
  import opened Codes

  // ---------------------------------------------------------------------
  // @SwiftCode: @Size(min = 11, max = 11) and
  // @Pattern("^[A-Z]{6}[A-Z0-9]{2}[A-Z0-9]{3}$")
  // ---------------------------------------------------------------------

  /** The two messages the SWIFT code constraint can report. */
  datatype Violation = InvalidLength | InvalidPattern

  const LengthMessage: string := "Invalid code length. SWIFT code must be 11 characters long"
  const PatternMessage: string := "Invalid SWIFT code pattern"

  function Message(v: Violation): string {
    match v
    case InvalidLength => LengthMessage
    case InvalidPattern => PatternMessage
  }

  /** The character classes the pattern uses: `[A-Z]` and `[A-Z0-9]`. */
  datatype CharClass = Letters | LettersDigits

  predicate IsUpperLetter(c: char) {
    'A' <= c <= 'Z'
  }

  predicate IsUpperAlnum(c: char) {
    IsUpperLetter(c) || '0' <= c <= '9'
  }

  predicate InClass(c: char, cls: CharClass) {
    match cls
    case Letters => IsUpperLetter(c)
    case LettersDigits => IsUpperAlnum(c)
  }

  /** A bounded repetition `cls{count}` of an anchored pattern. */
  datatype Group = Group(cls: CharClass, count: nat)

  /** `^[A-Z]{6}[A-Z0-9]{2}[A-Z0-9]{3}$`, group by group. */
  const SwiftPattern: seq<Group> := [Group(Letters, 6), Group(LettersDigits, 2), Group(LettersDigits, 3)]

  /** The length every string matching `groups` must have. */
  function PatternLength(groups: seq<Group>): nat {
    if groups == [] then 0 else groups[0].count + PatternLength(groups[1..])
  }

  /** Whole-string match of `s` against the anchored sequence of groups. */
  predicate Matches(groups: seq<Group>, s: string) {
    if groups == [] then s == []
    else
      var g := groups[0];
      |s| >= g.count
      && (forall i :: 0 <= i < g.count ==> InClass(s[i], g.cls))
      && Matches(groups[1..], s[g.count..])
  }

  /** A match consumes exactly the pattern's length. */
  lemma {:induction false} MatchLength(groups: seq<Group>, s: string)
    requires Matches(groups, s)
    ensures |s| == PatternLength(groups)
  {
    if groups != [] {
      MatchLength(groups[1..], s[groups[0].count..]);
    }
  }

  /** What the pattern means position by position. */
  predicate SwiftShape(s: string) {
    |s| == 11
    && (forall i :: 0 <= i < 6 ==> IsUpperLetter(s[i]))
    && (forall i :: 6 <= i < 11 ==> IsUpperAlnum(s[i]))
  }

  /** The anchored pattern accepts exactly the strings of `SwiftShape`. */
  lemma SwiftPatternMeaning(s: string)
    ensures Matches(SwiftPattern, s) <==> SwiftShape(s)
  {
    var g1, g2, g3 := SwiftPattern[1..], SwiftPattern[2..], SwiftPattern[3..];
    assert g1 == [Group(LettersDigits, 2), Group(LettersDigits, 3)];
    assert g2 == [Group(LettersDigits, 3)];
    assert g3 == [];
    if SwiftShape(s) {
      assert s[6..][2..] == s[8..];
      assert s[8..][3..] == [];
      assert Matches(g2, s[8..]);
      assert Matches(g1, s[6..]);
    }
    if Matches(SwiftPattern, s) {
      MatchLength(SwiftPattern, s);
      assert PatternLength(SwiftPattern) == 11 by {
        assert PatternLength(g3) == 0;
      }
      assert Matches(g1, s[6..]);
      assert Matches(g2, s[6..][2..]);
      forall i | 6 <= i < 11 ensures IsUpperAlnum(s[i]) {
        if i < 8 {
          assert InClass(s[6..][i - 6], LettersDigits);
          assert s[6..][i - 6] == s[i];
        } else {
          assert InClass(s[6..][2..][i - 8], LettersDigits);
          assert s[6..][2..][i - 8] == s[i];
        }
      }
    }
  }

  /**
   * Every violation the SWIFT code constraint reports for `code`. Bean
   * Validation evaluates both composed constraints and reports each one
   * that fails; a null value passes both.
   */
  function SwiftCodeViolations(code: Option<string>): (r: set<Violation>)
    ensures code.None? ==> r == {}
    ensures code.Some? ==> (InvalidLength in r <==> |code.value| != 11)
    ensures code.Some? ==> (InvalidPattern in r <==> !SwiftShape(code.value))
  {
    match code
    case None => {}
    case Some(s) =>
      SwiftPatternMeaning(s);
      (if |s| != 11 then {InvalidLength} else {})
      + (if !Matches(SwiftPattern, s) then {InvalidPattern} else {})
  }

  /** The size check adds nothing: a wrong length always fails the pattern too. */
  lemma PatternImpliesLength(code: string)
    ensures InvalidLength in SwiftCodeViolations(Some(code)) ==> InvalidPattern in SwiftCodeViolations(Some(code))
  {
  }

  /** "ABC" is reported with "Invalid code length" (and the pattern message besides). */
  lemma ShortCodeRejected()
    ensures SwiftCodeViolations(Some("ABC")) == {InvalidLength, InvalidPattern}
    ensures Message(InvalidLength) == LengthMessage
  {
  }

  /** "123DEFGHIJK" has the right length but fails the pattern. */
  lemma DigitLeadCodeRejected()
    ensures SwiftCodeViolations(Some("123DEFGHIJK")) == {InvalidPattern}
  {
    assert !IsUpperLetter("123DEFGHIJK"[0]);
  }

  /** "ABCDEFGHXXX" and "BREXPLPWWAL" are accepted. */
  lemma WellFormedCodesAccepted()
    ensures SwiftCodeViolations(Some("ABCDEFGHXXX")) == {}
    ensures SwiftCodeViolations(Some("BREXPLPWWAL")) == {}
  {
  }

  // ---------------------------------------------------------------------
  // @HeadquarterMatch: isHeadquarter() == swiftCode.startsWith("XXX", 8)
  // ---------------------------------------------------------------------

  const HeadquarterMatchMessage: string := "SWIFT code does not match headquarter status"

  /** The class-level check on a bank request. */
  predicate HeadquarterMatchValid(headquarter: bool, swiftCode: string)
    // flagged a headquarters exactly when the first eleven characters are the code's own headquarters code
    ensures HeadquarterMatchValid(headquarter, swiftCode) <==>
      (headquarter <==> |swiftCode| >= 11 && HeadCode(swiftCode) == swiftCode[..11])
  {
    if |swiftCode| >= 11 then HasXXXAt8Iff(swiftCode); headquarter == HasXXXAt8(swiftCode)
    else headquarter == HasXXXAt8(swiftCode)
  }

  /** The messages the class-level check reports: none, or its one message. */
  function HeadquarterMatchViolations(headquarter: bool, swiftCode: string): (r: set<string>)
    ensures r == {} <==> HeadquarterMatchValid(headquarter, swiftCode)
    ensures r != {} ==> r == {HeadquarterMatchMessage}
  {
    if HeadquarterMatchValid(headquarter, swiftCode) then {} else {HeadquarterMatchMessage}
  }

  /** For an eleven-character code the check is `flag == endsWith("XXX")`. */
  lemma HeadquarterMatchOnElevenChars(headquarter: bool, swiftCode: string)
    requires |swiftCode| == 11
    ensures HeadquarterMatchValid(headquarter, swiftCode) <==> headquarter == EndsWithXXX(swiftCode)
  {
  }

  /** A code shorter than eleven characters never matches at offset 8: valid iff the flag is false. */
  lemma HeadquarterMatchOnShortCode(headquarter: bool, swiftCode: string)
    requires |swiftCode| < 11
    ensures HeadquarterMatchValid(headquarter, swiftCode) <==> !headquarter
  {
  }

  /**
   * Only offsets 8..10 count: "ABCDEFGHXXXZ" passes as a headquarters although
   * it does not end in "XXX", the parsers' test.
   */
  lemma HeadquarterMatchIgnoresTail()
    ensures HeadquarterMatchValid(true, "ABCDEFGHXXXZ") && !EndsWithXXX("ABCDEFGHXXXZ")
  {
    assert "ABCDEFGHXXXZ"[8..11] == "XXX";
  }

  /** "ABCDEFGHABC" declared a headquarters is rejected with the message; "ABCDEFGHXXX" is accepted. */
  lemma HeadquarterMatchExamples()
    ensures HeadquarterMatchViolations(true, "ABCDEFGHABC") == {HeadquarterMatchMessage}
    ensures HeadquarterMatchViolations(true, "ABCDEFGHXXX") == {}
    ensures HeadquarterMatchViolations(false, "ABCDEFGHABC") == {}
  {
    assert "ABCDEFGHXXX"[8..11] == "XXX";
    assert "ABCDEFGHABC"[8] == 'A';
  }

  /**
   * A request that passes both checks is shaped as its flag says: a
   * headquarters is its own headquarters code, a branch is not.
   */
  lemma ValidRequestShape(headquarter: bool, swiftCode: string)
    requires SwiftCodeViolations(Some(swiftCode)) == {}
    requires HeadquarterMatchValid(headquarter, swiftCode)
    ensures headquarter <==> HeadCode(swiftCode) == swiftCode
  {
    HeadCodeFixedIff(swiftCode);
  }

  // ---------------------------------------------------------------------
  // @Uppercase: null, or equal to its upper-cased form
  // ---------------------------------------------------------------------

  const UppercaseMessage: string := "must be uppercase"

  /** Null passes; a non-null value passes exactly when it has no lower-case letter. */
  predicate UppercaseValid(value: Option<string>)
    ensures UppercaseValid(value) <==>
      value.None? || forall i :: 0 <= i < |value.value| ==> !IsLowerAscii(value.value[i])
  {
    match value
    case None => true
    case Some(s) => ToUpperFixedIff(s); s == ToUpper(s)
  }

  /** The messages the upper-case constraint reports: its one message exactly when the value fails. */
  function UppercaseViolations(value: Option<string>): (r: set<string>)
    ensures r == {} <==> UppercaseValid(value)
    ensures r != {} ==> r == {UppercaseMessage}
  {
    if UppercaseValid(value) then {} else {UppercaseMessage}
  }

  /** Upper-casing is idempotent, so an upper-cased value always passes. */
  lemma UpperCasedIsValid(s: string)
    ensures UppercaseValid(Some(ToUpper(s)))
  {
    ToUpperIdempotent(s);
  }

  /** "Main street bank" is rejected with "must be uppercase"; null passes. */
  lemma UppercaseExamples()
    ensures UppercaseViolations(Some("Main street bank")) == {UppercaseMessage}
    ensures UppercaseViolations(None) == {}
  {
    LowerCaseRejected("Main street bank", 1);
  }

  /** One lower-case letter anywhere is enough to reject the value. */
  lemma LowerCaseRejected(s: string, i: nat)
    requires i < |s| && IsLowerAscii(s[i])
    ensures !UppercaseValid(Some(s))
  {
  }

  /** Digits, blanks and punctuation have no lower-case letter, so they pass. */
  lemma NoLettersIsValid()
    ensures UppercaseValid(Some("12 -/"))
  {
  }
}
