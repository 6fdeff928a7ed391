/**
 * The shape of a SWIFT code that the catalogue relies on: a code ending in
 * "XXX" is a headquarters, and its first eight characters (institution,
 * country and location) identify the branches that belong to it.
 */
module Codes {

  const HeadMarker: string := "XXX"

  /** `code.endsWith("XXX")`, the parsers' headquarters test. */
  predicate EndsWithXXX(code: string) {
    |code| >= 3 && code[|code| - 3..] == HeadMarker
  }

  /** `code.startsWith("XXX", 8)`: false when fewer than three characters follow offset 8. */
  predicate HasXXXAt8(code: string) {
    |code| >= 11 && code[8..11] == HeadMarker
  }

  /** `code.substring(0, 8)`, defined (as in Java) only for codes of at least eight characters. */
  function Prefix(code: string): string
    requires |code| >= 8
  {
    code[..8]
  }

  /** `code.substring(code.length() - 3)`, the key BankCSVParser sorts by. */
  function Suffix(code: string): string
    requires |code| >= 3
  {
    code[|code| - 3..]
  }

  /** `code.substring(0, 8) + "XXX"`: the code of the headquarters a branch belongs to. */
  function HeadCode(code: string): (r: string)
    requires |code| >= 8
    ensures |r| == 11 && Prefix(r) == Prefix(code) && EndsWithXXX(r) && HasXXXAt8(r)
  {
    Prefix(code) + HeadMarker
  }

  /** "XXX" at offset 8 means the first eleven characters are the code's headquarters code. */
  lemma HasXXXAt8Iff(code: string)
    requires |code| >= 11
    ensures HasXXXAt8(code) <==> HeadCode(code) == code[..11]
  {
    assert code[..11] == code[..8] + code[8..11];
    if HeadCode(code) == code[..11] {
      assert code[8..11] == code[..11][8..11];
    }
  }

  /** A code is its own headquarters code exactly when it is eleven characters ending in "XXX". */
  lemma HeadCodeFixedIff(code: string)
    requires |code| >= 8
    ensures HeadCode(code) == code <==> |code| == 11 && EndsWithXXX(code)
  {
    if |code| == 11 && EndsWithXXX(code) {
      assert code == code[..8] + code[8..];
    }
  }

  /** Looking up the headquarters of a headquarters code gives the same code back. */
  lemma HeadCodeIdempotent(code: string)
    requires |code| >= 8
    ensures HeadCode(HeadCode(code)) == HeadCode(code)
  {
    assert Prefix(HeadCode(code)) == Prefix(code);
  }
}
