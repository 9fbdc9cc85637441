/**
 * The parts of the Java platform the screen and the message bean rely on:
 * the 32-bit `int` and `String.trim`.
 */
module JavaLang {

  /** Java's `int`: a 32-bit two's-complement integer. */
  newtype Int32 = x: int | -0x8000_0000 <= x < 0x8000_0000

  /** `String.trim` removes every character whose code is at most U+0020. */
  predicate IsBlank(c: char)
  {
    c <= ' '
  }

  /** True when `s` holds a character that `trim` keeps. */
  predicate HasVisibleChar(s: string)
  {
    exists i :: 0 <= i < |s| && !IsBlank(s[i])
  }

  /** Length of the blank prefix that `trim` strips from the front. */
  function LeadingBlanks(s: string): (n: nat)
    ensures n <= |s|
    ensures forall i :: 0 <= i < n ==> IsBlank(s[i])
    ensures n < |s| ==> !IsBlank(s[n])
  {
    if s == [] || !IsBlank(s[0]) then 0 else 1 + LeadingBlanks(s[1..])
  }

  /** Length of the blank suffix that `trim` strips from the back. */
  function TrailingBlanks(s: string): (n: nat)
    ensures n <= |s|
    ensures forall i :: |s| - n <= i < |s| ==> IsBlank(s[i])
    ensures n < |s| ==> !IsBlank(s[|s| - 1 - n])
  {
    if s == [] || !IsBlank(s[|s| - 1]) then 0 else 1 + TrailingBlanks(s[..|s| - 1])
  }

  /**
   * `String.trim`: first skip blanks from the front, then (while anything is
   * left) from the back. The result is the infix of `s` that starts at the
   * first non-blank character and ends at the last one.
   */
  function Trim(s: string): (r: string)
    ensures LeadingBlanks(s) + |r| <= |s|
    ensures r == s[LeadingBlanks(s)..LeadingBlanks(s) + |r|]
    ensures forall i :: 0 <= i < |s| && !(LeadingBlanks(s) <= i < LeadingBlanks(s) + |r|) ==> IsBlank(s[i])
    ensures r != [] ==> !IsBlank(r[0]) && !IsBlank(r[|r| - 1])
  {
    var rest := s[LeadingBlanks(s)..];
    rest[..|rest| - TrailingBlanks(rest)]
  }

  /** `s.trim().length() > 0` holds exactly when `s` has a character above U+0020. */
  lemma TrimNonEmptyIff(s: string)
    ensures |Trim(s)| > 0 <==> HasVisibleChar(s)
  {
  }

  /** Trimming a trimmed string changes nothing. */
  lemma TrimIdempotent(s: string)
    ensures Trim(Trim(s)) == Trim(s)
  {
  }
}
