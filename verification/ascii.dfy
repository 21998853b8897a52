/** ASCII case mapping, the part of Rust's `str::to_lowercase` that can change
    whether a string spells one of the wire words of the model. */
module Ascii {

  predicate IsUpper(c: char) {
    'A' <= c <= 'Z'
  }

  predicate IsLower(c: char) {
    'a' <= c <= 'z'
  }

  /** Lower-case form of one character; characters outside `A`..`Z` are kept. */
  function LowerChar(c: char): (r: char)
    ensures IsUpper(c) ==> IsLower(r) && r as int - c as int == 32
    ensures !IsUpper(c) ==> r == c
  {
    if IsUpper(c) then (c as int + 32) as char else c
  }

  /** Upper-case form of one character; characters outside `a`..`z` are kept. */
  function UpperChar(c: char): (r: char)
    ensures IsLower(c) ==> IsUpper(r) && c as int - r as int == 32
    ensures !IsLower(c) ==> r == c
  {
    if IsLower(c) then (c as int - 32) as char else c
  }

  /** A lower-case word: every character is one of `a`..`z`. */
  predicate IsLowerWord(w: string) {
    forall i :: 0 <= i < |w| ==> IsLower(w[i])
  }

  /** Lower-cases a whole string, one character at a time. */
  function ToLower(s: string): (r: string)
    ensures |r| == |s|
    ensures forall i :: 0 <= i < |s| ==> r[i] == LowerChar(s[i])
  {
    if |s| == 0 then [] else ToLower(s[..|s| - 1]) + [LowerChar(s[|s| - 1])]
  }

  /** `s` spells the lower-case word `w` with each letter in either case:
      the reference description of "equal to `w` ignoring case". */
  predicate CaseVariantOf(s: string, w: string) {
    && |s| == |w|
    && forall i :: 0 <= i < |s| ==> s[i] == w[i] || s[i] == UpperChar(w[i])
  }

  /** Lowering a string yields a lower-case word exactly when the string is one of
      that word's case variants. */
  lemma {:induction false} ToLowerIsWordIff(s: string, w: string)
    requires IsLowerWord(w)
    ensures ToLower(s) == w <==> CaseVariantOf(s, w)
  {
    if ToLower(s) == w {
      forall i | 0 <= i < |s|
        ensures s[i] == w[i] || s[i] == UpperChar(w[i])
      {
        assert LowerChar(s[i]) == w[i];
      }
    }
    if CaseVariantOf(s, w) {
      var l := ToLower(s);
      assert |l| == |w|;
      forall i | 0 <= i < |s|
        ensures l[i] == w[i]
      {
        assert IsLower(w[i]);
      }
    }
  }
}
