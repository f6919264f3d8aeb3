/**
 * Lower-casing of strings, as used by the case-insensitive lookups.
 *
 * Only ASCII letters are folded. Rust's `to_lowercase` also folds non-ASCII
 * letters. Only two non-ASCII characters fold into something containing an
 * ASCII letter: the Kelvin sign (into `k`) and U+0130 (into `i` followed by
 * U+0307). No keyword matched by this model contains `k` or U+0307, so the
 * lookups accept exactly the same strings.
 */
module Text {

  predicate IsUpper(ch: char) {
    'A' <= ch <= 'Z'
  }

  function LowerChar(ch: char): char {
    if IsUpper(ch) then (ch as int + 32) as char else ch
  }

  function Lower(s: string): string {
    seq(|s|, i requires 0 <= i < |s| => LowerChar(s[i]))
  }

  /** A string with no upper-case letter is its own lower-case form. */
  lemma LowerFixesLowercase(s: string)
    requires forall i :: 0 <= i < |s| ==> !IsUpper(s[i])
    ensures Lower(s) == s
  {
  }
}
