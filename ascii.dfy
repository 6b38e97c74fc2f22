/**
  ASCII case mapping and substring search on strings, the two string
  primitives the script's name matching and screen id derivation rely on
  (`str.lower()` and the `in` operator on strings).
 */
module Ascii {

  predicate IsUpper(c: char) {
    'A' <= c <= 'Z'
  }

  /** `str.lower()` on one character, restricted to ASCII letters. */
  function Lower(c: char): char {
    if IsUpper(c) then (c as int + 32) as char else c
  }

  /** `str.lower()` on a whole string: length preserving. */
  function LowerString(s: string): (r: string)
    ensures |r| == |s|
    ensures forall k :: 0 <= k < |s| ==> r[k] == Lower(s[k])
  {
    seq(|s|, k requires 0 <= k < |s| => Lower(s[k]))
  }

  /** Python's `p in s` for strings: `p` occurs contiguously in `s`. */
  predicate IsSubstring(p: string, s: string) {
    exists i :: 0 <= i <= |s| - |p| && p <= s[i..]
  }

  lemma LowerIsLower(c: char)
    ensures !IsUpper(Lower(c))
    ensures Lower(Lower(c)) == Lower(c)
    ensures IsUpper(c) <==> Lower(c) != c
  {
  }

  lemma LowerStringIdempotent(s: string)
    ensures LowerString(LowerString(s)) == LowerString(s)
  {
    var once := LowerString(s);
    forall k | 0 <= k < |s|
      ensures LowerString(once)[k] == once[k]
    {
      LowerIsLower(s[k]);
    }
  }

  lemma SubstringOfSelf(s: string)
    ensures IsSubstring(s, s)
  {
    assert s <= s[0..];
  }

  /** A slice `s[i..i+n]` occurs in `s`. */
  lemma SliceIsSubstring(s: string, i: nat, n: nat)
    requires i + n <= |s|
    ensures IsSubstring(s[i..i + n], s)
  {
    assert s[i..i + n] <= s[i..];
  }
}
