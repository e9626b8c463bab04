/** Case-insensitive comparison of account addresses, as the owner check does it by
    lower-casing both sides. Addresses are hexadecimal strings, so lower-casing is modelled
    on the ASCII letters only. */
module Addresses {

  /** Lower-case one character: `A`..`Z` map to `a`..`z`, everything else is kept. */
  function LowerChar(c: char): (d: char)
    ensures 'A' <= c <= 'Z' ==> 'a' <= d <= 'z' && d as int - c as int == 32
    ensures !('A' <= c <= 'Z') ==> d == c
  {
    if 'A' <= c <= 'Z' then (c as int + 32) as char else c
  }

  /** `toLowerCase`: the same length, lower-cased character by character. */
  function ToLower(s: string): (r: string)
    ensures |r| == |s|
    ensures forall i :: 0 <= i < |s| ==> r[i] == LowerChar(s[i])
  {
    if s == [] then [] else [LowerChar(s[0])] + ToLower(s[1..])
  }

  /** The owner test: both addresses lower-cased, then compared. */
  predicate SameAddress(a: string, b: string) {
    ToLower(a) == ToLower(b)
  }

  /** Two addresses are the same exactly when they have the same length and agree at every
      position once both characters are lower-cased. */
  lemma SameAddressPointwise(a: string, b: string)
    ensures SameAddress(a, b) <==>
      |a| == |b| && forall i :: 0 <= i < |a| ==> LowerChar(a[i]) == LowerChar(b[i])
  {
  }

  /** Lower-casing is idempotent, so the comparison is unchanged when either side is
      already lower-case. */
  lemma ToLowerIdempotent(s: string)
    ensures ToLower(ToLower(s)) == ToLower(s)
  {
  }

  /** The comparison ignores case: it is an equivalence, and an address matches its own
      lower-cased form. */
  lemma SameAddressIsEquivalence(a: string, b: string, c: string)
    ensures SameAddress(a, a)
    ensures SameAddress(a, b) ==> SameAddress(b, a)
    ensures SameAddress(a, b) && SameAddress(b, c) ==> SameAddress(a, c)
    ensures SameAddress(a, ToLower(a))
  {
  }
}
