/** The pieces of Go's `strings` package the wiring uses. */
module GoStrings {

  /** `strings.HasPrefix(s, prefix)`. */
  predicate HasPrefix(s: string, prefix: string)
  {
    |prefix| <= |s| && s[..|prefix|] == prefix
  }

  /**
   * `strings.CutPrefix(s, prefix)`: what follows `prefix` and `true` when `s` starts
   * with it; otherwise `s` itself, untouched, and `false`.
   */
  function CutPrefix(s: string, prefix: string): (r: (string, bool))
    ensures r.1 <==> HasPrefix(s, prefix)
    ensures r.1 ==> prefix + r.0 == s
    ensures !r.1 ==> r.0 == s
  {
    if HasPrefix(s, prefix) then (s[|prefix|..], true) else (s, false)
  }

  /** Cutting a prefix off a string that was built with it gives back what was appended. */
  lemma CutPrefixOfConcat(prefix: string, rest: string)
    ensures CutPrefix(prefix + rest, prefix) == (rest, true)
  {
    assert (prefix + rest)[..|prefix|] == prefix;
    assert (prefix + rest)[|prefix|..] == rest;
  }
}
