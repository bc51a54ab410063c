/** Prefix and suffix tests on strings, used to take assembled prompts apart again. */
module Text {

  predicate StartsWith(s: string, prefix: string)
  {
    |prefix| <= |s| && s[..|prefix|] == prefix
  }

  predicate EndsWith(s: string, suffix: string)
  {
    |suffix| <= |s| && s[|s| - |suffix|..] == suffix
  }

  /** Removes `suffix` from the end of `s` when it is there, and says whether it was. */
  function StripSuffix(s: string, suffix: string): (r: (string, bool))
    ensures r.1 <==> EndsWith(s, suffix)
    ensures r.1 ==> r.0 + suffix == s
    ensures !r.1 ==> r.0 == s
  {
    if EndsWith(s, suffix) then (s[..|s| - |suffix|], true) else (s, false)
  }

  lemma EndsWithAppend(x: string, a: string)
    ensures EndsWith(x + a, a)
    ensures StripSuffix(x + a, a) == (x, true)
  {
    assert (x + a)[|x|..] == a;
    assert (x + a)[..|x|] == x;
  }

  /** Two strings whose k-th characters from the end differ cannot end one another. */
  lemma NotEndsWith(x: string, a: string, b: string, k: nat)
    requires 0 < k <= |a| && k <= |b|
    requires a[|a| - k] != b[|b| - k]
    ensures !EndsWith(x + a, b)
    ensures StripSuffix(x + a, b) == (x + a, false)
  {
  }
}
