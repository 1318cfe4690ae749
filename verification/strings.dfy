/** Text helpers used by the scheme check and by the error messages. */
module Strings {

  /** `str::starts_with` with a literal pattern, compared character by
      character from the front. */
  function StartsWith(s: string, prefix: string): (r: bool)
    ensures r <==> |prefix| <= |s| && s[..|prefix|] == prefix
    decreases prefix
  {
    |prefix| == 0 || (0 < |s| && s[0] == prefix[0] && StartsWith(s[1..], prefix[1..]))
  }

  /** Every string starts with anything it was built from by appending. */
  lemma StartsWithAppend(prefix: string, rest: string)
    ensures StartsWith(prefix + rest, prefix)
  {
    assert (prefix + rest)[..|prefix|] == prefix;
  }

  /** A string that starts with `prefix` is `prefix` followed by the rest. */
  lemma StartsWithSplits(s: string, prefix: string)
    requires StartsWith(s, prefix)
    ensures s == prefix + s[|prefix|..]
  {
    assert s == s[..|prefix|] + s[|prefix|..];
  }
}
