/** The few operations of Go's `strings` package that the codec uses, on strings
    modelled as sequences of characters. */
module Strings {

  /** strings.HasPrefix */
  predicate HasPrefix(s: string, prefix: string) {
    |prefix| <= |s| && s[..|prefix|] == prefix
  }

  /** strings.Contains with a one-character needle. */
  predicate Contains(s: string, c: char) {
    exists i :: 0 <= i < |s| && s[i] == c
  }

  function LowerChar(c: char): (l: char)
    ensures 'A' <= c <= 'Z' ==> l as int == c as int + 32 && 'a' <= l <= 'z'
    ensures !('A' <= c <= 'Z') ==> l == c
  {
    if 'A' <= c <= 'Z' then (c as int + ('a' as int - 'A' as int)) as char else c
  }

  /** strings.ToLower restricted to ASCII letters. */
  function ToLower(s: string): (r: string)
    ensures |r| == |s|
    ensures forall i :: 0 <= i < |s| ==> r[i] == LowerChar(s[i])
    ensures forall i :: 0 <= i < |r| ==> !('A' <= r[i] <= 'Z')
  {
    seq(|s|, i requires 0 <= i < |s| => LowerChar(s[i]))
  }

  /** `s` starts with `prefix` when ASCII letter case in `s` is ignored. */
  predicate HasPrefixIgnoringCase(s: string, prefix: string) {
    |prefix| <= |s| && forall i :: 0 <= i < |prefix| ==> LowerChar(s[i]) == prefix[i]
  }

  /** Testing a prefix of the lower-cased string is matching the prefix case-insensitively. */
  lemma LoweredPrefix(s: string, prefix: string)
    ensures HasPrefix(ToLower(s), prefix) <==> HasPrefixIgnoringCase(s, prefix)
  {
    if HasPrefixIgnoringCase(s, prefix) {
      assert ToLower(s)[..|prefix|] == prefix;
    }
    if HasPrefix(ToLower(s), prefix) {
      forall i | 0 <= i < |prefix|
        ensures LowerChar(s[i]) == prefix[i]
      {
        assert ToLower(s)[..|prefix|][i] == prefix[i];
      }
    }
  }
}
