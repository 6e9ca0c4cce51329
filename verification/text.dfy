/** String helpers: `' '.join(...)` and an ASCII stand-in for `str.lower()`. */
module Text {

  /** Lower-cases one ASCII letter; every other character is left as it is. */
  function LowerChar(c: char): char
  {
    if 'A' <= c <= 'Z' then (c as int + 32) as char else c
  }

  /** `s.lower()`, restricted to ASCII letters. */
  function Lower(s: string): string
    decreases |s|
  {
    if s == [] then [] else [LowerChar(s[0])] + Lower(s[1..])
  }

  predicate NoUpper(s: string)
  {
    forall k :: 0 <= k < |s| ==> !('A' <= s[k] <= 'Z')
  }

  /** Lower-casing changes nothing in a string with no upper-case letter, and its result has none. */
  lemma {:induction false} LowerFixesLowerCase(s: string)
    ensures |Lower(s)| == |s|
    ensures NoUpper(Lower(s))
    ensures NoUpper(s) ==> Lower(s) == s
    decreases |s|
  {
    if s != [] {
      LowerFixesLowerCase(s[1..]);
      var r := Lower(s);
      assert r == [LowerChar(s[0])] + Lower(s[1..]);
      forall k | 0 <= k < |r|
        ensures !('A' <= r[k] <= 'Z')
      {
        if k > 0 { assert r[k] == Lower(s[1..])[k - 1]; }
      }
      if NoUpper(s) {
        assert NoUpper(s[1..]) by {
          forall k | 0 <= k < |s[1..]| ensures !('A' <= s[1..][k] <= 'Z') { assert s[1..][k] == s[k + 1]; }
        }
      }
    }
  }

  /** `' '.join(words)`: the words separated by single spaces. */
  function JoinSpace(words: seq<string>): string
    decreases |words|
  {
    if |words| == 0 then ""
    else if |words| == 1 then words[0]
    else words[0] + " " + JoinSpace(words[1..])
  }

  /** Joining n non-empty words gives at least n characters. */
  lemma {:induction false} JoinSpaceLength(words: seq<string>)
    requires forall k :: 0 <= k < |words| ==> |words[k]| > 0
    ensures |JoinSpace(words)| >= |words|
    decreases |words|
  {
    if |words| > 1 {
      JoinSpaceLength(words[1..]);
    }
  }
}
