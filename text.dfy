/**
 * The string operations the dispatch tree relies on: `String.toLowerCase`,
 * `String.startsWith` and Java's rendering of a null string in a concatenation.
 */
module Text {
  import opened Wrappers

  /** `Character.toLowerCase` on the ASCII letters; every other character is kept. */
  function LowerChar(c: char): char
  {
    if 'A' <= c <= 'Z' then (c as int - 'A' as int + 'a' as int) as char else c
  }

  predicate IsLower(s: string)
  {
    forall i :: 0 <= i < |s| ==> !('A' <= s[i] <= 'Z')
  }

  /** `String.toLowerCase`, character by character. */
  function Lower(s: string): (r: string)
    ensures |r| == |s|
    ensures forall i :: 0 <= i < |s| ==> r[i] == LowerChar(s[i])
    ensures IsLower(r)
  {
    if s == [] then [] else [LowerChar(s[0])] + Lower(s[1..])
  }

  /** A string already in lower case is left as it is. */
  lemma LowerOfLower(s: string)
    requires IsLower(s)
    ensures Lower(s) == s
  {
    assert forall i :: 0 <= i < |s| ==> Lower(s)[i] == s[i];
  }

  lemma LowerIdempotent(s: string)
    ensures Lower(Lower(s)) == Lower(s)
  {
    LowerOfLower(Lower(s));
  }

  /** `s.startsWith(prefix)`; the empty prefix starts every string. */
  predicate StartsWith(s: string, prefix: string)
  {
    prefix <= s
  }

  /** How Java's `+` renders a possibly null string operand. */
  function JavaString(s: Option<string>): string
  {
    match s
    case None => "null"
    case Some(t) => t
  }

  predicate Distinct(s: seq<string>)
  {
    forall i, j :: 0 <= i < j < |s| ==> s[i] != s[j]
  }
}
