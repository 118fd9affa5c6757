/** Case-insensitive substring matching, as the finders and the browse
    endpoint do it with String.toLowerCase and String.contains. */
module Text {
  import opened Wrappers
  import opened Domain

  /** Lower-cases one character. Only the ASCII letters are mapped; the
      locale-dependent rules Java applies to other characters are not part of
      this model, and no lemma depends on this definition. */
  function LowerChar(c: char): char {
    if 'A' <= c <= 'Z' then (c as int + 32) as char else c
  }

  function ToLowerCase(s: string): (r: string)
    ensures |r| == |s|
  {
    seq(|s|, i requires 0 <= i < |s| => LowerChar(s[i]))
  }

  predicate StartsWith(s: string, prefix: string) {
    |prefix| <= |s| && s[..|prefix|] == prefix
  }

  /** String.contains: the needle occurs at some position of the haystack. */
  predicate Contains(haystack: string, needle: string)
    decreases |haystack|
  {
    StartsWith(haystack, needle) || (|haystack| > 0 && Contains(haystack[1..], needle))
  }

  predicate MatchesName(p: Product, keyword: string) {
    Contains(ToLowerCase(p.name), ToLowerCase(keyword))
  }

  /** The description is present and its lower-cased text contains the
      lower-cased keyword. */
  predicate MatchesDescription(p: Product, keyword: string) {
    p.description.Some? && Contains(ToLowerCase(p.description.value), ToLowerCase(keyword))
  }

  /** The name-or-description test shared by the repository finder and the
      browse endpoint. */
  predicate MatchesKeyword(p: Product, keyword: string) {
    MatchesName(p, keyword) || MatchesDescription(p, keyword)
  }
}
