/** Anchored regular expressions as the SDKs write them, with their meaning as sets of strings. */
module Regex {

  datatype Range = Range(lo: char, hi: char)

  /** A character class, concatenation and star: all that the manifest grammars use. */
  datatype Re = Class(ranges: seq<Range>) | Cat(left: Re, right: Re) | Star(body: Re)

  predicate InClass(ranges: seq<Range>, c: char) {
    exists i :: 0 <= i < |ranges| && ranges[i].lo <= c <= ranges[i].hi
  }

  /** `re` matches the whole of `s`. */
  ghost predicate Matches(re: Re, s: string)
    decreases re, |s|
  {
    match re
    case Class(ranges) => |s| == 1 && InClass(ranges, s[0])
    case Cat(left, right) => exists i :: 0 <= i <= |s| && Matches(left, s[..i]) && Matches(right, s[i..])
    case Star(body) => s == "" || exists i :: 0 < i <= |s| && Matches(body, s[..i]) && Matches(re, s[i..])
  }

  predicate AllIn(ranges: seq<Range>, s: string) { forall i :: 0 <= i < |s| ==> InClass(ranges, s[i]) }

  function Lit(c: char): Re { Class([Range(c, c)]) }

  /** A class repeated any number of times. */
  lemma {:induction false} StarOfClass(ranges: seq<Range>, s: string)
    ensures Matches(Star(Class(ranges)), s) <==> AllIn(ranges, s)
    decreases |s|
  {
    if s != "" {
      StarOfClass(ranges, s[1..]);
      if AllIn(ranges, s) {
        assert Matches(Class(ranges), s[..1]) && Matches(Star(Class(ranges)), s[1..]);
      }
      if Matches(Star(Class(ranges)), s) {
        var i :| 0 < i <= |s| && Matches(Class(ranges), s[..i]) && Matches(Star(Class(ranges)), s[i..]);
        assert i == 1 && AllIn(ranges, s[1..]);
        assert forall k :: 1 <= k < |s| ==> s[k] == s[1..][k - 1];
      }
    }
  }

  /** `[first][rest]*`: a slug. */
  predicate IsSlug(first: seq<Range>, rest: seq<Range>, s: string) {
    s != "" && InClass(first, s[0]) && AllIn(rest, s[1..])
  }

  lemma SlugMatches(first: seq<Range>, rest: seq<Range>, s: string)
    ensures Matches(Cat(Class(first), Star(Class(rest))), s) <==> IsSlug(first, rest, s)
  {
    if IsSlug(first, rest, s) {
      StarOfClass(rest, s[1..]);
      assert Matches(Class(first), s[..1]) && Matches(Star(Class(rest)), s[1..]);
    }
    if Matches(Cat(Class(first), Star(Class(rest))), s) {
      var i :| 0 <= i <= |s| && Matches(Class(first), s[..i]) && Matches(Star(Class(rest)), s[i..]);
      assert i == 1;
      StarOfClass(rest, s[1..]);
    }
  }
}
