/** The template path grammar of theme manifests (`packages/theme-sdk/src/manifest.ts`, TEMPLATE_PATH_RE). */
module TemplatePath {
  import opened Regex
  import opened Strings

  const FIRST: seq<Range> := [Range('a', 'z'), Range('0', '9')]
  const REST: seq<Range> := [Range('a', 'z'), Range('0', '9'), Range('_', '_'), Range('-', '-')]
  const SEGMENT_RE: Re := Cat(Class(FIRST), Star(Class(REST)))
  const SLASH_SEGMENT_RE: Re := Cat(Lit('/'), SEGMENT_RE)
  const JSON_RE: Re := Cat(Lit('.'), Cat(Lit('j'), Cat(Lit('s'), Cat(Lit('o'), Lit('n')))))

  /** `^[a-z0-9][a-z0-9_-]*(\/[a-z0-9][a-z0-9_-]*)*\.json$` */
  const TEMPLATE_PATH_RE: Re := Cat(SEGMENT_RE, Cat(Star(SLASH_SEGMENT_RE), JSON_RE))

  predicate IsSegment(s: string) { IsSlug(FIRST, REST, s) }

  predicate IsSlugChar(c: char) { 'a' <= c <= 'z' || '0' <= c <= '9' }

  lemma ClassesSpeltOut(c: char)
    ensures InClass(FIRST, c) <==> IsSlugChar(c)
    ensures InClass(REST, c) <==> IsSlugChar(c) || c == '_' || c == '-'
  {
    assert FIRST[0] == REST[0] == Range('a', 'z') && FIRST[1] == REST[1] == Range('0', '9');
    assert REST[2] == Range('_', '_') && REST[3] == Range('-', '-');
  }

  /** A segment, character by character. */
  lemma SegmentSpeltOut(s: string)
    ensures IsSegment(s)
            <==> s != "" && IsSlugChar(s[0])
                 && forall i :: 1 <= i < |s| ==> IsSlugChar(s[i]) || s[i] == '_' || s[i] == '-'
  {
    forall c ensures InClass(FIRST, c) <==> IsSlugChar(c)
             ensures InClass(REST, c) <==> IsSlugChar(c) || c == '_' || c == '-'
    {
      ClassesSpeltOut(c);
    }
    assert s != "" ==> forall i :: 1 <= i < |s| ==> s[i] == s[1..][i - 1];
  }

  predicate AllSegments(segs: seq<string>) { forall i :: 0 <= i < |segs| ==> IsSegment(segs[i]) }

  /** `/`-joined segments followed by `.json`. */
  function Path(segs: seq<string>): string { Join(segs, '/') + ".json" }

  /** The segments read back: split on `/`, suffix stripped. */
  function SegmentsOf(path: string): seq<string>
    requires |path| >= 5
  {
    Split(path[..|path| - 5], '/')
  }

  // ---------------------------------------------------------------- the pieces of the expression

  lemma SegmentMatches(s: string)
    ensures Matches(SEGMENT_RE, s) <==> IsSegment(s)
  {
    SlugMatches(FIRST, REST, s);
  }

  lemma LitMatches(c: char, s: string)
    ensures Matches(Lit(c), s) <==> s == [c]
  {
    if s == [c] { assert InClass([Range(c, c)], s[0]) by { assert [Range(c, c)][0].lo <= c; } }
  }

  lemma LitCatMatches(c: char, re: Re, s: string)
    ensures Matches(Cat(Lit(c), re), s) <==> s != "" && s[0] == c && Matches(re, s[1..])
  {
    if s != "" && s[0] == c && Matches(re, s[1..]) {
      LitMatches(c, s[..1]);
      assert Matches(Lit(c), s[..1]);
    }
    if Matches(Cat(Lit(c), re), s) {
      var i :| 0 <= i <= |s| && Matches(Lit(c), s[..i]) && Matches(re, s[i..]);
      LitMatches(c, s[..i]);
      assert i == 1;
    }
  }

  lemma JsonMatches(s: string)
    ensures Matches(JSON_RE, s) <==> s == ".json"
  {
    LitCatMatches('.', Cat(Lit('j'), Cat(Lit('s'), Cat(Lit('o'), Lit('n')))), s);
    if s != "" && s[0] == '.' {
      JsonTail(s[1..]);
      assert s == [s[0]] + s[1..];
    }
  }

  lemma JsonTail(s: string)
    ensures Matches(Cat(Lit('j'), Cat(Lit('s'), Cat(Lit('o'), Lit('n')))), s) <==> s == "json"
  {
    LitCatMatches('j', Cat(Lit('s'), Cat(Lit('o'), Lit('n'))), s);
    if s != "" && s[0] == 'j' {
      LitCatMatches('s', Cat(Lit('o'), Lit('n')), s[1..]);
      if |s| > 1 && s[1] == 's' {
        LitCatMatches('o', Lit('n'), s[2..]);
        assert s[1..][1..] == s[2..];
        if |s| > 2 && s[2] == 'o' {
          assert s[2..][1..] == s[3..];
          LitMatches('n', s[3..]);
        }
      }
    }
  }

  /** What the starred group contributes: a slash before every further segment. */
  function Tail(segs: seq<string>): string {
    if segs == [] then "" else "/" + segs[0] + Tail(segs[1..])
  }

  lemma {:induction false} JoinIsHeadAndTail(segs: seq<string>)
    requires |segs| > 0
    ensures Join(segs, '/') == segs[0] + Tail(segs[1..])
  {
    if |segs| > 1 {
      JoinIsHeadAndTail(segs[1..]);
    }
  }

  lemma {:induction false} TailMatches(segs: seq<string>)
    requires AllSegments(segs)
    ensures Matches(Star(SLASH_SEGMENT_RE), Tail(segs))
  {
    if segs != [] {
      var s, i := Tail(segs), 1 + |segs[0]|;
      TailMatches(segs[1..]);
      assert s[..i] == "/" + segs[0] && s[i..] == Tail(segs[1..]);
      LitCatMatches('/', SEGMENT_RE, s[..i]);
      assert s[..i][1..] == segs[0];
      SegmentMatches(segs[0]);
    }
  }

  lemma {:induction false} TailOfMatch(s: string) returns (segs: seq<string>)
    requires Matches(Star(SLASH_SEGMENT_RE), s)
    ensures AllSegments(segs) && Tail(segs) == s
    decreases |s|
  {
    if s == "" {
      segs := [];
    } else {
      var i :| 0 < i <= |s| && Matches(SLASH_SEGMENT_RE, s[..i]) && Matches(Star(SLASH_SEGMENT_RE), s[i..]);
      LitCatMatches('/', SEGMENT_RE, s[..i]);
      SegmentMatches(s[..i][1..]);
      var rest := TailOfMatch(s[i..]);
      segs := [s[..i][1..]] + rest;
      assert s == s[..i] + s[i..] && s[..i] == "/" + s[..i][1..];
    }
  }

  // ---------------------------------------------------------------- the main results

  /** The expression accepts exactly the slash-joined non-empty lists of slug segments followed by `.json`. */
  lemma PathGrammar(p: string)
    ensures Matches(TEMPLATE_PATH_RE, p) <==> exists segs :: |segs| > 0 && AllSegments(segs) && p == Path(segs)
  {
    if Matches(TEMPLATE_PATH_RE, p) {
      var segs := SegmentsOfMatch(p);
    }
    if exists segs :: |segs| > 0 && AllSegments(segs) && p == Path(segs) {
      var segs :| |segs| > 0 && AllSegments(segs) && p == Path(segs);
      PathMatches(segs);
    }
  }

  lemma PathMatches(segs: seq<string>)
    requires |segs| > 0 && AllSegments(segs)
    ensures Matches(TEMPLATE_PATH_RE, Path(segs))
  {
    var p, i, tail := Path(segs), |segs[0]|, Tail(segs[1..]);
    JoinIsHeadAndTail(segs);
    SegmentMatches(segs[0]);
    TailMatches(segs[1..]);
    JsonMatches(".json");
    assert p[..i] == segs[0] && p[i..] == tail + ".json";
    var q := p[i..];
    assert q[..|tail|] == tail && q[|tail|..] == ".json";
    assert Matches(Cat(Star(SLASH_SEGMENT_RE), JSON_RE), q);
  }

  /** The starred group and the suffix, read back. */
  lemma TailOfRest(q: string) returns (segs: seq<string>)
    requires Matches(Cat(Star(SLASH_SEGMENT_RE), JSON_RE), q)
    ensures AllSegments(segs) && q == Tail(segs) + ".json"
  {
    var j :| 0 <= j <= |q| && Matches(Star(SLASH_SEGMENT_RE), q[..j]) && Matches(JSON_RE, q[j..]);
    JsonMatches(q[j..]);
    segs := TailOfMatch(q[..j]);
    assert q == q[..j] + q[j..];
  }

  lemma SegmentsOfMatch(p: string) returns (segs: seq<string>)
    requires Matches(TEMPLATE_PATH_RE, p)
    ensures |segs| > 0 && AllSegments(segs) && p == Path(segs)
  {
    var i :| 0 <= i <= |p| && Matches(SEGMENT_RE, p[..i]) && Matches(Cat(Star(SLASH_SEGMENT_RE), JSON_RE), p[i..]);
    SegmentMatches(p[..i]);
    var rest := TailOfRest(p[i..]);
    segs := [p[..i]] + rest;
    assert segs[1..] == rest;
    JoinIsHeadAndTail(segs);
    assert p == p[..i] + p[i..];
  }

  lemma SegmentHasNoSlash(s: string)
    requires IsSegment(s)
    ensures Lacks(s, '/') && Lacks(s, '.') && s != "" && s != "." && s != ".."
  {
    forall i | 0 <= i < |s| ensures s[i] != '/' && s[i] != '.' {
      if i > 0 { assert s[1..][i - 1] == s[i]; }
    }
  }

  /** Splitting an accepted path and stripping the suffix gives back the very segments it was built from. */
  lemma SegmentsRoundTrip(segs: seq<string>)
    requires |segs| > 0 && AllSegments(segs)
    ensures |Path(segs)| >= 5 && SegmentsOf(Path(segs)) == segs
  {
    assert Path(segs)[..|Path(segs)| - 5] == Join(segs, '/');
    forall i | 0 <= i < |segs| ensures Lacks(segs[i], '/') { SegmentHasNoSlash(segs[i]); }
    SplitJoin(segs, '/');
  }

  // ---------------------------------------------------------------- resolving a path in a directory tree

  /**
   * Walks `parts` from the directory `dir` below some root: `.` and the empty name stay, `..` goes up, and going up
   * from the root fails.
   */
  function Resolve(dir: seq<string>, parts: seq<string>): seq<seq<string>>
    decreases |parts|
  {
    if parts == [] then [dir]
    else if parts[0] == "" || parts[0] == "." then [dir] + Resolve(dir, parts[1..])
    else if parts[0] == ".." then [dir] + (if dir == [] then [] else Resolve(dir[..|dir| - 1], parts[1..]))
    else [dir] + Resolve(dir + [parts[0]], parts[1..])
  }

  predicate PlainNames(parts: seq<string>) {
    forall i :: 0 <= i < |parts| ==> parts[i] != "" && parts[i] != "." && parts[i] != ".."
  }

  /** Every directory passed on the way lies below the start, one name deeper at each step. */
  lemma {:induction false} PlainNamesOnlyDescend(dir: seq<string>, parts: seq<string>)
    requires PlainNames(parts)
    ensures var way := Resolve(dir, parts);
            |way| == |parts| + 1 && forall k :: 0 <= k <= |parts| ==> way[k] == dir + parts[..k]
    decreases |parts|
  {
    if parts != [] {
      PlainNamesOnlyDescend(dir + [parts[0]], parts[1..]);
      forall k | 0 < k <= |parts| ensures dir + [parts[0]] + parts[1..][..k - 1] == dir + parts[..k] {
        assert parts[..k] == [parts[0]] + parts[1..][..k - 1];
      }
    }
  }

  /** Resolving an accepted path segment by segment never leaves the root and ends at the named file. */
  lemma AcceptedPathStaysBelowRoot(p: string, root: seq<string>)
    requires Matches(TEMPLATE_PATH_RE, p)
    ensures var parts := Split(p, '/'); var way := Resolve(root, parts);
            |way| == |parts| + 1 && forall k :: 0 <= k <= |parts| ==> way[k] == root + parts[..k]
  {
    var segs := SegmentsOfMatch(p);
    var n := |segs| - 1;
    var parts := segs[n := segs[n] + ".json"];
    forall i | 0 <= i < |segs| ensures Lacks(parts[i], '/') && parts[i] != "" && parts[i] != "." && parts[i] != ".." {
      SegmentHasNoSlash(segs[i]);
    }
    JoinSuffix(segs, ".json");
    SplitJoin(parts, '/');
    PlainNamesOnlyDescend(root, parts);
  }

  lemma {:induction false} JoinSuffix(segs: seq<string>, suffix: string)
    requires |segs| > 0
    ensures Join(segs[|segs| - 1 := segs[|segs| - 1] + suffix], '/') == Join(segs, '/') + suffix
  {
    var n := |segs| - 1;
    var longer := segs[n := segs[n] + suffix];
    if n > 0 {
      JoinSuffix(segs[1..], suffix);
      assert longer[1..] == segs[1..][n - 1 := segs[n] + suffix];
    }
  }
}
