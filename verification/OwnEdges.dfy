/** The program's own table of synthetic edges, and the kinds of files its selector tells apart. */
module OwnEdges {
  import opened Options
  import opened TestSelection
  import opened SuiteSelection
  import G = Glob

  const SCHEMAS := "config/collections/"
  const GENERATED := "src/content/types.generated.ts"
  const TYPES := "src/content/types.ts"

  const SYNTHETIC_EDGES := [SyntheticEdge([SCHEMAS + "**"], [GENERATED, TYPES]), SyntheticEdge([GENERATED], [TYPES])]

  // ------------------------------------------------------------------
  // Patterns without stars, and with two at the end
  // ------------------------------------------------------------------

  /** No wildcard and no section sign, the first character of the placeholder. */
  predicate Literal(w: string) {
    G.Plain(w) && '*' !in w && '\U{A7}' !in w
  }

  lemma {:induction false} NoMarkNoClash(pattern: string)
    requires '\U{A7}' !in pattern
    ensures !G.Clash(pattern)
  {
    if pattern != "" {
      assert G.PLACEHOLDER[0] == '\U{A7}' && G.PLACEHOLDER[..10][0] == '\U{A7}' && G.PLACEHOLDER[..11][0] == '\U{A7}';
      assert pattern[0] in pattern;
      NoMarkNoClash(pattern[1..]);
    }
  }

  lemma {:induction false} LiteralReads(any: char -> bool, w: string, rest: string, t: string)
    requires '*' !in w
    ensures G.GlobReads(any, w + rest, t) <==> w <= t && G.GlobReads(any, rest, t[|w|..])
  {
    if w == "" {
      assert w + rest == rest && t[0..] == t;
    } else {
      var p := w + rest;
      assert p[0] == w[0] && p[1..] == w[1..] + rest && w[0] in w;
      if t != "" && t[0] == w[0] {
        LiteralReads(any, w[1..], rest, t[1..]);
        assert w <= t <==> w[1..] <= t[1..] by { assert w == [w[0]] + w[1..] && t == [t[0]] + t[1..]; }
        if w <= t { assert t[1..][|w| - 1..] == t[|w|..]; }
      }
    }
  }

  lemma LiteralMatch(w: string, f: string)
    requires Literal(w)
    ensures G.MatchesPattern(f, w) == Some(f == w)
  {
    hide G.MatchesPattern, G.GlobReads, G.Plain, G.Clash;
    NoMarkNoClash(w);
    G.MatchesPatternIsGlob(w);
    LiteralReads(G.NotTerminator(), w, "", f);
    assert w + "" == w;
    EmptyReads(G.NotTerminator(), f[if |w| <= |f| then |w| else 0..]);
  }

  lemma EmptyReads(any: char -> bool, t: string)
    ensures G.GlobReads(any, "", t) <==> t == ""
  {
  }

  /** Everything below a folder, on one line. */
  lemma BelowMatch(w: string, f: string)
    requires Literal(w)
    ensures G.MatchesPattern(f, w + "**") ==
            Some(w <= f && G.All(f[if |w| <= |f| then |w| else 0..], G.NotTerminator()))
  {
    hide G.MatchesPattern, G.GlobReads, G.Clash;
    NoMarkNoClash(w + "**");
    PlainStars(w);
    G.MatchesPatternIsGlob(w + "**");
    LiteralReads(G.NotTerminator(), w, "**", f);
    G.GlobstarReads(G.NotTerminator(), f[if |w| <= |f| then |w| else 0..]);
  }

  lemma PlainStars(w: string)
    requires G.Plain(w)
    ensures G.Plain(w + "**")
  {
  }

  // ------------------------------------------------------------------
  // The two edges
  // ------------------------------------------------------------------

  /** A collection schema is among the files, with a name on one line. */
  ghost predicate SchemaAmong(files: set<string>) {
    exists f :: f in files && BelowSchemas(f)
  }

  ghost predicate BelowSchemas(f: string) {
    SCHEMAS <= f && G.All(f[|SCHEMAS|..], G.NotTerminator())
  }

  lemma OwnPatterns(f: string)
    ensures GlobMatcher()(f, SCHEMAS + "**") <==> BelowSchemas(f)
    ensures GlobMatcher()(f, GENERATED) <==> f == GENERATED
  {
    hide G.MatchesPattern, SCHEMAS, GENERATED, Literal, G.All;
    LiteralPaths();
    BelowMatch(SCHEMAS, f);
    LiteralMatch(GENERATED, f);
  }

  lemma LiteralPaths()
    ensures Literal(SCHEMAS) && Literal(GENERATED)
  {
    LowerLiteral(SCHEMAS);
    LowerLiteral(GENERATED);
  }

  /** Letters, slashes and dots. */
  lemma LowerLiteral(w: string)
    requires forall c <- w :: 'a' <= c <= 'z' || c == '/' || c == '.'
    ensures Literal(w)
  {
    hide G.IsSpecial;
    forall i | 0 <= i < |w| ensures !G.IsSpecial(w[i]) || w[i] == '.' {
      assert w[i] in w;
      LowerIsPlain(w[i]);
    }
  }

  lemma LowerIsPlain(c: char)
    requires 'a' <= c <= 'z' || c == '/' || c == '.'
    ensures !G.IsSpecial(c) || c == '.'
  {
  }

  lemma OwnTriggers(files: set<string>)
    ensures Triggered(GlobMatcher(), SYNTHETIC_EDGES[0], files) <==> SchemaAmong(files)
    ensures Triggered(GlobMatcher(), SYNTHETIC_EDGES[1], files) <==> GENERATED in files
  {
    hide GlobMatcher, BelowSchemas;
    var e0, e1 := SYNTHETIC_EDGES[0], SYNTHETIC_EDGES[1];
    forall f
      ensures MatchesAny(GlobMatcher(), f, e0.trigger) <==> BelowSchemas(f)
      ensures MatchesAny(GlobMatcher(), f, e1.trigger) <==> f == GENERATED
    {
      OwnPatterns(f);
      OnePattern(GlobMatcher(), f, SCHEMAS + "**");
      OnePattern(GlobMatcher(), f, GENERATED);
    }
  }

  lemma OnePattern(matches: Matcher, f: string, p: string)
    ensures MatchesAny(matches, f, [p]) <==> matches(f, p)
  {
    assert p in [p];
  }

  /** What a change grows by: a schema brings the generated types and the hand-written module, the generated types bring
      the module, and nothing else brings anything. */
  function Grown(files: set<string>, schema: bool): set<string> {
    files + (if schema then {GENERATED, TYPES} else {}) + (if GENERATED in files then {TYPES} else {})
  }

  lemma NotSchemas()
    ensures !BelowSchemas(GENERATED) && !BelowSchemas(TYPES) && GENERATED != TYPES
  {
    assert GENERATED[0] == 's' && TYPES[0] == 's' && SCHEMAS[0] == 'c' && |GENERATED| > |TYPES|;
  }

  lemma GrownCloses(files: set<string>)
    ensures var t := Grown(files, SchemaAmong(files));
            files <= t && ClosedUnderEdges(GlobMatcher(), SYNTHETIC_EDGES, t)
  {
    hide BelowSchemas, Triggered, GENERATED, TYPES;
    var t := Grown(files, SchemaAmong(files));
    OwnTriggers(t);
    NotSchemas();
    var e0, e1 := SYNTHETIC_EDGES[0], SYNTHETIC_EDGES[1];
    assert ToSet(e0.alsoTouched) == {GENERATED, TYPES} && ToSet(e1.alsoTouched) == {TYPES};
    assert forall e :: e in SYNTHETIC_EDGES ==> e == e0 || e == e1;
  }

  lemma GrownIsLeast(files: set<string>, t: set<string>)
    requires files <= t && ClosedUnderEdges(GlobMatcher(), SYNTHETIC_EDGES, t)
    ensures Grown(files, SchemaAmong(files)) <= t
  {
    hide BelowSchemas, Triggered, GENERATED, TYPES;
    OwnTriggers(t);
    var e0, e1 := SYNTHETIC_EDGES[0], SYNTHETIC_EDGES[1];
    assert e0 in SYNTHETIC_EDGES && e1 in SYNTHETIC_EDGES;
    assert ToSet(e0.alsoTouched) == {GENERATED, TYPES} && ToSet(e1.alsoTouched) == {TYPES};
    if SchemaAmong(files) { assert SchemaAmong(t); }
  }

  /** With the program's own table the expanded change is exactly the change, with the generated types when a schema is
      in it, and with the hand-written module when either is. */
  lemma OwnExpansion(start: set<string>, s: set<string>)
    requires LeastExpansion(GlobMatcher(), SYNTHETIC_EDGES, start, s)
    ensures s == Grown(start, SchemaAmong(start))
  {
    hide ClosedUnderEdges, SchemaAmong, Grown;
    GrownCloses(start);
    GrownIsLeast(start, s);
  }

  // ------------------------------------------------------------------
  // Kinds of files
  // ------------------------------------------------------------------

  lemma SplitEnds(f: string, head: string, tail: string)
    requires head != "" && tail != "" && head[|head| - 1] !in tail && tail[0] !in head
    ensures head <= f && EndsWith(f, tail) <==> exists m :: f == head + m + tail
  {
    if head <= f && EndsWith(f, tail) {
      NoOverlap(f, head, tail);
      var m := f[|head|..|f| - |tail|];
      assert f == head + m + tail;
    }
    if m :| f == head + m + tail {
      assert f[..|head|] == head && f[|head| + |m|..] == tail;
    }
  }

  lemma NoOverlap(f: string, head: string, tail: string)
    requires head != "" && tail != "" && head[|head| - 1] !in tail && tail[0] !in head
    requires head <= f && EndsWith(f, tail)
    ensures |head| + |tail| <= |f|
  {
    var i := |f| - |tail|;
    assert f[i..][0] == f[i];
  }

  /** Tests are the files below `tests/` that end in `.test.ts` or `.spec.ts`. */
  lemma TestIff(f: string)
    ensures IsTest(f) <==> exists m :: f == "tests/" + m + ".test.ts" || f == "tests/" + m + ".spec.ts"
  {
    hide EndsWith;
    SplitEnds(f, "tests/", ".test.ts");
    SplitEnds(f, "tests/", ".spec.ts");
  }

  lemma StartsWith(f: string, head: string)
    ensures head <= f <==> exists m :: f == head + m
  {
    if head <= f { assert f == head + f[|head|..]; }
  }

  /** A change of one of six files at the top, or of anything below `.github/`, keeps the graph from being asked. */
  lemma ConfigIff(f: string)
    ensures IsConfig(f) <==>
            || f in {"package.json", "bun.lock", "vite.config.ts", "svelte.config.js", "tsconfig.json",
                     "playwright.config.ts"}
            || exists m :: f == ".github/" + m
  {
    StartsWith(f, ".github/");
  }

  /** The graph adds unit, integration and end-to-end tests, told apart by their folder. */
  lemma AreaIff(f: string)
    ensures InArea(UNIT, f) <==> IsTest(f) && exists m :: f == "tests/unit/" + m
    ensures InArea(INTEGRATION, f) <==> IsTest(f) && exists m :: f == "tests/integration/" + m
    ensures InArea(E2E, f) <==> IsTest(f) && exists m :: f == "tests/e2e/" + m
  {
    hide IsTest;
    StartsWith(f, "tests/unit/");
    StartsWith(f, "tests/integration/");
    StartsWith(f, "tests/e2e/");
  }
}
