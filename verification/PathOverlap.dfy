/** How exact the overlap test is: complete and sound on files, directories and
    subtrees, sound but incomplete on globs. */
module PathOverlap {
  import opened Paths

  lemma {:induction false} TrimLeftShape(s: string, drop: char -> bool)
    ensures TrimLeft(s, drop) == "" || !drop(TrimLeft(s, drop)[0])
    ensures |TrimLeft(s, drop)| <= |s| && TrimLeft(s, drop) == s[|s| - |TrimLeft(s, drop)|..]
    ensures (s == "" || !drop(s[0])) ==> TrimLeft(s, drop) == s
  {
    if s != "" && drop(s[0]) {
      TrimLeftShape(s[1..], drop);
    }
  }

  lemma {:induction false} TrimRightShape(s: string, drop: char -> bool)
    ensures var t := TrimRight(s, drop); t == "" || !drop(t[|t| - 1])
    ensures |TrimRight(s, drop)| <= |s| && TrimRight(s, drop) == s[..|TrimRight(s, drop)|]
    ensures (s == "" || !drop(s[|s| - 1])) ==> TrimRight(s, drop) == s
  {
    if s != "" && drop(s[|s| - 1]) {
      TrimRightShape(s[..|s| - 1], drop);
    }
  }

  /** No space at either end and no leading `.` or `/`. */
  predicate Normal(s: string) {
    s == "" || (!IsSpace(s[0]) && !IsSpace(s[|s| - 1]) && !DotOrSlash(s[0]))
  }

  lemma NormalIsFixed(s: string)
    requires Normal(s)
    ensures Normalize(s) == s
  {
    TrimLeftShape(s, IsSpace);
    TrimRightShape(s, IsSpace);
    TrimLeftShape(s, DotOrSlash);
  }

  lemma NormalizeHead(s: string)
    ensures Normalize(s) == "" || !DotOrSlash(Normalize(s)[0])
  {
    TrimLeftShape(Strip(s), DotOrSlash);
  }

  lemma SafeIsNotSpace(c: char)
    ensures SafeChar(c) ==> !IsSpace(c)
  {
  }

  lemma SafeIsNormalized(s: string)
    requires SafeToken(s)
    ensures Normal(Normalize(s))
  {
    forall c: char ensures SafeChar(c) ==> !IsSpace(c) {
      SafeIsNotSpace(c);
    }
    TrimLeftShape(s, IsSpace);
    TrimRightShape(s, IsSpace);
    TrimLeftShape(s, DotOrSlash);
    assert SafeChar(s[0]) && SafeChar(s[|s| - 1]);
    assert Strip(s) == s;
    var n := Normalize(s);
    if n != "" {
      assert n[0] == s[|s| - |n|] && n[|n| - 1] == s[|s| - 1];
    }
  }

  lemma MatchesNormalized(path: string, spec: string)
    requires Normal(Normalize(spec))
    ensures PathMatches(path, Normalize(spec)) == PathMatches(path, spec)
  {
    NormalIsFixed(Normalize(spec));
  }

  /** What a yes means, before the two specifications are normalized again. */
  lemma OverlapCandidate(left: string, right: string) returns (c: string)
    requires PathSpecsOverlap(left, right)
    ensures c in Candidates(Normalize(left), Normalize(right))
    ensures PathMatches(c, Normalize(left)) && PathMatches(c, Normalize(right))
  {
    var l, r := Normalize(left), Normalize(right);
    c :| c in Candidates(l, r) && PathMatches(c, l) && PathMatches(c, r);
  }

  /** A witness: whenever the test answers yes, some path is matched by both. */
  lemma OverlapHasWitness(left: string, right: string) returns (path: string)
    requires SafeToken(left) && SafeToken(right)
    requires PathSpecsOverlap(left, right)
    ensures PathMatches(path, left) && PathMatches(path, right)
  {
    path := OverlapCandidate(left, right);
    SafeIsNormalized(left);
    SafeIsNormalized(right);
    MatchesNormalized(path, left);
    MatchesNormalized(path, right);
  }

  lemma OverlapIsSymmetric(left: string, right: string)
    ensures PathSpecsOverlap(left, right) == PathSpecsOverlap(right, left)
  {
    assert Candidates(Normalize(left), Normalize(right)) == Candidates(Normalize(right), Normalize(left));
  }

  // ----- Files, directories and subtrees -----

  /** A wildcard-free name that does not end in `/`; inner empty segments are allowed. */
  predicate PlainName(base: string) {
    base != "" && Normal(base) && base[|base| - 1] != '/' && !HasWildcard(base)
  }

  datatype Scope = File(base: string) | Directory(base: string) | Subtree(base: string) {
    function Text(): string {
      match this
      case File(b) => b
      case Directory(b) => b + "/"
      case Subtree(b) => b + "/**"
    }

    /** The language of a scope over normalized paths, written without the code. */
    predicate Owns(path: string) {
      match this
      case File(b) => path == b
      case Directory(b) => b + "/" <= path
      case Subtree(b) => path == b || b + "/" <= path
    }
  }

  /** A specification of the fragment is, once normalized, the text of a scope. */
  ghost predicate Denotes(spec: string, scope: Scope) {
    PlainName(scope.base) && Normalize(spec) == scope.Text()
  }

  ghost predicate InFragment(spec: string) {
    exists scope :: Denotes(spec, scope)
  }

  lemma ScopeTextIsNormal(scope: Scope)
    requires PlainName(scope.base)
    ensures Normal(scope.Text())
  {
  }

  lemma EndsWithLast(s: string, suffix: string)
    requires suffix != ""
    ensures EndsWith(s, suffix) ==> s != "" && s[|s| - 1] == suffix[|suffix| - 1]
  {
  }

  /** The code's matcher computes the language of the scope. */
  lemma MatchesScope(path: string, spec: string, scope: Scope)
    requires Denotes(spec, scope)
    ensures PathMatches(path, spec) <==> scope.Owns(Normalize(path))
  {
    var b, text := scope.base, scope.Text();
    match scope
    case File(_) =>
      EndsWithLast(text, "/**");
      EndsWithLast(text, "/");
    case Directory(_) =>
      assert EndsWith(text, "/");
      EndsWithLast(text, "/**");
    case Subtree(_) =>
      assert EndsWith(text, "/**");
      assert text[..|text| - 3] == b;
      TrimRightShape(b, IsSlash);
  }

  /** The base of a scope is what the candidate construction extracts. */
  lemma CandidateOfScope(scope: Scope)
    requires PlainName(scope.base)
    ensures TrimRight(scope.Text(), SlashOrStar) == scope.base
  {
    var b := scope.base;
    assert b[|b| - 1] in b;
    TrimRightShape(b, SlashOrStar);
    assert TrimRight(b, SlashOrStar) == b;
    DropLast(b, '/');
    DropLast(b + "/", '*');
    DropLast(b + "/*", '*');
    assert b + "/" + "*" == b + "/*" && b + "/*" + "*" == b + "/**";
  }

  lemma DropLast(s: string, c: char)
    requires SlashOrStar(c)
    ensures TrimRight(s + [c], SlashOrStar) == TrimRight(s, SlashOrStar)
  {
    assert (s + [c])[..|s|] == s;
  }

  /** Two scopes that share a path share their base or its probe child, or the
      base or probe child of the deeper one. */
  lemma ScopesShareCandidate(s: Scope, t: Scope, path: string)
    requires PlainName(s.base) && PlainName(t.base)
    requires s.Owns(path) && t.Owns(path) && |s.base| <= |t.base|
    ensures (s.Owns(t.base) && t.Owns(t.base)) || (s.Owns(t.base + "/probe") && t.Owns(t.base + "/probe"))
  {
    var a, b := s.base, t.base;
    assert a <= path && b <= path && a <= b;
    var probe := b + "/probe";
    assert b + "/" <= probe;
    if |a| < |b| && !s.File? {
      assert path[|a|] == '/';
      assert b[..|a| + 1] == path[..|a| + 1] == a + "/";
      assert a + "/" <= b && a + "/" <= probe;
    }
  }

  lemma FragmentIsNormal(spec: string)
    requires InFragment(spec)
    ensures Normal(Normalize(spec))
  {
    var s :| Denotes(spec, s);
    ScopeTextIsNormal(s);
  }

  lemma SharedPathIsFound(left: string, right: string, path: string)
    requires InFragment(left) && InFragment(right)
    requires PathMatches(path, left) && PathMatches(path, right)
    ensures PathSpecsOverlap(left, right)
  {
    var s :| Denotes(left, s);
    var t :| Denotes(right, t);
    ScopeTextIsNormal(s);
    ScopeTextIsNormal(t);
    NormalIsFixed(s.Text());
    NormalIsFixed(t.Text());
    MatchesScope(path, left, s);
    MatchesScope(path, right, t);
    if |s.base| <= |t.base| {
      ScopesShareCandidate(s, t, Normalize(path));
      CandidateFound(s, t, s.Text(), t.Text(), t.base);
    } else {
      ScopesShareCandidate(t, s, Normalize(path));
      CandidateFound(s, t, s.Text(), t.Text(), s.base);
    }
    OverlapOfNormalized(left, right);
  }

  lemma OverlapOfNormalized(left: string, right: string)
    requires Normal(Normalize(left)) && Normal(Normalize(right))
    ensures PathSpecsOverlap(Normalize(left), Normalize(right)) == PathSpecsOverlap(left, right)
  {
    NormalIsFixed(Normalize(left));
    NormalIsFixed(Normalize(right));
  }

  /** On the fragment the test is exact: it answers yes exactly when some path
      is matched by both specifications. */
  lemma OverlapIsExact(left: string, right: string)
    requires InFragment(left) && InFragment(right)
    ensures PathSpecsOverlap(left, right) <==> exists path :: PathMatches(path, left) && PathMatches(path, right)
  {
    FragmentIsNormal(left);
    FragmentIsNormal(right);
    if PathSpecsOverlap(left, right) {
      var c := OverlapCandidate(left, right);
      MatchesNormalized(c, left);
      MatchesNormalized(c, right);
    }
    if path :| PathMatches(path, left) && PathMatches(path, right) {
      SharedPathIsFound(left, right, path);
    }
  }

  lemma CandidateFound(s: Scope, t: Scope, l: string, r: string, base: string)
    requires PlainName(s.base) && PlainName(t.base) && (base == s.base || base == t.base)
    requires l == s.Text() && r == t.Text() && Normalize(l) == l && Normalize(r) == r
    requires (s.Owns(base) && t.Owns(base)) || (s.Owns(base + "/probe") && t.Owns(base + "/probe"))
    ensures PathSpecsOverlap(l, r)
  {
    CandidateOfScope(s);
    CandidateOfScope(t);
    var probe := base + "/probe";
    assert Normal(probe);
    NormalIsFixed(base);
    NormalIsFixed(probe);
    MatchesScope(base, l, s);
    MatchesScope(base, r, t);
    MatchesScope(probe, l, s);
    MatchesScope(probe, r, t);
    assert base in Candidates(l, r) && probe in Candidates(l, r);
  }

  /** Against a plain file the test is exact for every other token, globs
      included: what is missed takes a wildcard that meets a directory or
      another wildcard. */
  lemma LiteralOverlapIsExact(left: string, right: string)
    requires PlainName(Normalize(left)) && SafeToken(right)
    ensures PathSpecsOverlap(left, right) <==> exists path :: PathMatches(path, left) && PathMatches(path, right)
  {
    hide Normalize, PathMatches, Candidates;
    var file := Normalize(left);
    SafeIsNormalized(right);
    if PathSpecsOverlap(left, right) {
      var c := OverlapCandidate(left, right);
      MatchesNormalized(c, left);
      MatchesNormalized(c, right);
    }
    if path :| PathMatches(path, left) && PathMatches(path, right) {
      LiteralIsFound(left, right, path);
    }
  }

  lemma LiteralIsFound(left: string, right: string, path: string)
    requires PlainName(Normalize(left)) && Normal(Normalize(right))
    requires PathMatches(path, left) && PathMatches(path, right)
    ensures PathSpecsOverlap(left, right)
  {
    hide Normalize, Glob, HasWildcard, TrimRight;
    var file := Normalize(left);
    MatchesScope(path, left, File(file));
    NormalIsFixed(file);
    CandidateOfScope(File(file));
    MatchesNormalized(file, left);
    MatchesNormalized(file, right);
    MatchesScope(file, left, File(file));
    assert file in Candidates(file, Normalize(right));
  }

  lemma GlobWitnesses()
    ensures Glob("s/ab", "s/*b") && Glob("s/ab", "s/a*")
    ensures !Glob("s/*b", "s/a*") && !Glob("s/a", "s/*b")
  {
    assert "s/ab"[1..] == "/ab" && "/ab"[1..] == "ab" && "ab"[1..] == "b" && "b"[1..] == "";
    assert "s/*b"[1..] == "/*b" && "/*b"[1..] == "*b" && "*b"[1..] == "b";
    assert "s/a*"[1..] == "/a*" && "/a*"[1..] == "a*" && "a*"[1..] == "*" && "*"[1..] == "";
    assert "s/a"[1..] == "/a" && "/a"[1..] == "a" && "a"[1..] == "";
    assert Glob("b", "b") && Glob("b", "*b") && Glob("ab", "*b");
    assert Glob("", "*") && Glob("b", "*");
    assert !Glob("", "b") && !Glob("", "*b") && !Glob("a", "*b");
  }

  /** A name that ends in another letter is out of reach of a closing letter. */
  lemma {:induction false} GlobKeepsLast(path: string, pattern: string)
    requires pattern != "" && pattern[|pattern| - 1] != '*'
    requires Glob(path, pattern)
    ensures path != "" && path[|path| - 1] == pattern[|pattern| - 1]
    decreases |path| + |pattern|
  {
    if pattern[0] == '*' {
      if Glob(path, pattern[1..]) {
        GlobKeepsLast(path, pattern[1..]);
      } else {
        GlobKeepsLast(path[1..], pattern);
      }
    } else if |pattern| > 1 {
      GlobKeepsLast(path[1..], pattern[1..]);
    }
  }

  lemma GlobSpecsMatch(path: string, spec: string)
    requires Normal(path) && Normal(spec) && '*' in spec
    requires !EndsWith(spec, "/**") && !EndsWith(spec, "/")
    ensures PathMatches(path, spec) <==> Glob(path, spec)
  {
    NormalIsFixed(path);
    NormalIsFixed(spec);
  }

  lemma GlobCandidates()
    ensures Candidates("s/*b", "s/a*") == {"s/*b", "s/a", "s/*b/probe", "s/a/probe"}
  {
    var l, r := "s/*b", "s/a*";
    assert r[..3] == "s/a";
    assert TrimRight(l, SlashOrStar) == l;
    assert TrimRight(r, SlashOrStar) == TrimRight("s/a", SlashOrStar) == "s/a";
    assert l + "/probe" == "s/*b/probe" && "s/a" + "/probe" == "s/a/probe";
  }

  lemma WitnessSpecsAreGlobs()
    ensures Normal("s/*b") && '*' in "s/*b" && !EndsWith("s/*b", "/**") && !EndsWith("s/*b", "/")
    ensures Normal("s/a*") && '*' in "s/a*" && !EndsWith("s/a*", "/**") && !EndsWith("s/a*", "/")
  {
    EndsWithLast("s/*b", "/");
    EndsWithLast("s/a*", "/");
    EndsWithLast("s/*b", "/**");
    assert "s/*b"[2] == '*' && "s/a*"[3] == '*';
    assert "s/a*"[1..][1] == 'a';
  }

  /** The only candidate the first glob matches is the glob's own text. */
  lemma OnlyCandidate(c: string)
    requires c in Candidates("s/*b", "s/a*") && Glob(c, "s/*b")
    ensures c == "s/*b"
  {
    hide Candidates, Glob;
    GlobCandidates();
    GlobKeepsLast(c, "s/*b");
    assert "s/a"[2] == 'a' && "s/*b/probe"[9] == 'e' && "s/a/probe"[8] == 'e';
  }

  /** Outside the fragment the test can miss: two globs that share a file are
      reported as disjoint. */
  lemma OverlapMissesGlobs()
    ensures PathMatches("s/ab", "s/*b") && PathMatches("s/ab", "s/a*")
    ensures !PathSpecsOverlap("s/*b", "s/a*")
  {
    hide PathMatches, PathSpecsOverlap, Candidates, Normalize;
    WitnessSpecsAreGlobs();
    GlobWitnesses();
    GlobSpecsMatch("s/ab", "s/*b");
    GlobSpecsMatch("s/ab", "s/a*");
    NormalIsFixed("s/*b");
    NormalIsFixed("s/a*");
    if PathSpecsOverlap("s/*b", "s/a*") {
      var c := OverlapCandidate("s/*b", "s/a*");
      GlobCandidates();
      GlobSpecsMatch(c, "s/*b");
      OnlyCandidate(c);
      GlobSpecsMatch(c, "s/a*");
      assert false;
    }
  }
}
