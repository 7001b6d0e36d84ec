// When two path specifications share a path, for every pair of tokens that a
// manifest admits, and what the overlap test of the gate misses of it.
module GlobOverlap {
  import opened Paths
  import opened PathOverlap

  // ----- The languages of normalized specifications -----

  predicate IsTree(spec: string) {
    EndsWith(spec, "/**")
  }

  predicate IsDirectory(spec: string) {
    !IsTree(spec) && EndsWith(spec, "/")
  }

  predicate IsGlob(spec: string) {
    !IsTree(spec) && !IsDirectory(spec) && '*' in spec
  }

  predicate IsFile(spec: string) {
    !IsTree(spec) && !IsDirectory(spec) && '*' !in spec
  }

  function TreeBase(spec: string): string
    requires IsTree(spec)
  {
    TrimRight(spec[..|spec| - 3], IsSlash)
  }

  /** The text before the first star. */
  function Head(p: string): string {
    if p == "" || p[0] == '*' then "" else [p[0]] + Head(p[1..])
  }

  /** The text after the last star. */
  function Tail(p: string): string {
    if p == "" || p[|p| - 1] == '*' then "" else Tail(p[..|p| - 1]) + [p[|p| - 1]]
  }

  lemma {:induction false} HeadShape(p: string)
    ensures Head(p) <= p && '*' !in Head(p)
    ensures if '*' in p then |Head(p)| < |p| && p[|Head(p)|] == '*' else Head(p) == p
  {
    if p != "" && p[0] != '*' {
      HeadShape(p[1..]);
      assert p == [p[0]] + p[1..];
    }
  }

  lemma {:induction false} TailShape(p: string)
    ensures |Tail(p)| <= |p| && p[|p| - |Tail(p)|..] == Tail(p) && '*' !in Tail(p)
    ensures if '*' in p then |Tail(p)| < |p| && p[|p| - |Tail(p)| - 1] == '*' else Tail(p) == p
  {
    if p != "" && p[|p| - 1] != '*' {
      var front := p[..|p| - 1];
      TailShape(front);
      assert p == front + [p[|p| - 1]];
    }
  }

  lemma StarComesBefore(s: string, i: nat, k: nat)
    requires i < |s| && s[i] == '*' && k <= |s|
    ensures '*' !in s[k..] ==> i < k
  {
    if i >= k {
      assert s[k..][i - k] == '*';
    }
  }

  /** From the first star to the last one. */
  function Middle(p: string): (m: string)
    requires '*' in p
    ensures m != "" && m[0] == '*' && m[|m| - 1] == '*' && p == Head(p) + m + Tail(p)
  {
    HeadShape(p);
    TailShape(p);
    StarComesBefore(p, |Head(p)|, |p| - |Tail(p)|);
    p[|Head(p)|..|p| - |Tail(p)|]
  }

  // ----- What a glob needs, and what is enough for it -----

  lemma {:induction false} GlobHead(x: string, p: string)
    requires Glob(x, p)
    ensures Head(p) <= x
  {
    if p != "" && p[0] != '*' {
      GlobHead(x[1..], p[1..]);
      assert x == [x[0]] + x[1..];
    }
  }

  lemma {:induction false} GlobLiteral(x: string, p: string)
    requires '*' !in p
    ensures Glob(x, p) <==> x == p
  {
    if p != "" && x != "" {
      GlobLiteral(x[1..], p[1..]);
      assert x == [x[0]] + x[1..] && p == [p[0]] + p[1..];
    }
  }

  predicate Ends(x: string, tail: string) {
    |tail| <= |x| && x[|x| - |tail|..] == tail
  }

  lemma {:induction false} GlobEnd(x: string, p: string, k: nat)
    requires Glob(x, p) && k <= |p| && '*' !in p[k..]
    ensures Ends(x, p[k..])
    decreases |x| + |p|
  {
    if k == |p| {
    } else if k == 0 {
      assert p[0..] == p;
      GlobLiteral(x, p);
    } else if p[0] == '*' && Glob(x, p[1..]) {
      assert p[1..][k - 1..] == p[k..];
      GlobEnd(x, p[1..], k - 1);
    } else if p[0] == '*' {
      GlobEnd(x[1..], p, k);
      assert x == [x[0]] + x[1..];
    } else {
      assert p[1..][k - 1..] == p[k..];
      GlobEnd(x[1..], p[1..], k - 1);
      assert x == [x[0]] + x[1..];
    }
  }

  lemma {:induction false} GlobJoin(x: string, p: string, y: string, q: string)
    requires Glob(x, p) && Glob(y, q)
    ensures Glob(x + y, p + q)
    decreases |x| + |p|
  {
    if p == "" {
      assert x + y == y && p + q == q;
    } else {
      assert (p + q)[1..] == p[1..] + q;
      if p[0] == '*' && Glob(x, p[1..]) {
        GlobJoin(x, p[1..], y, q);
      } else {
        assert (x + y)[1..] == x[1..] + y;
        GlobJoin(x[1..], if p[0] == '*' then p else p[1..], y, q);
      }
    }
  }

  lemma {:induction false} GlobSelf(p: string)
    ensures Glob(p, p)
  {
    if p != "" {
      GlobSelf(p[1..]);
      if p[0] == '*' {
        StarTakes(p[..1], p[1..], p);
      }
    }
  }

  /** A leading star takes any text in front of what matches the rest. */
  lemma {:induction false} StarTakes(u: string, x: string, p: string)
    requires p != "" && p[0] == '*' && (Glob(x, p[1..]) || Glob(x, p))
    ensures Glob(u + x, p)
  {
    if u == "" {
      assert u + x == x;
    } else {
      StarTakes(u[1..], x, p);
      assert (u + x)[1..] == u[1..] + x;
    }
  }

  /** A text that begins with the middle, or comes after anything, is taken. */
  lemma MiddleTakes(m: string, u: string, v: string)
    requires m != "" && m[0] == '*' && m[|m| - 1] == '*'
    ensures Glob(u + (m + v), m)
  {
    var front := m[..|m| - 1];
    assert m == front + "*" && "*"[1..] == "";
    GlobSelf(front);
    GlobSelf("");
    hide Glob;
    StarTakes("*" + v, "", "*");
    assert "*" + v + "" == "*" + v;
    GlobJoin(front, front, "*" + v, "*");
    assert front + ("*" + v) == m + v;
    StarTakes(u, m + v, m);
  }

  /** Any text that holds the middle between the head and the tail is matched. */
  lemma GlobHolds(p: string, u: string, v: string)
    requires '*' in p
    ensures Glob(Head(p) + u + Middle(p) + v + Tail(p), p)
  {
    hide Glob, Head, Tail, Middle;
    var h, m, t := Head(p), Middle(p), Tail(p);
    MiddleTakes(m, u, v);
    GlobSelf(h);
    GlobSelf(t);
    GlobJoin(h, h, u + (m + v), m);
    GlobJoin(h + (u + (m + v)), h + m, t, t);
    assert h + (u + (m + v)) + t == h + u + m + v + t;
  }

  // ----- What a specification with more than one path needs -----

  /** Every owned path, followed by a slash, begins with the root. */
  function Root(spec: string): string {
    if IsTree(spec) then TreeBase(spec) + "/" else if IsDirectory(spec) then spec else Head(spec)
  }

  /** Every owned path ends with the end. */
  function End(spec: string): string {
    if IsGlob(spec) then Tail(spec) else ""
  }

  function Core(spec: string): string {
    if IsGlob(spec) then Middle(spec) else ""
  }

  /** The language of a normalized specification. */
  predicate Owns(spec: string, x: string) {
    if IsTree(spec) then x == TreeBase(spec) || TreeBase(spec) + "/" <= x
    else if IsDirectory(spec) then spec <= x
    else if IsGlob(spec) then Glob(x, spec)
    else x == spec
  }

  lemma SafeMatches(path: string, spec: string)
    requires SafeToken(spec)
    ensures PathMatches(path, spec) <==> Owns(Normalize(spec), Normalize(path))
  {
    NormalizedIsSafe(spec);
    assert '?' !in Normalize(spec) && '[' !in Normalize(spec);
    hide Normalize, Glob, TrimRight;
  }

  predicate AllSafe(s: string) {
    forall i :: 0 <= i < |s| ==> SafeChar(s[i])
  }

  lemma NormalizedIsSafe(spec: string)
    requires SafeToken(spec)
    ensures AllSafe(Normalize(spec)) && Normal(Normalize(spec))
  {
    SafeIsNormalized(spec);
    TrimLeftShape(spec, IsSpace);
    TrimRightShape(TrimLeft(spec, IsSpace), IsSpace);
    TrimLeftShape(Strip(spec), DotOrSlash);
    hide TrimLeft, TrimRight;
  }

  lemma OwnedNeeds(spec: string, x: string)
    requires !IsFile(spec) && Owns(spec, x)
    ensures Root(spec) <= x + "/" && Ends(x, End(spec))
  {
    if IsGlob(spec) {
      GlobHead(x, spec);
      TailShape(spec);
      GlobEnd(x, spec, |spec| - |Tail(spec)|);
    }
  }

  lemma OwnedSuffices(spec: string, u: string, v: string)
    requires !IsFile(spec)
    ensures Owns(spec, Root(spec) + u + Core(spec) + v + End(spec))
  {
    if IsGlob(spec) {
      GlobHolds(spec, u, v);
    } else {
      assert Root(spec) + u + Core(spec) + v + End(spec) == Root(spec) + (u + v);
    }
  }

  predicate SamePrefix(a: string, b: string) {
    a <= b || b <= a
  }

  predicate SameSuffix(a: string, b: string) {
    Ends(a, b) || Ends(b, a)
  }

  /** Whether two normalized specifications have a path in common: a file must
      be owned by the other side, and otherwise roots and ends must be compatible. */
  predicate Meet(l: string, r: string) {
    if IsFile(l) then Owns(r, l)
    else if IsFile(r) then Owns(l, r)
    else SamePrefix(Root(l), Root(r)) && SameSuffix(End(l), End(r))
  }

  lemma PrefixesOfOne(a: string, b: string, x: string)
    requires a <= x && b <= x
    ensures SamePrefix(a, b)
  {
    if |a| <= |b| {
      assert a == x[..|a|] == b[..|a|];
    } else {
      assert b == x[..|b|] == a[..|b|];
    }
  }

  lemma SuffixesOfOne(a: string, b: string, x: string)
    requires Ends(x, a) && Ends(x, b)
    ensures SameSuffix(a, b)
  {
    if |a| <= |b| {
      assert b[|b| - |a|..] == x[|x| - |a|..];
    } else {
      assert a[|a| - |b|..] == x[|x| - |b|..];
    }
  }

  lemma CommonPathMeets(l: string, r: string, x: string)
    requires Owns(l, x) && Owns(r, x)
    ensures Meet(l, r)
  {
    if !IsFile(l) && !IsFile(r) {
      OwnedNeeds(l, x);
      OwnedNeeds(r, x);
      PrefixesOfOne(Root(l), Root(r), x + "/");
      SuffixesOfOne(End(l), End(r), x);
    }
  }

  function Longer(a: string, b: string): string {
    if a <= b then b else a
  }

  function LongerEnd(a: string, b: string): string {
    if Ends(b, a) then b else a
  }

  /** The longer root, both middles, the longer end. */
  function CommonPath(l: string, r: string): string {
    Longer(Root(l), Root(r)) + Core(l) + Core(r) + LongerEnd(End(l), End(r))
  }

  lemma Regroup(a: string, b: string, c: string, d: string, e: string, f: string)
    ensures (a + b) + c + d + (e + f) == a + b + c + (d + e) + f
    ensures (a + b) + d + c + (e + f) == a + (b + d) + c + e + f
  {
    assert (a + b) + c + d + (e + f) == a + b + c + (d + e) + f;
    assert (a + b) + d + c + (e + f) == a + (b + d) + c + e + f;
  }

  lemma SplitLonger(a: string, b: string)
    requires SamePrefix(a, b)
    ensures a <= Longer(a, b) && Longer(a, b) == a + Longer(a, b)[|a|..]
    ensures b <= Longer(a, b) && Longer(a, b) == b + Longer(a, b)[|b|..]
  {
  }

  lemma SplitLongerEnd(a: string, b: string)
    requires SameSuffix(a, b)
    ensures var e := LongerEnd(a, b);
            |a| <= |e| && |b| <= |e| && e == e[..|e| - |a|] + a && e == e[..|e| - |b|] + b
  {
  }

  lemma CommonPathIsOwned(l: string, r: string)
    requires !IsFile(l) && !IsFile(r) && Meet(l, r)
    ensures Owns(l, CommonPath(l, r)) && Owns(r, CommonPath(l, r))
  {
    hide Owns, Root, Core, End, SamePrefix, SameSuffix, Longer, LongerEnd, IsFile;
    var root, end := Longer(Root(l), Root(r)), LongerEnd(End(l), End(r));
    SplitLonger(Root(l), Root(r));
    SplitLongerEnd(End(l), End(r));
    var lu, ru := root[|Root(l)|..], root[|Root(r)|..];
    var lv, rv := end[..|end| - |End(l)|], end[..|end| - |End(r)|];
    OwnedSuffices(l, lu, Core(r) + lv);
    Regroup(Root(l), lu, Core(l), Core(r), lv, End(l));
    OwnedSuffices(r, ru + Core(l), rv);
    Regroup(Root(r), ru, Core(r), Core(l), rv, End(r));
  }

  lemma SafeJoin(a: string, b: string)
    ensures AllSafe(a + b) <==> AllSafe(a) && AllSafe(b)
  {
    assert forall i :: 0 <= i < |a| ==> (a + b)[i] == a[i];
    assert forall i :: 0 <= i < |b| ==> (a + b)[|a| + i] == b[i];
  }

  predicate GoodStart(s: string) {
    s != "" && !DotOrSlash(s[0])
  }

  lemma PartsAreSafe(spec: string)
    requires AllSafe(spec) && Normal(spec) && !IsFile(spec)
    ensures AllSafe(Root(spec)) && AllSafe(Core(spec)) && AllSafe(End(spec))
    ensures GoodStart(Root(spec) + Core(spec))
  {
    if IsTree(spec) {
      TreeIsSafe(spec);
    } else if IsGlob(spec) {
      GlobIsSafe(spec);
    } else {
      assert spec + "" == spec;
    }
  }

  lemma TreeIsSafe(spec: string)
    requires AllSafe(spec) && Normal(spec) && IsTree(spec)
    ensures AllSafe(TreeBase(spec) + "/") && GoodStart(TreeBase(spec) + "/" + "")
  {
    TrimRightShape(spec[..|spec| - 3], IsSlash);
    assert spec != "/**" && spec[0] == spec[..|spec| - 3][0];
    BaseIsNotEmpty(spec[..|spec| - 3]);
    assert TreeBase(spec)[0] == spec[0];
    SafeJoin(TreeBase(spec), "/");
  }

  lemma GlobIsSafe(spec: string)
    requires AllSafe(spec) && Normal(spec) && '*' in spec
    ensures AllSafe(Head(spec)) && AllSafe(Middle(spec)) && AllSafe(Tail(spec))
    ensures GoodStart(Head(spec) + Middle(spec))
  {
    hide Head, Middle, Tail, AllSafe;
    SafeJoin(Head(spec) + Middle(spec), Tail(spec));
    SafeJoin(Head(spec), Middle(spec));
    assert (Head(spec) + Middle(spec))[0] == spec[0];
  }

  lemma {:induction false} BaseIsNotEmpty(s: string)
    requires s != "" && !IsSlash(s[0])
    ensures TrimRight(s, IsSlash) != ""
  {
    if IsSlash(s[|s| - 1]) {
      BaseIsNotEmpty(s[..|s| - 1]);
    }
  }

  lemma SafeTextIsNormal(x: string)
    requires AllSafe(x) && x != "" && !DotOrSlash(x[0])
    ensures Normalize(x) == x
  {
    SafeIsNotSpace(x[0]);
    SafeIsNotSpace(x[|x| - 1]);
    hide IsSpace, Normalize;
    NormalIsFixed(x);
  }

  ghost predicate SharesPath(left: string, right: string) {
    exists path :: PathMatches(path, left) && PathMatches(path, right)
  }

  /** For every two tokens that a manifest admits, globs included. */
  lemma SharesPathIff(left: string, right: string)
    requires SafeToken(left) && SafeToken(right)
    ensures SharesPath(left, right) <==> Meet(Normalize(left), Normalize(right))
  {
    hide Meet, PathMatches, Normalize, Owns;
    var l, r := Normalize(left), Normalize(right);
    if path :| PathMatches(path, left) && PathMatches(path, right) {
      SafeMatches(path, left);
      SafeMatches(path, right);
      CommonPathMeets(l, r, Normalize(path));
    }
    if Meet(l, r) {
      var path := MeetingPath(left, right);
    }
  }

  lemma MeetingPath(left: string, right: string) returns (path: string)
    requires SafeToken(left) && SafeToken(right) && Meet(Normalize(left), Normalize(right))
    ensures PathMatches(path, left) && PathMatches(path, right)
  {
    hide PathMatches, Normalize;
    var l, r := Normalize(left), Normalize(right);
    NormalizedIsSafe(left);
    NormalizedIsSafe(right);
    if IsFile(l) || IsFile(r) {
      path := if IsFile(l) then l else r;
      NormalIsFixed(path);
    } else {
      path := CommonPath(l, r);
      CommonPathIsOwned(l, r);
      CommonPathIsNormal(l, r);
    }
    SafeMatches(path, left);
    SafeMatches(path, right);
  }

  lemma CommonPathIsNormal(l: string, r: string)
    requires AllSafe(l) && Normal(l) && !IsFile(l) && AllSafe(r) && Normal(r) && !IsFile(r)
    ensures Normalize(CommonPath(l, r)) == CommonPath(l, r)
  {
    PartsAreSafe(l);
    PartsAreSafe(r);
    hide Root, Core, End, IsFile, Normalize, AllSafe;
    var root, end := Longer(Root(l), Root(r)), LongerEnd(End(l), End(r));
    SafeJoin(root, Core(l));
    SafeJoin(root + Core(l), Core(r));
    SafeJoin(root + Core(l) + Core(r), end);
    GoodStartOf(Root(l), Root(r), Core(l), Core(r), end);
    SafeTextIsNormal(CommonPath(l, r));
  }

  lemma GoodStartOf(a: string, b: string, c: string, d: string, e: string)
    requires GoodStart(a + c) && GoodStart(b + d)
    ensures GoodStart(Longer(a, b) + c + d + e)
  {
    var root := Longer(a, b);
    if root != "" {
      assert (root + c + d + e)[0] == root[0];
      assert root == a || root == b;
    } else {
      assert a == "" && (root + c + d + e)[0] == c[0];
    }
  }

  // ----- What the test of the gate misses -----

  /** The test never reports an overlap that is not there, and it misses one
      exactly when the specifications meet and none of its candidates is in both. */
  lemma OverlapMissesIff(left: string, right: string)
    requires SafeToken(left) && SafeToken(right)
    ensures PathSpecsOverlap(left, right) ==> Meet(Normalize(left), Normalize(right))
    ensures SharesPath(left, right) && !PathSpecsOverlap(left, right) <==>
            var l, r := Normalize(left), Normalize(right);
            && Meet(l, r) && forall c :: c in Candidates(l, r) ==> !(Owns(l, Normalize(c)) && Owns(r, Normalize(c)))
  {
    hide Meet, Normalize, Owns, Candidates, PathMatches;
    var l, r := Normalize(left), Normalize(right);
    SharesPathIff(left, right);
    NormalizedIsSafe(left);
    NormalizedIsSafe(right);
    forall c ensures (PathMatches(c, l) <==> Owns(l, Normalize(c))) && (PathMatches(c, r) <==> Owns(r, Normalize(c))) {
      MatchesNormalized(c, left);
      SafeMatches(c, left);
      MatchesNormalized(c, right);
      SafeMatches(c, right);
    }
    if PathSpecsOverlap(left, right) {
      var path := OverlapHasWitness(left, right);
    }
  }

  /** Against a file the test is exact for every other token. */
  lemma FileIsNeverMissed(file: string, right: string)
    requires SafeToken(file) && SafeToken(right) && IsFile(Normalize(file))
    ensures PathSpecsOverlap(file, right) <==> SharesPath(file, right)
  {
    var l, r := Normalize(file), Normalize(right);
    OverlapMissesIff(file, right);
    SharesPathIff(file, right);
    NormalizedIsSafe(file);
    NormalIsFixed(l);
    TrimRightShape(l, SlashOrStar);
    FileKeepsEnd(l);
    assert l in Candidates(l, r);
    hide Normalize, Glob, TrimRight, PathSpecsOverlap, SharesPath, Candidates;
  }

  lemma SlashEnds(s: string)
    ensures EndsWith(s, "/") <==> s != "" && s[|s| - 1] == '/'
  {
  }

  lemma FileKeepsEnd(l: string)
    requires IsFile(l)
    ensures l == "" || !SlashOrStar(l[|l| - 1])
  {
    SlashEnds(l);
  }

  // ----- A glob against itself -----

  function Slashes(s: string): nat {
    if s == "" then 0 else (if s[0] == '/' then 1 else 0) + Slashes(s[1..])
  }

  lemma {:induction false} SlashesJoin(a: string, b: string)
    ensures Slashes(a + b) == Slashes(a) + Slashes(b)
  {
    if a == "" {
      assert a + b == b;
    } else {
      SlashesJoin(a[1..], b);
      assert (a + b)[1..] == a[1..] + b;
    }
  }

  /** A star may match slashes, so a text has at least those of its pattern. */
  lemma {:induction false} GlobKeepsSlashes(x: string, p: string)
    requires Glob(x, p)
    ensures Slashes(p) <= Slashes(x)
    decreases |x| + |p|
  {
    if p != "" {
      if p[0] == '*' && Glob(x, p[1..]) {
        GlobKeepsSlashes(x, p[1..]);
      } else if p[0] == '*' {
        GlobKeepsSlashes(x[1..], p);
      } else {
        GlobKeepsSlashes(x[1..], p[1..]);
      }
    }
  }

  predicate AllStars(s: string) {
    forall i :: 0 <= i < |s| ==> s[i] == '*'
  }

  lemma {:induction false} StarsTake(x: string, s: string)
    requires AllStars(s) && (x == "" || s != "")
    ensures Glob(x, s)
    decreases |s|
  {
    if s != "" {
      StarsTake("", s[1..]);
      StarTakes(x, "", s);
      assert x + "" == x;
    }
  }

  /** What stripping slashes and stars leaves of a specification, and takes off. */
  function Stem(p: string): string {
    TrimRight(p, SlashOrStar)
  }

  function Trail(p: string): (t: string)
    ensures p == Stem(p) + t
  {
    TrimRightShape(p, SlashOrStar);
    p[|Stem(p)|..]
  }

  lemma {:induction false} TrailIsStripped(p: string)
    ensures forall i :: |Stem(p)| <= i < |p| ==> SlashOrStar(p[i])
  {
    if p != "" && SlashOrStar(p[|p| - 1]) {
      TrailIsStripped(p[..|p| - 1]);
    }
  }

  lemma {:induction false} NoSlashIsStars(t: string)
    requires forall i :: 0 <= i < |t| ==> SlashOrStar(t[i])
    ensures Slashes(t) == 0 ==> AllStars(t)
  {
    if t != "" {
      NoSlashIsStars(t[1..]);
      assert t == [t[0]] + t[1..];
    }
  }

  /** Stars with one slash before the last of them match a slash and a name. */
  lemma {:induction false} OneSlashTakes(t: string)
    requires t != "" && t[|t| - 1] == '*' && Slashes(t) == 1 && forall i :: 0 <= i < |t| ==> SlashOrStar(t[i])
    ensures Glob("/probe", t)
  {
    if t[0] == '/' {
      NoSlashIsStars(t[1..]);
      StarsTake("probe", t[1..]);
      assert "/probe"[1..] == "probe" && t[1..] != "";
    } else {
      OneSlashTakes(t[1..]);
    }
  }

  lemma StemIsFixed(p: string)
    requires AllSafe(p) && Normal(p)
    ensures Normalize(Stem(p)) == Stem(p)
    ensures Stem(p) != "" ==> Normalize(Stem(p) + "/probe") == Stem(p) + "/probe"
  {
    TrimRightShape(p, SlashOrStar);
    var stem := Stem(p);
    assert AllSafe("/probe");
    SafeJoin(stem, "/probe");
    hide TrimRight;
    if stem == "" {
      NormalIsFixed("");
    } else {
      assert stem[0] == p[0];
      SafeTextIsNormal(stem);
      SafeTextIsNormal(stem + "/probe");
    }
  }

  lemma ProbeHasOneSlash()
    ensures Slashes("/probe") == 1
  {
    assert "/probe"[1..] == "probe" && "probe"[1..] == "robe" && "robe"[1..] == "obe" && "obe"[1..] == "be" && "be"[1..] == "e";
  }

  lemma StemNeeds(p: string)
    ensures Glob(Stem(p), p) ==> Slashes(Trail(p)) == 0
    ensures Glob(Stem(p) + "/probe", p) ==> Slashes(Trail(p)) <= 1
  {
    hide Glob, Slashes, Stem, Trail;
    var stem, trail := Stem(p), Trail(p);
    SlashesJoin(stem, trail);
    SlashesJoin(stem, "/probe");
    ProbeHasOneSlash();
    if Glob(stem, p) {
      GlobKeepsSlashes(stem, p);
    }
    if Glob(stem + "/probe", p) {
      GlobKeepsSlashes(stem + "/probe", p);
    }
  }

  /** The trail is stripped text, and that of a glob, if any, ends with a star. */
  lemma TrailShape(p: string)
    ensures forall i :: 0 <= i < |Trail(p)| ==> SlashOrStar(Trail(p)[i])
    ensures IsGlob(p) && Trail(p) != "" ==> Trail(p)[|Trail(p)| - 1] == '*'
  {
    TrailIsStripped(p);
    var stem, trail := Stem(p), Trail(p);
    hide Stem, Trail;
    assert forall i :: 0 <= i < |trail| ==> trail[i] == p[|stem| + i];
    SlashEnds(p);
  }

  lemma StemAnswers(p: string)
    requires IsGlob(p)
    ensures Glob(Stem(p), p) <==> Slashes(Trail(p)) == 0
    ensures Glob(Stem(p) + "/probe", p) ==> Slashes(Trail(p)) <= 1
    ensures Slashes(Trail(p)) == 1 ==> Glob(Stem(p) + "/probe", p)
  {
    hide Glob, Slashes, Stem, Trail, IsGlob;
    var stem, trail := Stem(p), Trail(p);
    StemNeeds(p);
    TrailShape(p);
    GlobSelf(stem);
    if Slashes(trail) == 0 {
      NoSlashIsStars(trail);
      StarsTake("", trail);
      GlobJoin(stem, stem, "", trail);
      assert stem + "" == stem;
    }
    if Slashes(trail) == 1 {
      NoTrailNoSlash(trail);
      OneSlashTakes(trail);
      GlobJoin(stem, stem, "/probe", trail);
    }
  }

  lemma NoTrailNoSlash(trail: string)
    ensures Slashes(trail) > 0 ==> trail != ""
  {
  }

  lemma MeetsItself(p: string)
    requires IsGlob(p)
    ensures Meet(p, p)
  {
    hide Root, End;
  }

  lemma SelfCandidates(p: string)
    requires AllSafe(p) && Normal(p) && IsGlob(p)
    ensures (exists c :: c in Candidates(p, p) && Owns(p, Normalize(c))) <==>
            Glob(Stem(p), p) || (Stem(p) != "" && Glob(Stem(p) + "/probe", p))
  {
    StemIsFixed(p);
    assert Candidates(p, p) == {Stem(p)} + if Stem(p) != "" then {Stem(p) + "/probe"} else {};
    hide Normalize, Candidates, Stem, Glob;
  }

  /** A glob always shares paths with itself, and the test sees that exactly when
      what follows its stem holds no slash, or one and the stem is not empty. */
  lemma SelfOverlapIff(spec: string)
    requires SafeToken(spec) && IsGlob(Normalize(spec))
    ensures SharesPath(spec, spec)
    ensures var p := Normalize(spec);
            PathSpecsOverlap(spec, spec) <==> Slashes(Trail(p)) == 0 || (Slashes(Trail(p)) == 1 && Stem(p) != "")
  {
    hide Normalize, Candidates, PathSpecsOverlap, SharesPath, Slashes, Stem, Trail, Glob, Meet, Owns, AllSafe, IsGlob;
    var p := Normalize(spec);
    MeetsItself(p);
    SharesPathIff(spec, spec);
    OverlapMissesIff(spec, spec);
    NormalizedIsSafe(spec);
    SelfCandidates(p);
    StemAnswers(p);
  }

  /** A specification that two slashes make disjoint from itself, although it
      owns every path two levels below `src`. */
  lemma DeepGlobMissesItself()
    ensures !PathSpecsOverlap("src/**/*", "src/**/*")
    ensures PathMatches("src/a/b", "src/**/*")
  {
    hide Normalize, PathSpecsOverlap, Slashes, Stem, Trail, Glob, PathMatches, SafeToken, IsGlob, SharesPath;
    DeepGlobShape();
    SelfOverlapIff("src/**/*");
    assert SafeChar('a') && SafeChar('b');
    DeepGlobOwns('a', 'b');
    assert "src/" + ['a'] + "/" + ['b'] == "src/a/b";
  }

  lemma DeepGlobOwns(c: char, d: char)
    requires SafeChar(c) && SafeChar(d)
    ensures PathMatches("src/" + [c] + "/" + [d], "src/**/*")
  {
    hide Normalize, Glob, PathMatches, SafeToken, Stem, Trail, Slashes;
    DeepGlobShape();
    DeepGlobMatches(c, d);
    DeepPathIsNormal(c, d);
    SafeMatches("src/" + [c] + "/" + [d], "src/**/*");
  }

  lemma DeepPathIsNormal(c: char, d: char)
    requires SafeChar(c) && SafeChar(d)
    ensures Normalize("src/" + [c] + "/" + [d]) == "src/" + [c] + "/" + [d]
  {
    var path := "src/" + [c] + "/" + [d];
    assert AllSafe("src/") && AllSafe([c]) && AllSafe("/") && AllSafe([d]);
    assert path[0] == 's';
    hide Normalize, AllSafe;
    SafeJoin("src/", [c]);
    SafeJoin("src/" + [c], "/");
    SafeJoin("src/" + [c] + "/", [d]);
    SafeTextIsNormal(path);
  }

  lemma DeepGlobShape()
    ensures SafeToken("src/**/*") && Normalize("src/**/*") == "src/**/*" && IsGlob("src/**/*")
    ensures Slashes(Trail("src/**/*")) == 2
  {
    var p := "src/**/*";
    DeepGlobStem();
    NormalIsFixed(p);
    hide Normalize, Stem;
    assert Trail(p) == "/**/*";
    assert "/**/*"[1..] == "**/*" && "**/*"[1..] == "*/*" && "*/*"[1..] == "/*" && "/*"[1..] == "*" && "*"[1..] == "";
    assert Slashes("/*") == 1 && Slashes("**/*") == 1;
    assert p[|p| - 1] == '*' && p[|p| - 2] == '/' && p[|p| - 3] == '*';
  }

  lemma DeepGlobStem()
    ensures Stem("src/**/*") == "src"
  {
    assert "src" + ['/'] == "src/" && "src/" + ['*'] == "src/*" && "src/*" + ['*'] == "src/**";
    assert "src/**" + ['/'] == "src/**/" && "src/**/" + ['*'] == "src/**/*";
    assert TrimRight("src", SlashOrStar) == "src";
    hide TrimRight;
    DropLast("src", '/');
    DropLast("src/", '*');
    DropLast("src/*", '*');
    DropLast("src/**", '/');
    DropLast("src/**/", '*');
  }

  lemma DeepGlobMatches(c: char, d: char)
    ensures Glob("src/" + [c] + "/" + [d], "src/**/*")
  {
    assert AllStars("*") && AllStars("**");
    hide Glob;
    GlobSelf("src/");
    GlobSelf("/");
    StarsTake([c], "**");
    StarsTake([d], "*");
    GlobJoin("src/", "src/", [c], "**");
    GlobJoin("src/" + [c], "src/" + "**", "/", "/");
    GlobJoin("src/" + [c] + "/", "src/" + "**" + "/", [d], "*");
    assert "src/" + "**" + "/" + "*" == "src/**/*";
  }
}
