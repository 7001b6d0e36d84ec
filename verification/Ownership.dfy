/** What paths two passing pull requests can both own, globs included. */
module Ownership {
  import opened Basics
  import opened Paths
  import opened PathOverlap
  import opened GlobOverlap
  import opened Gate
  import opened Snapshots
  import opened Exclusion
  import opened Coexistence

  ghost predicate SafeSpecs(m: Manifest) {
    forall spec :: spec in m.AllPathSpecs() ==> SafeToken(spec)
  }

  ghost predicate OwnsInCommon(m: Manifest, other: Manifest) {
    exists path :: Declared(path, m.AllPathSpecs()) && Declared(path, other.AllPathSpecs())
  }

  /** Two passing pull requests own a common path exactly when two of their
      specifications meet; each such pair is one that the overlap test misses. */
  lemma CommonPathIff(text: TextPolicy, repo: Repo, p: Pr, q: Pr, nowP: int, nowQ: int)
    requires Consistent(repo) && p in repo.pulls && q in repo.pulls && p.number != q.number && p.open && q.open
    requires GatePasses(text, repo, p.number, nowP) && GatePasses(text, repo, q.number, nowQ)
    requires p.manifest.Ok? ==> SafeSpecs(p.manifest.value)
    requires q.manifest.Ok? ==> SafeSpecs(q.manifest.value)
    ensures p.manifest.Ok? && q.manifest.Ok?
    ensures OwnsInCommon(p.manifest.value, q.manifest.value) <==>
            exists l, r :: l in p.manifest.value.AllPathSpecs() && r in q.manifest.value.AllPathSpecs()
                           && Meet(Normalize(l), Normalize(r))
    ensures forall l, r :: l in p.manifest.value.AllPathSpecs() && r in q.manifest.value.AllPathSpecs()
                           && Meet(Normalize(l), Normalize(r)) ==>
              !IsFile(Normalize(l)) && !IsFile(Normalize(r)) && !PathSpecsOverlap(l, r)
  {
    hide ChangedFiles, PathMatches, PathSpecsOverlap, NoShared, SnapshotFromEvent, Passes, GatePasses, Meet, Normalize, IsFile, SharesPath,
      SafeToken, OwnsInCommon, TouchesMigrations;
    PassingPrsExclude(text, repo, p, q, nowP, nowQ);
    var left, right := p.manifest.value.AllPathSpecs(), q.manifest.value.AllPathSpecs();
    forall l, r | l in left && r in right
      ensures Meet(Normalize(l), Normalize(r)) <==> SharesPath(l, r)
      ensures Meet(Normalize(l), Normalize(r)) ==> !IsFile(Normalize(l)) && !IsFile(Normalize(r)) && !PathSpecsOverlap(l, r)
    {
      MissedMeeting(l, r);
    }
    CommonPathIsShared(p.manifest.value, q.manifest.value);
  }

  lemma MissedMeeting(l: string, r: string)
    requires SafeToken(l) && SafeToken(r) && !PathSpecsOverlap(l, r)
    ensures Meet(Normalize(l), Normalize(r)) <==> SharesPath(l, r)
    ensures Meet(Normalize(l), Normalize(r)) ==> !IsFile(Normalize(l)) && !IsFile(Normalize(r))
  {
    hide PathSpecsOverlap, Meet, Normalize, IsFile, SharesPath, SafeToken;
    SharesPathIff(l, r);
    OverlapIsSymmetric(l, r);
    SharesPathIsSymmetric(l, r);
    if IsFile(Normalize(l)) {
      FileIsNeverMissed(l, r);
    }
    if IsFile(Normalize(r)) {
      FileIsNeverMissed(r, l);
    }
  }

  lemma SharesPathIsSymmetric(l: string, r: string)
    ensures SharesPath(l, r) <==> SharesPath(r, l)
  {
    hide PathMatches;
  }

  lemma CommonPathIsShared(m: Manifest, other: Manifest)
    ensures OwnsInCommon(m, other) <==>
            exists l, r :: l in m.AllPathSpecs() && r in other.AllPathSpecs() && SharesPath(l, r)
  {
    hide PathMatches;
    if path :| Declared(path, m.AllPathSpecs()) && Declared(path, other.AllPathSpecs()) {
      var l :| l in m.AllPathSpecs() && PathMatches(path, l);
      var r :| r in other.AllPathSpecs() && PathMatches(path, r);
      assert SharesPath(l, r);
    }
    if l, r :| l in m.AllPathSpecs() && r in other.AllPathSpecs() && SharesPath(l, r) {
      var path :| PathMatches(path, l) && PathMatches(path, r);
      assert Declared(path, m.AllPathSpecs()) && Declared(path, other.AllPathSpecs());
    }
  }

  /** A file declared by one passing pull request is owned by no specification
      of the other, whatever its wildcards. */
  lemma DeclaredFileIsExclusive(text: TextPolicy, repo: Repo, p: Pr, q: Pr, nowP: int, nowQ: int, file: string, spec: string)
    requires Consistent(repo) && p in repo.pulls && q in repo.pulls && p.number != q.number && p.open && q.open
    requires GatePasses(text, repo, p.number, nowP) && GatePasses(text, repo, q.number, nowQ)
    requires p.manifest.Ok? ==> file in p.manifest.value.AllPathSpecs()
    requires q.manifest.Ok? ==> spec in q.manifest.value.AllPathSpecs()
    requires SafeToken(file) && SafeToken(spec) && IsFile(Normalize(file))
    ensures !PathMatches(file, spec) && !SharesPath(file, spec)
  {
    hide ChangedFiles, PathMatches, PathSpecsOverlap, NoShared, SnapshotFromEvent, Passes, GatePasses, Normalize, IsFile, SharesPath;
    PassingPrsExclude(text, repo, p, q, nowP, nowQ);
    FileIsNeverMissed(file, spec);
    FileMatchesItself(file, spec);
  }

  lemma FileMatchesItself(file: string, spec: string)
    requires SafeToken(file) && IsFile(Normalize(file))
    ensures PathMatches(file, spec) ==> SharesPath(file, spec)
  {
    SafeMatches(file, file);
  }

  /** Two pull requests that declare the very same specification, which owns the
      files of both, pass together: the test finds it disjoint from itself. */
  lemma SharedGlobPasses()
    ensures var spec := "src/**/*";
            var p, q := Claimant(7, 1, spec, "src/a/b", None, "", ""), Claimant(8, 2, spec, "src/c/d", None, "", "");
            var repo := Repo([Work(1, 7), Work(2, 8)], [p, q]);
            && Consistent(repo) && p in repo.pulls && q in repo.pulls && p.open && q.open
            && GatePasses(PLAIN, repo, p.number, 1) && GatePasses(PLAIN, repo, q.number, 1)
            && OwnsInCommon(p.manifest.value, q.manifest.value)
  {
    hide GatePasses, Consistent, PathSpecsOverlap, PathMatches, Exclusive, ChangedFiles, Normal, Normalize, SnapshotFromEvent;
    var spec := "src/**/*";
    var p, q := Claimant(7, 1, spec, "src/a/b", None, "", ""), Claimant(8, 2, spec, "src/c/d", None, "", "");
    DeepGlobMissesItself();
    DeepGlobFiles();
    OneClaim(7, 1, spec, "src/a/b", None, "", "");
    OneClaim(8, 2, spec, "src/c/d", None, "", "");
    PairPasses(p, q, Work(1, 7), Work(2, 8), spec, spec);
    assert Declared("src/a/b", [spec]);
  }

  lemma DeepGlobFiles()
    ensures Normal("src/a/b") && Normal("src/c/d") && "src/a/b" != "src/c/d"
    ensures PathMatches("src/c/d", "src/**/*")
  {
    DeepGlobOwns('c', 'd');
    assert "src/a/b"[4] != "src/c/d"[4];
    assert "src/" + ['c'] + "/" + ['d'] == "src/c/d";
  }
}

