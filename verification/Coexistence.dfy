/** Passing is possible: the conditions behind the exclusion theorem can all be
    met, by two open pull requests of one repository at the same time. */
module Coexistence {
  import opened Basics
  import opened Leases
  import opened Paths
  import opened PathOverlap
  import opened Pages
  import opened Gate
  import opened Snapshots
  import opened Exclusion
  import opened PassMeaning
  import opened GateBasics

  const PLAIN := TextPolicy(v => v, v => Some(v))

  /** An open pull request that declares one specification and changes one file;
      `parent` is the pull request it is stacked on. */
  function Claimant(number: int, item: int, spec: string, file: string, parent: Option<int>, head: string, base: string): Pr {
    var mode := if parent.Some? then Stacked else Independent;
    Pr(number, true, Ok(Manifest(item, "run", mode, parent, [spec], [], [], [], [], [])), [item], head, base, Some(0), [file])
  }

  function Owner(number: int, item: int, file: string): Pr {
    Claimant(number, item, file, file, None, "", "")
  }

  function Work(number: int, pr: int): Issue {
    Issue(number, true, true, "ready", Some(pr), [], [Dated(Event(Claim, "run", 0, false))])
  }

  lemma TwoListed(l: Pr, r: Pr, a: Issue, b: Issue)
    requires l.open && r.open && l.number != r.number && a.open && a.labelled && b.open && b.labelled
    ensures OpenWorkItems([a, b]) == [a, b] && OpenPulls([l, r]) == [l, r] && ByNumber([l, r]) == [l, r]
  {
    assert [a][..0] == [] && [a, b][..1] == [a] && OpenWorkItems([a]) == [] + [a];
    assert [l][..0] == [] && [l, r][..1] == [l] && OpenPulls([l]) == [] + [l];
    assert ByNumber([l]) == Upsert([], l) && Upsert([l], r) == [l] + Upsert([], r);
  }

  lemma TwoLoaded(l: Pr, r: Pr, target: Pr, current: set<int>, workItem: int)
    requires l.number in current && r.number in current && l.number != r.number && (target == l || target == r)
    requires Fetch(l.files).Ok? && Fetch(r.files).Ok?
    ensures LoadRows([l, r], target, current, workItem) == Ok([l, r])
  {
    hide Fetch;
    assert [l][..0] == [] && [l, r][..1] == [l];
    assert LoadRows([l], target, current, workItem) == Ok([] + [l]);
    assert [] + [l] + [r] == [l, r];
  }

  lemma PairNumbers(a: Issue, b: Issue, first: int, second: int)
    requires a.currentPr == Some(first) && b.currentPr == Some(second)
    ensures first in CurrentNumbers([a, b]) && second in CurrentNumbers([a, b])
    ensures a.number in IssueNumbers([a, b]) && b.number in IssueNumbers([a, b])
  {
    assert a in [a, b] && b in [a, b];
  }

  lemma PairSnapshot(l: Pr, r: Pr, a: Issue, b: Issue, pr: Pr, issue: Issue)
    requires l.open && r.open && l.number != r.number && a.open && a.labelled && b.open && b.labelled
    requires a.number != b.number && a.currentPr == Some(l.number) && b.currentPr == Some(r.number)
    requires |l.files| <= 2 && |r.files| <= 2 && |a.comments| <= 2 && |b.comments| <= 2
    requires (pr == l && issue == a) || (pr == r && issue == b)
    requires pr.links == [issue.number]
    ensures SnapshotFromEvent(Repo([a, b], [l, r]), pr.number, 1)
            == Ok(Snapshot(1, pr, issue, WithoutComments([a, b]), [l, r]))
  {
    hide OpenWorkItems, OpenPulls, ByNumber, LoadRows, IssueNumbers, CurrentNumbers;
    TwoListed(l, r, a, b);
    assert [a, b][1..] == [b] && [l, r][1..] == [r];
    assert FindIssue([b], b.number) == Some(b) && Find([r], r.number) == Some(r);
    assert FindIssue([a, b], issue.number) == Some(issue) && Find([l, r], pr.number) == Some(pr);
    var current := CurrentNumbers([a, b]) + {pr.number};
    PairNumbers(a, b, l.number, r.number);
    TwoLoaded(l, r, pr, current, issue.number);
  }

  const CLAIM := Event(Claim, "run", 0, false)
  const HELD := Lease("run", 0, LEASE, None)

  lemma ClaimedBook()
    ensures BookOf([Dated(CLAIM)]) == Ok(Book(map["run" := HELD], ["run"], Some("run"), []))
  {
    var comments := [Dated(CLAIM)];
    assert comments[..0] == [] && Events(comments) == Some([] + [CLAIM]);
    assert [CLAIM][..0] == [] && SortByTime([CLAIM]) == [] + [CLAIM];
    assert Replay([CLAIM]) == Step(EMPTY_BOOK, CLAIM);
    assert [] + ["run"] == ["run"] && map[]["run" := HELD] == map["run" := HELD];
  }

  lemma ClaimHolds(book: Book, now: Time)
    requires book == Book(map["run" := HELD], ["run"], Some("run"), []) && 0 <= now < LEASE
    ensures book.Wf() && ActiveLease(book.leases, book.order, now) == Some(HELD)
  {
    assert HELD.ActiveAt(now) && [HELD][..0] == [];
    assert LatestActive([HELD], now) == Some(HELD);
    assert Values(book.leases, book.order) == [HELD];
  }

  lemma PairHoldsLeases(pr: Pr, issue: Issue, s: Snapshot)
    requires pr.manifest.Ok? && pr.manifest.value.run == "run" && s.now == 1
    requires issue.comments == [Dated(CLAIM)]
    ensures BookOf(issue.comments).Ok?
    ensures HoldsLease(pr.manifest.value, s, BookOf(issue.comments).value, 0)
  {
    hide BookOf, ActiveLease;
    ClaimedBook();
    ClaimHolds(BookOf(issue.comments).value, 1);
    assert HELD.ActiveAt(0);
  }

  lemma LetterOwnsItself(file: string, path: string)
    requires |file| == 1 && 'a' <= file[0] <= 'z'
    ensures Normalize(file) == file
    ensures PathMatches(path, file) <==> Normalize(path) == file
  {
    SafeIsNotSpace(file[0]);
    hide Normalize, Glob, TrimRight, IsSpace;
    NormalIsFixed(file);
    assert !EndsWith(file, "/**") && !EndsWith(file, "/") && !HasWildcard(file);
  }

  lemma LettersAreApart(left: string, right: string)
    requires |left| == |right| == 1 && 'a' <= left[0] <= 'z' && 'a' <= right[0] <= 'z' && left != right
    ensures !PathSpecsOverlap(left, right)
  {
    hide Normalize, PathMatches, Candidates;
    LetterOwnsItself(left, left);
    LetterOwnsItself(right, right);
    forall c ensures !(PathMatches(c, left) && PathMatches(c, right)) {
      LetterOwnsItself(left, c);
      LetterOwnsItself(right, c);
    }
  }

  lemma NoMigration(file: string)
    requires |file| < 9
    ensures !TouchesMigrations([file])
  {
    assert |"/versions/"| == 10 && |"migration"| == 9;
    forall i | 0 <= i <= |file| ensures |file[i..]| < 9 {}
    forall i | 0 <= i <= |Lower(file)| ensures |Lower(file)[i..]| < 9 {}
  }

  lemma DistinctOne(x: string)
    ensures Distinct([x]) == [x]
  {
    assert [x][..0] == [] && Distinct<string>([]) == [];
  }

  lemma OneSafeFile(file: string)
    requires Normalize(file) == file
    ensures SafeFiles(PLAIN, [file]) == Some([file])
  {
    hide Normalize;
    assert [file][..0] == [] && SafeFiles(PLAIN, []) == Some([]);
    assert SafeFiles(PLAIN, [file]) == Some([] + [file]) && [] + [file] == [file];
  }

  lemma OneSpec(m: Manifest, spec: string)
    requires m.writePaths == [spec] && m.generatedFiles == [] && m.workflows == []
    ensures m.AllPathSpecs() == [spec]
  {
    assert [spec] + [] + [] == [spec];
    DistinctOne(spec);
    hide Distinct;
  }

  lemma OneClaim(number: int, item: int, spec: string, file: string, parent: Option<int>, head: string, base: string)
    requires Normal(file) && PathMatches(file, spec)
    ensures var pr := Claimant(number, item, spec, file, parent, head, base);
            && ChangedFiles(PLAIN, pr) == Some([file]) && pr.manifest.value.AllPathSpecs() == [spec]
            && Declared(file, [spec])
  {
    hide Normalize, PathMatches, Normal, SafeFiles, Distinct;
    NormalIsFixed(file);
    OneSafeFile(file);
    DistinctOne(file);
    OneSpec(Claimant(number, item, spec, file, parent, head, base).manifest.value, spec);
    assert spec in [spec];
  }

  lemma OneFile(number: int, item: int, file: string)
    requires |file| == 1 && 'a' <= file[0] <= 'z'
    ensures var pr := Owner(number, item, file);
            && ChangedFiles(PLAIN, pr) == Some([file]) && pr.manifest.value.AllPathSpecs() == [file]
            && Declared(file, [file])
  {
    LetterOwnsItself(file, file);
    SafeIsNotSpace(file[0]);
    OneClaim(number, item, file, file, None, "", "");
  }

  lemma ClaimsAreApart(m: Manifest, spec: string, file: string, other: Manifest, otherSpec: string, otherFile: string)
    requires m.AllPathSpecs() == [spec] && other.AllPathSpecs() == [otherSpec]
    requires m.contracts == [] && m.database == [] && m.generatedFiles == [] && m.workflows == []
    requires !PathSpecsOverlap(spec, otherSpec) && file != otherFile && |file| < 9
    ensures Exclusive(PLAIN, m, [file], other, [otherFile])
  {
    hide PathMatches, TouchesMigrations, PathSpecsOverlap, Placeholder, Lower, Distinct;
    NoMigration(file);
  }

  /** A pull request and its work item that are in order by themselves. */
  ghost predicate Tidy(pr: Pr, issue: Issue) {
    && pr.open && pr.links == [issue.number] && pr.createdAt == Some(0) && pr.manifest.Ok? && |pr.files| == 1
    && pr.manifest.value.workItem == issue.number && pr.manifest.value.run == "run"
    && issue.open && issue.labelled && issue.lifecycle == "ready" && issue.currentPr == Some(pr.number)
    && issue.comments == [Dated(CLAIM)]
    && ChangedFiles(PLAIN, pr) == Some(pr.files) && Declared(pr.files[0], pr.manifest.value.AllPathSpecs())
  }

  lemma OneOfTwoCloses(l: Pr, r: Pr, a: int, b: int, item: int)
    requires l.links == [a] && r.links == [b] && a != b && item in {a, b}
    ensures |ClosingPrs([l, r], item)| == 1
  {
    assert [l][..0] == [] && [l, r][..1] == [l];
    assert ClosingPrs([l], item) == if item == a then [] + [l.number] else [];
  }

  lemma OpenPrsOfTwo(s: Snapshot, l: Pr, r: Pr)
    requires s.openPrs == [l, r] && l.open && r.open && l.number != r.number && (s.target == l || s.target == r)
    ensures OpenPrs(s) == [l, r]
  {
    assert [l][..0] == [] && [l, r][..1] == [l] && ByNumber([l]) == Upsert([], l) && Upsert([l], r) == [l] + Upsert([], r);
    assert [l, r][1..] == [r] && Find([r], r.number) == Some(r) && Find([l, r], s.target.number) == Some(s.target);
  }

  lemma TidyConditions(l: Pr, r: Pr, a: Issue, b: Issue, pr: Pr, other: Pr, issue: Issue, s: Snapshot)
    requires Tidy(l, a) && Tidy(r, b) && l.number != r.number && a.number != b.number
    requires (pr == l && other == r && issue == a) || (pr == r && other == l && issue == b)
    requires Exclusive(PLAIN, pr.manifest.value, pr.files, other.manifest.value, other.files)
    requires s.now == 1 && s.target == pr && s.workItem == issue && s.openPrs == [l, r]
    requires Unblocked(pr.manifest.value, s)
    ensures PassConditions(PLAIN, s)
  {
    hide HoldsLease, BookOf, ChangedFiles, Declared, Exclusive, Unblocked, OpenPrs, ClosingPrs, CurrentPrs, SoleCloser, Compared;
    PairHoldsLeases(pr, issue, s);
    OpenPrsOfTwo(s, l, r);
    OneOfTwoCloses(l, r, a.number, b.number, issue.number);
    SoleCloserIff(s);
    forall q | Compared(s, q) ensures q == other {
      ComparedIff(s, q);
    }
    assert forall p :: p in pr.files ==> p == pr.files[0];
  }

  /** One of two tidy pull requests passes if it has nothing in common with the
      other and its blockers are met. */
  lemma TidyPasses(l: Pr, r: Pr, a: Issue, b: Issue, pr: Pr, other: Pr, issue: Issue)
    requires Tidy(l, a) && Tidy(r, b) && l.number != r.number && a.number != b.number
    requires (pr == l && other == r && issue == a) || (pr == r && other == l && issue == b)
    requires Exclusive(PLAIN, pr.manifest.value, pr.files, other.manifest.value, other.files)
    requires Unblocked(pr.manifest.value, Snapshot(1, pr, issue, WithoutComments([a, b]), [l, r]))
    ensures GatePasses(PLAIN, Repo([a, b], [l, r]), pr.number, 1)
    ensures SnapshotFromEvent(Repo([a, b], [l, r]), pr.number, 1) == Ok(Snapshot(1, pr, issue, WithoutComments([a, b]), [l, r]))
  {
    hide Passes, PassConditions, SnapshotFromEvent, ChangedFiles, Declared, Exclusive, Unblocked;
    var s := Snapshot(1, pr, issue, WithoutComments([a, b]), [l, r]);
    PairSnapshot(l, r, a, b, pr, issue);
    TidyConditions(l, r, a, b, pr, other, issue, s);
    PassIff(PLAIN, s);
  }

  lemma NothingBlocks(m: Manifest, s: Snapshot)
    requires s.workItem.blockedBy == []
    ensures Unblocked(m, s)
  {
  }

  lemma PairIsConsistent(l: Pr, r: Pr, a: Issue, b: Issue)
    requires l.number != r.number && a.number != b.number
    ensures Consistent(Repo([a, b], [l, r])) && l in [l, r] && r in [l, r]
  {
  }

  /** Both pull requests pass over the same state, so no theorem about passing
      pairs is empty. */
  lemma BothPass()
    ensures var p, q, repo := Owner(7, 1, "a"), Owner(8, 2, "b"), Repo([Work(1, 7), Work(2, 8)], [Owner(7, 1, "a"), Owner(8, 2, "b")]);
            && Consistent(repo) && p in repo.pulls && q in repo.pulls && p.number != q.number && p.open && q.open
            && GatePasses(PLAIN, repo, p.number, 1) && GatePasses(PLAIN, repo, q.number, 1)
  {
    hide GatePasses, Exclusive, Unblocked, ChangedFiles, Declared, PathSpecsOverlap;
    var l, r, a, b := Owner(7, 1, "a"), Owner(8, 2, "b"), Work(1, 7), Work(2, 8);
    OneFile(7, 1, "a");
    OneFile(8, 2, "b");
    LettersAreApart("a", "b");
    LettersAreApart("b", "a");
    PairPasses(l, r, a, b, "a", "b");
  }

  /** Two tidy independent pull requests with specifications that do not overlap
      both pass. */
  lemma PairPasses(l: Pr, r: Pr, a: Issue, b: Issue, left: string, right: string)
    requires Tidy(l, a) && Tidy(r, b) && l.number != r.number && a.number != b.number
    requires l.manifest.value.AllPathSpecs() == [left] && r.manifest.value.AllPathSpecs() == [right]
    requires !PathSpecsOverlap(left, right) && l.files[0] != r.files[0] && |l.files[0]| < 9 && |r.files[0]| < 9
    requires forall pr :: pr in {l, r} ==>
               var m := pr.manifest.value; m.contracts == [] && m.database == [] && m.generatedFiles == [] && m.workflows == []
    requires a.blockedBy == [] && b.blockedBy == []
    ensures Consistent(Repo([a, b], [l, r])) && l in [l, r] && r in [l, r]
    ensures GatePasses(PLAIN, Repo([a, b], [l, r]), l.number, 1) && GatePasses(PLAIN, Repo([a, b], [l, r]), r.number, 1)
  {
    hide GatePasses, Exclusive, Unblocked, ChangedFiles, Declared, PathSpecsOverlap, Consistent, SnapshotFromEvent;
    PairIsConsistent(l, r, a, b);
    OverlapIsSymmetric(left, right);
    assert l.files == [l.files[0]] && r.files == [r.files[0]];
    ClaimsAreApart(l.manifest.value, left, l.files[0], r.manifest.value, right, r.files[0]);
    ClaimsAreApart(r.manifest.value, right, r.files[0], l.manifest.value, left, l.files[0]);
    NothingBlocks(l.manifest.value, Snapshot(1, l, a, WithoutComments([a, b]), [l, r]));
    NothingBlocks(r.manifest.value, Snapshot(1, r, b, WithoutComments([a, b]), [l, r]));
    TidyPasses(l, r, a, b, l, r, a);
    TidyPasses(l, r, a, b, r, l, b);
  }
}
