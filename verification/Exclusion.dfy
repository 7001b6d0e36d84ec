/** What passing means across pull requests: over one repository state, two
    pull requests that both pass own nothing in common. */
module Exclusion {
  import opened Basics
  import opened Reports
  import opened Leases
  import opened Paths
  import opened PathOverlap
  import opened Gate
  import opened Snapshots

  ghost predicate UniqueNumbers(prs: seq<Pr>) {
    forall i, j :: 0 <= i < j < |prs| ==> prs[i].number != prs[j].number
  }

  ghost predicate Consistent(repo: Repo) {
    && UniqueNumbers(repo.pulls)
    && (forall i, j :: 0 <= i < j < |repo.issues| ==> repo.issues[i].number != repo.issues[j].number)
  }

  ghost predicate GatePasses(text: TextPolicy, repo: Repo, number: int, now: Time) {
    SnapshotFromEvent(repo, number, now).Ok? && Passes(text, SnapshotFromEvent(repo, number, now).value)
  }

  // ----- What a pass says about one snapshot -----

  ghost predicate Authorized(s: Snapshot) {
    && s.target.manifest.Ok?
    && s.target.manifest.value.workItem == s.workItem.number
    && (s.target.links != [] ==> LinkedItems(s.target.links) == {s.workItem.number})
    && s.workItem.open && s.workItem.labelled
    && s.workItem.currentPr == Some(s.target.number)
    && BlockerFindings(s.target.manifest.value, s) == []
  }

  ghost predicate Covered(text: TextPolicy, s: Snapshot) {
    && s.target.manifest.Ok?
    && ChangedFiles(text, s.target).Some?
    && forall p :: p in ChangedFiles(text, s.target).value ==> Declared(p, s.target.manifest.value.AllPathSpecs())
  }

  ghost predicate Uncontested(text: TextPolicy, s: Snapshot) {
    && s.target.manifest.Ok? && ChangedFiles(text, s.target).Some?
    && var g := Gather(text, OpenPrs(s), s.target.number, CurrentPrs(s.openIssues));
    && g.Ok? && g.value.warnings == []
    && AllPairs(text, s.target.number, s.target.manifest.value, ChangedFiles(text, s.target).value, g.value.rivals) == Ok([])
  }

  lemma SilentGroups(m: Manifest, s: Snapshot, book: Book, createdAt: Time, paths: seq<string>)
    requires book.Wf() && s.target.manifest == Ok(m)
    requires OwnFindings(m, s, book, createdAt, paths) == []
    ensures Authorized(s)
    ensures forall p :: p in paths ==> Declared(p, m.AllPathSpecs())
    ensures book.findings == [] && ActiveLease(book.leases, book.order, s.now).Some?
    ensures ActiveLease(book.leases, book.order, s.now).value.run == m.run
  {
    hide BlockerFindings, ActiveLease, ClosingPrs, OpenPrs, Declared;
    assert LinkFindings(m, s) == [] && ControlFindings(s) == [] && AuthorityFindings(s) == [];
    assert BlockerFindings(m, s) == [] && LeaseFindings(m, s, book, createdAt) == [] && PathFindings(m, s, paths) == [];
  }

  lemma PassIsSilent(text: TextPolicy, s: Snapshot)
    requires Passes(text, s)
    ensures Evaluate(text, s).value.raised == []
  {
    CapKeepsVerdict(Evaluate(text, s).value.raised);
  }

  /** A pass is a valid authority, a declared file list and no contest. */
  lemma PassFacts(text: TextPolicy, s: Snapshot)
    requires Passes(text, s)
    ensures Authorized(s) && Covered(text, s) && Uncontested(text, s)
    ensures BookOf(s.workItem.comments).Ok?
    ensures var book := BookOf(s.workItem.comments).value;
            && ActiveLease(book.leases, book.order, s.now).Some?
            && ActiveLease(book.leases, book.order, s.now).value.run == s.target.manifest.value.run
  {
    hide OwnFindings, ActiveLease, ChangedFiles, OpenPrs, CurrentPrs, Verdict;
    PassIsSilent(text, s);
    var m := s.target.manifest.value;
    var paths := ChangedFiles(text, s.target).value;
    SilentGroups(m, s, BookOf(s.workItem.comments).value, s.target.createdAt.value, paths);
  }

  // ----- Who is compared -----

  lemma {:induction false} GatherFinds(text: TextPolicy, prs: seq<Pr>, target: int, current: map<int, int>, pr: Pr)
    requires Gather(text, prs, target, current).Ok?
    requires pr in prs && pr.number != target && pr.number in current && pr.manifest.Ok?
    ensures Rival(pr, pr.manifest.value) in Gather(text, prs, target, current).value.rivals
  {
    if pr != prs[|prs| - 1] {
      assert pr in prs[..|prs| - 1];
      GatherFinds(text, prs[..|prs| - 1], target, current, pr);
    }
  }

  lemma {:induction false} GatherReads(text: TextPolicy, prs: seq<Pr>, target: int, current: map<int, int>, pr: Pr)
    requires Gather(text, prs, target, current).Ok? && Gather(text, prs, target, current).value.warnings == []
    requires pr in prs && pr.number != target && pr.number in current
    ensures pr.manifest.Ok?
  {
    hide ChangedFiles, FallbackManifest;
    if pr != prs[|prs| - 1] {
      assert pr in prs[..|prs| - 1];
      GatherReads(text, prs[..|prs| - 1], target, current, pr);
    }
  }

  lemma {:induction false} GatherOnlyFinds(text: TextPolicy, prs: seq<Pr>, target: int, current: map<int, int>, rival: Rival)
    requires Gather(text, prs, target, current).Ok?
    requires rival in Gather(text, prs, target, current).value.rivals
    ensures rival.pr in prs && rival.pr.number != target && rival.pr.number in current
  {
    var g := Gather(text, prs[..|prs| - 1], target, current).value;
    if rival in g.rivals {
      GatherOnlyFinds(text, prs[..|prs| - 1], target, current, rival);
    }
  }

  lemma {:induction false} NoPairFindings(text: TextPolicy, target: int, m: Manifest, paths: seq<string>, rivals: seq<Rival>, rival: Rival)
    requires AllPairs(text, target, m, paths, rivals) == Ok([]) && rival in rivals
    ensures ChangedFiles(text, rival.pr).Some?
    ensures PairFindings(text, target, m, paths, rival.manifest, ChangedFiles(text, rival.pr).value) == []
  {
    hide PairFindings, ChangedFiles;
    if rival != rivals[|rivals| - 1] {
      assert rival in rivals[..|rivals| - 1];
      NoPairFindings(text, target, m, paths, rivals[..|rivals| - 1], rival);
    }
  }

  lemma {:induction false} UpsertAppends(prs: seq<Pr>, pr: Pr)
    requires forall i :: 0 <= i < |prs| ==> prs[i].number != pr.number
    ensures Upsert(prs, pr) == prs + [pr]
  {
    if prs != [] {
      UpsertAppends(prs[1..], pr);
    }
  }

  lemma {:induction false} ByNumberIsIdentity(prs: seq<Pr>)
    requires UniqueNumbers(prs)
    ensures ByNumber(prs) == prs
  {
    if prs != [] {
      ByNumberIsIdentity(prs[..|prs| - 1]);
      UpsertAppends(prs[..|prs| - 1], prs[|prs| - 1]);
    }
  }

  lemma {:induction false} CurrentPrsKeys(issues: seq<Issue>, n: int)
    ensures n in CurrentPrs(issues) <==> exists i :: 0 <= i < |issues| && issues[i].currentPr == Some(n)
  {
    if issues != [] {
      CurrentPrsKeys(issues[..|issues| - 1], n);
      if i :| 0 <= i < |issues| && issues[i].currentPr == Some(n) && i != |issues| - 1 {
        assert issues[..|issues| - 1][i].currentPr == Some(n);
      }
    }
  }

  // ----- What a snapshot contains -----

  lemma {:induction false} OpenWorkItemsHave(issues: seq<Issue>, issue: Issue)
    ensures issue in OpenWorkItems(issues) <==> issue in issues && issue.open && issue.labelled
  {
    if issues != [] {
      OpenWorkItemsHave(issues[..|issues| - 1], issue);
      assert issues == issues[..|issues| - 1] + [issues[|issues| - 1]];
    }
  }

  lemma {:induction false} OpenPullsHave(pulls: seq<Pr>, pr: Pr)
    ensures pr in OpenPulls(pulls) <==> pr in pulls && pr.open
  {
    if pulls != [] {
      OpenPullsHave(pulls[..|pulls| - 1], pr);
      assert pulls == pulls[..|pulls| - 1] + [pulls[|pulls| - 1]];
    }
  }

  lemma {:induction false} OpenPullsUnique(pulls: seq<Pr>)
    requires UniqueNumbers(pulls)
    ensures UniqueNumbers(OpenPulls(pulls))
  {
    if pulls != [] {
      var front := pulls[..|pulls| - 1];
      OpenPullsUnique(front);
      forall i | 0 <= i < |OpenPulls(front)| ensures OpenPulls(front)[i].number != pulls[|pulls| - 1].number {
        OpenPullsHave(front, OpenPulls(front)[i]);
      }
    }
  }

  /** Row by row: a relevant pull request comes with its files. */
  lemma {:induction false} LoadRowsShape(rows: seq<Pr>, target: Pr, current: set<int>, workItem: int)
    requires LoadRows(rows, target, current, workItem).Ok?
    ensures var prs := LoadRows(rows, target, current, workItem).value;
            |prs| == |rows| && forall i :: 0 <= i < |rows| ==>
              && prs[i].number == rows[i].number
              && prs[i] == (if rows[i].number == target.number then target
                            else if Included(rows[i], current, workItem) then rows[i] else rows[i].(files := []))
  {
    if rows != [] {
      LoadRowsShape(rows[..|rows| - 1], target, current, workItem);
    }
  }

  lemma {:induction false} FindIsUnique(prs: seq<Pr>, pr: Pr)
    requires UniqueNumbers(prs) && pr in prs
    ensures Find(prs, pr.number) == Some(pr)
  {
    if prs[0].number != pr.number {
      assert pr in prs[1..];
      FindIsUnique(prs[1..], pr);
    } else {
      var i :| 0 <= i < |prs| && prs[i] == pr;
    }
  }

  ghost predicate IsCurrent(repo: Repo, number: int) {
    exists i :: i in repo.issues && i.open && i.labelled && i.currentPr == Some(number)
  }

  ghost predicate FromRepo(repo: Repo, j: Issue) {
    exists i :: i in repo.issues && j == i.(comments := [])
  }

  /** The snapshot of a consistent repository holds every open work item, and
      every open pull request that matters together with its files. */
  ghost predicate Faithful(repo: Repo, pr: Pr, s: Snapshot) {
    && s.target == pr && |pr.links| == 1
    && s.workItem in repo.issues && s.workItem.number == pr.links[0]
    && UniqueNumbers(s.openPrs)
    && (forall i :: i in repo.issues && i.open && i.labelled ==> i.(comments := []) in s.openIssues)
    && (forall j :: j in s.openIssues ==> FromRepo(repo, j))
    && (forall o :: o in repo.pulls && o.open && (o.number == pr.number || IsCurrent(repo, o.number)) ==> o in s.openPrs)
  }

  lemma SnapshotIsFaithful(repo: Repo, pr: Pr, now: Time)
    requires Consistent(repo) && pr in repo.pulls
    requires SnapshotFromEvent(repo, pr.number, now).Ok?
    ensures Faithful(repo, pr, SnapshotFromEvent(repo, pr.number, now).value)
  {
    var s := SnapshotFromEvent(repo, pr.number, now).value;
    FindIsUnique(repo.pulls, pr);
    FoundIssueNumber(repo.issues, pr.links[0]);
    var listed, rows := OpenWorkItems(repo.issues), OpenPulls(repo.pulls);
    var current := CurrentNumbers(listed) + {pr.number};
    OpenPullsUnique(repo.pulls);
    LoadRowsShape(rows, pr, current, pr.links[0]);
    forall i | i in repo.issues && i.open && i.labelled ensures i.(comments := []) in s.openIssues {
      OpenWorkItemsHave(repo.issues, i);
      ListedKeeps(listed, i);
    }
    forall j | j in s.openIssues ensures FromRepo(repo, j) {
      if j in WithoutComments(listed) {
        var k :| 0 <= k < |listed| && WithoutComments(listed)[k] == j;
        OpenWorkItemsHave(repo.issues, listed[k]);
        assert j == listed[k].(comments := []);
      } else {
        assert j == s.workItem.(comments := []);
      }
    }
    forall o | o in repo.pulls && o.open && (o.number == pr.number || IsCurrent(repo, o.number)) ensures o in s.openPrs
    {
      OpenPullsHave(repo.pulls, o);
      var k :| 0 <= k < |rows| && rows[k] == o;
      if o.number == pr.number {
        FindIsUnique(repo.pulls, o);
      } else if i :| i in repo.issues && i.open && i.labelled && i.currentPr == Some(o.number) {
        OpenWorkItemsHave(repo.issues, i);
        assert o.number in CurrentNumbers(listed);
      }
      assert s.openPrs[k] == o;
    }
  }

  lemma ListedKeeps(listed: seq<Issue>, issue: Issue)
    requires issue in listed
    ensures issue.(comments := []) in WithoutComments(listed)
  {
    var k :| 0 <= k < |listed| && listed[k] == issue;
    assert WithoutComments(listed)[k] == issue.(comments := []);
  }

  // ----- Pairwise exclusion -----

  ghost predicate NoShared(text: TextPolicy, left: seq<string>, right: seq<string>) {
    forall a, b :: a in left && b in right && !Placeholder(a) && !Placeholder(b) ==>
      Lower(text.bounded(a)) != Lower(text.bounded(b))
  }

  ghost predicate Exclusive(text: TextPolicy, m: Manifest, paths: seq<string>, other: Manifest, otherPaths: seq<string>) {
    && (forall p :: !(p in paths && p in otherPaths))
    && (forall l, r :: l in m.AllPathSpecs() && r in other.AllPathSpecs() ==> !PathSpecsOverlap(l, r))
    && NoShared(text, m.contracts, other.contracts)
    && NoShared(text, m.database, other.database)
    && NoShared(text, m.generatedFiles, other.generatedFiles)
    && NoShared(text, m.workflows, other.workflows)
    && (TouchesMigrations(paths) && TouchesMigrations(otherPaths) ==>
          m.migrations != [] && other.migrations != [] && NoShared(text, m.migrations, other.migrations))
  }

  lemma EmptyIntersection(text: TextPolicy, left: seq<string>, right: seq<string>)
    ensures ResourceIntersection(text, left, right) == {} <==> NoShared(text, left, right)
  {
    if ResourceIntersection(text, left, right) == {} {
      forall a, b | a in left && b in right && !Placeholder(a) && !Placeholder(b)
        ensures Lower(text.bounded(a)) != Lower(text.bounded(b))
      {
        assert Lower(text.bounded(a)) in Resources(text, left);
        assert Lower(text.bounded(b)) in Resources(text, right);
        assert Lower(text.bounded(a)) !in ResourceIntersection(text, left, right);
      }
    }
  }

  lemma {:induction false} ResourceSilence(text: TextPolicy, target: int, claims: seq<Claimed>)
    ensures ResourceFindings(text, target, claims) == [] <==>
              forall i :: 0 <= i < |claims| ==> NoShared(text, claims[i].left, claims[i].right)
  {
    hide NoShared, ResourceIntersection;
    if claims != [] {
      var front, c := claims[..|claims| - 1], claims[|claims| - 1];
      ResourceSilence(text, target, front);
      EmptyIntersection(text, c.left, c.right);
      assert claims == front + [c];
    }
  }

  /** The comparison of a pair is silent exactly when the pair shares nothing. */
  lemma PairSilenceIsExclusion(text: TextPolicy, target: int, m: Manifest, paths: seq<string>, other: Manifest, otherPaths: seq<string>)
    ensures PairFindings(text, target, m, paths, other, otherPaths) == [] <==> Exclusive(text, m, paths, other, otherPaths)
  {
    hide NoShared, ResourceIntersection, PathSpecsOverlap, ResourceFindings;
    var claims := ExclusiveResources(m, other);
    ResourceSilence(text, target, claims);
    assert claims[0].left == m.contracts && claims[1].left == m.database
        && claims[2].left == m.generatedFiles && claims[3].left == m.workflows;
    EmptyIntersection(text, m.migrations, other.migrations);
  }

  /** Another pull request that is the current one of an open work item is
      always compared, with its own files and its own manifest. */
  lemma RivalIsCompared(text: TextPolicy, repo: Repo, p: Pr, q: Pr, now: Time, issue: Issue)
    requires Consistent(repo) && p in repo.pulls && q in repo.pulls && p.number != q.number
    requires p.open && q.open
    requires GatePasses(text, repo, p.number, now)
    requires issue in repo.issues && issue.open && issue.labelled && issue.currentPr == Some(q.number)
    ensures p.manifest.Ok? && q.manifest.Ok? && ChangedFiles(text, p).Some? && ChangedFiles(text, q).Some?
    ensures Exclusive(text, p.manifest.value, ChangedFiles(text, p).value, q.manifest.value, ChangedFiles(text, q).value)
  {
    hide Passes, Evaluate, SnapshotFromEvent, Exclusive, PairFindings, AllPairs, Gather, ChangedFiles, Authorized, Covered;
    var s := SnapshotFromEvent(repo, p.number, now).value;
    SnapshotIsFaithful(repo, p, now);
    PassFacts(text, s);
    ByNumberIsIdentity(s.openPrs);
    FindIsUnique(s.openPrs, p);
    assert OpenPrs(s) == s.openPrs;
    assert IsCurrent(repo, q.number);
    CurrentIsKey(s.openIssues, issue.(comments := []), q.number);
    var g := Gather(text, OpenPrs(s), s.target.number, CurrentPrs(s.openIssues));
    GatherReads(text, OpenPrs(s), s.target.number, CurrentPrs(s.openIssues), q);
    GatherFinds(text, OpenPrs(s), s.target.number, CurrentPrs(s.openIssues), q);
    NoPairFindings(text, p.number, p.manifest.value, ChangedFiles(text, p).value, g.value.rivals, Rival(q, q.manifest.value));
    PairSilenceIsExclusion(text, p.number, p.manifest.value, ChangedFiles(text, p).value, q.manifest.value, ChangedFiles(text, q).value);
  }

  lemma CurrentIsKey(issues: seq<Issue>, issue: Issue, n: int)
    requires issue in issues && issue.currentPr == Some(n)
    ensures n in CurrentPrs(issues)
  {
    CurrentPrsKeys(issues, n);
  }

  /** The work item of a passing pull request names it, and no other, as current. */
  lemma PassNamesWorkItem(text: TextPolicy, repo: Repo, p: Pr, now: Time) returns (issue: Issue)
    requires Consistent(repo) && p in repo.pulls && GatePasses(text, repo, p.number, now)
    ensures p.manifest.Ok? && |p.links| == 1 && p.links[0] == p.manifest.value.workItem
    ensures issue in repo.issues && issue.number == p.manifest.value.workItem
    ensures issue.open && issue.labelled && issue.currentPr == Some(p.number)
    ensures issue == SnapshotFromEvent(repo, p.number, now).value.workItem
  {
    hide Passes, Evaluate, SnapshotFromEvent, Covered, Uncontested, BlockerFindings;
    issue := SnapshotFromEvent(repo, p.number, now).value.workItem;
    SnapshotIsFaithful(repo, p, now);
    PassFacts(text, SnapshotFromEvent(repo, p.number, now).value);
  }

  lemma SameIssue(repo: Repo, i: Issue, j: Issue)
    requires Consistent(repo) && i in repo.issues && j in repo.issues
    ensures i.number == j.number ==> i == j
  {
  }

  /** Two different open pull requests that both pass over one repository state,
      at whatever two times, have different work items and share no file, no
      declared path pair, no resource and no migration revision. */
  lemma PassingPrsExclude(text: TextPolicy, repo: Repo, p: Pr, q: Pr, nowP: Time, nowQ: Time)
    requires Consistent(repo) && p in repo.pulls && q in repo.pulls && p.number != q.number && p.open && q.open
    requires GatePasses(text, repo, p.number, nowP) && GatePasses(text, repo, q.number, nowQ)
    ensures p.manifest.Ok? && q.manifest.Ok? && p.manifest.value.workItem != q.manifest.value.workItem
    ensures ChangedFiles(text, p).Some? && ChangedFiles(text, q).Some?
    ensures Exclusive(text, p.manifest.value, ChangedFiles(text, p).value, q.manifest.value, ChangedFiles(text, q).value)
  {
    hide Exclusive, ChangedFiles, GatePasses;
    var i := PassNamesWorkItem(text, repo, p, nowP);
    var j := PassNamesWorkItem(text, repo, q, nowQ);
    SameIssue(repo, i, j);
    RivalIsCompared(text, repo, p, q, nowP, j);
  }

  ghost predicate SpecsInFragment(m: Manifest) {
    forall spec :: spec in m.AllPathSpecs() ==> InFragment(spec)
  }

  /** On files, directories and subtrees the two pull requests own disjoint sets
      of paths, existing or not, and each owns every file it changes. */
  lemma OwnershipIsDisjoint(text: TextPolicy, repo: Repo, p: Pr, q: Pr, nowP: Time, nowQ: Time, path: string)
    requires Consistent(repo) && p in repo.pulls && q in repo.pulls && p.number != q.number && p.open && q.open
    requires GatePasses(text, repo, p.number, nowP) && GatePasses(text, repo, q.number, nowQ)
    requires p.manifest.Ok? ==> SpecsInFragment(p.manifest.value)
    requires q.manifest.Ok? ==> SpecsInFragment(q.manifest.value)
    ensures p.manifest.Ok? && q.manifest.Ok? && ChangedFiles(text, p).Some?
    ensures !(Declared(path, p.manifest.value.AllPathSpecs()) && Declared(path, q.manifest.value.AllPathSpecs()))
    ensures path in ChangedFiles(text, p).value ==> Declared(path, p.manifest.value.AllPathSpecs())
  {
    hide ChangedFiles, PathMatches, PathSpecsOverlap, InFragment, NoShared, SnapshotFromEvent, Passes, Uncontested, Authorized;
    PassingPrsExclude(text, repo, p, q, nowP, nowQ);
    SnapshotIsFaithful(repo, p, nowP);
    PassFacts(text, SnapshotFromEvent(repo, p.number, nowP).value);
    if Declared(path, p.manifest.value.AllPathSpecs()) && Declared(path, q.manifest.value.AllPathSpecs()) {
      var l :| l in p.manifest.value.AllPathSpecs() && PathMatches(path, l);
      var r :| r in q.manifest.value.AllPathSpecs() && PathMatches(path, r);
      OverlapIsExact(l, r);
      assert false;
    }
  }
}
