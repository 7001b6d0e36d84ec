/** A repository in which two pull requests own the same file and the gate only
    warns, because the compared pull requests include fifty unreadable ones. */
module HiddenConflict {
  import opened Basics
  import opened Reports
  import opened Leases
  import opened Paths
  import opened Gate
  import opened Snapshots
  import opened Exclusion
  import opened PassMeaning
  import opened GateBasics
  import opened Coexistence
  import opened GateFailures

  /** A current pull request without files, whose body no longer parses. */
  function Broken(number: int): Pr {
    Pr(number, true, Raised("agent_run_id_required"), [], "", "", None, [])
  }

  function Crowd(n: nat): seq<Pr> {
    seq(n, i requires 0 <= i < n => Broken(100 + i))
  }

  function CrowdWork(n: nat): seq<Issue> {
    seq(n, i requires 0 <= i < n => Work(100 + i, 100 + i))
  }

  /** Pull request 7 and its rival 8 both own and change the file `a`. */
  function CrowdedRepo(n: nat): Repo {
    Repo([Work(1, 7), Work(2, 8)] + CrowdWork(n), [Owner(7, 1, "a"), Owner(8, 2, "a")] + Crowd(n))
  }

  function Crowded(n: nat): Snapshot {
    Snapshot(1, Owner(7, 1, "a"), Work(1, 7), WithoutComments(CrowdedRepo(n).issues), CrowdedRepo(n).pulls)
  }

  // ----- The builder reads the repository into the snapshot -----

  lemma {:induction false} AllIssuesOpen(issues: seq<Issue>)
    requires forall i :: 0 <= i < |issues| ==> issues[i].open && issues[i].labelled
    ensures OpenWorkItems(issues) == issues
  {
    if issues != [] {
      AllIssuesOpen(issues[..|issues| - 1]);
    }
  }

  lemma {:induction false} AllPullsOpen(pulls: seq<Pr>)
    requires forall i :: 0 <= i < |pulls| ==> pulls[i].open
    ensures OpenPulls(pulls) == pulls
  {
    if pulls != [] {
      AllPullsOpen(pulls[..|pulls| - 1]);
    }
  }

  lemma {:induction false} AllRowsLoaded(rows: seq<Pr>, target: Pr, current: set<int>, workItem: int)
    requires forall i :: 0 <= i < |rows| ==>
               rows[i].number in current && |rows[i].files| < 2000 && (rows[i].number == target.number ==> rows[i] == target)
    ensures LoadRows(rows, target, current, workItem) == Ok(rows)
  {
    if rows != [] {
      AllRowsLoaded(rows[..|rows| - 1], target, current, workItem);
      assert rows == rows[..|rows| - 1] + [rows[|rows| - 1]];
    }
  }

  lemma CrowdedRepoIndex(n: nat)
    ensures var issues, pulls := CrowdedRepo(n).issues, CrowdedRepo(n).pulls;
            && |issues| == n + 2 && issues[0] == Work(1, 7) && issues[1] == Work(2, 8)
            && (forall i :: 2 <= i < |issues| ==> issues[i] == Work(98 + i, 98 + i))
            && |pulls| == n + 2 && pulls[0] == Owner(7, 1, "a") && pulls[1] == Owner(8, 2, "a")
            && (forall i :: 2 <= i < |pulls| ==> pulls[i] == Broken(98 + i))
  {
  }

  /** The listings are read whole up to 1999 entries. */
  lemma CrowdIsRead(n: nat)
    requires n + 2 < 2000
    ensures Consistent(CrowdedRepo(n)) && CrowdedRepo(n).pulls[0] == Owner(7, 1, "a")
    ensures SnapshotFromEvent(CrowdedRepo(n), 7, 1) == Ok(Crowded(n))
  {
    hide CrowdedRepo, OpenWorkItems, OpenPulls, LoadRows, CurrentNumbers, IssueNumbers;
    CrowdedRepoIndex(n);
    var issues, pulls := CrowdedRepo(n).issues, CrowdedRepo(n).pulls;
    AllIssuesOpen(issues);
    AllPullsOpen(pulls);
    var current := CurrentNumbers(issues) + {7};
    forall i | 0 <= i < |pulls| ensures pulls[i].number in current {
      CurrentIsListed(issues, i);
    }
    AllRowsLoaded(pulls, pulls[0], current, 1);
    ItemIsListed(issues, 0);
    assert Find(pulls, 7) == Some(pulls[0]) && FindIssue(issues, 1) == Some(issues[0]);
    CrowdedIsConsistent(n);
  }

  lemma CrowdedIsConsistent(n: nat)
    ensures Consistent(CrowdedRepo(n))
  {
    CrowdedRepoIndex(n);
    hide CrowdedRepo;
    var issues, pulls := CrowdedRepo(n).issues, CrowdedRepo(n).pulls;
    assert forall i :: 0 <= i < |issues| ==> issues[i].number == if i < 2 then 1 + i else 98 + i;
    assert forall i :: 0 <= i < |pulls| ==> pulls[i].number == if i < 2 then 7 + i else 98 + i;
  }

  lemma CurrentIsListed(issues: seq<Issue>, i: nat)
    requires i < |issues| && issues[i].currentPr.Some?
    ensures issues[i].currentPr.value in CurrentNumbers(issues)
  {
    assert issues[i] in issues;
  }

  lemma ItemIsListed(issues: seq<Issue>, i: nat)
    requires i < |issues|
    ensures issues[i].number in IssueNumbers(issues)
  {
    assert issues[i] in issues;
  }

  // ----- Evaluation reaches a verdict -----

  lemma {:induction false} GatherSucceeds(text: TextPolicy, prs: seq<Pr>, target: int, current: map<int, int>)
    requires forall pr :: pr in prs ==> ChangedFiles(text, pr).Some?
    ensures Gather(text, prs, target, current).Ok?
  {
    hide ChangedFiles, FallbackManifest;
    if prs != [] {
      GatherSucceeds(text, prs[..|prs| - 1], target, current);
    }
  }

  lemma {:induction false} PairsSucceed(text: TextPolicy, target: int, m: Manifest, paths: seq<string>, rivals: seq<Rival>)
    requires forall r :: r in rivals ==> ChangedFiles(text, r.pr).Some?
    ensures AllPairs(text, target, m, paths, rivals).Ok?
  {
    hide ChangedFiles, PairFindings;
    if rivals != [] {
      PairsSucceed(text, target, m, paths, rivals[..|rivals| - 1]);
    }
  }

  lemma {:induction false} CountUnreadable(prs: seq<Pr>, target: int, current: map<int, int>, from: nat)
    requires from <= |prs|
    requires forall i :: from <= i < |prs| ==> prs[i].number != target && prs[i].number in current && prs[i].manifest.Raised?
    ensures |UnreadableRivals(prs, target, current)| >= |prs| - from
  {
    if from < |prs| {
      CountUnreadable(prs[..|prs| - 1], target, current, from);
    }
  }

  lemma {:induction false} OneCloses(prs: seq<Pr>, item: int)
    requires prs != [] && item in prs[0].links && forall i :: 0 < i < |prs| ==> item !in prs[i].links
    ensures ClosingPrs(prs, item) == [prs[0].number]
  {
    if |prs| > 1 {
      OneCloses(prs[..|prs| - 1], item);
    } else {
      assert prs[..0] == [] && ClosingPrs([], item) == [];
    }
  }

  // ----- The crowded snapshot -----

  lemma CrowdedIndex(n: nat)
    ensures var prs := Crowded(n).openPrs;
            && |prs| == n + 2 && prs[0] == Owner(7, 1, "a") && prs[1] == Owner(8, 2, "a")
            && forall i :: 2 <= i < |prs| ==> prs[i] == Broken(98 + i)
    ensures Crowded(n).target == Owner(7, 1, "a")
  {
  }

  lemma CrowdedPrs(n: nat)
    ensures UniqueNumbers(Crowded(n).openPrs) && OpenPrs(Crowded(n)) == Crowded(n).openPrs
    ensures |ClosingPrs(OpenPrs(Crowded(n)), 1)| == 1
    ensures Owner(8, 2, "a") in Crowded(n).openPrs
  {
    hide Crowded;
    CrowdedIndex(n);
    var prs := Crowded(n).openPrs;
    assert forall i :: 0 <= i < |prs| ==> prs[i].number == if i < 2 then 7 + i else 98 + i;
    ByNumberIsIdentity(prs);
    FindIsUnique(prs, prs[0]);
    OneCloses(prs, 1);
  }

  lemma OwnerHasFiles(number: int, item: int)
    ensures ChangedFiles(PLAIN, Owner(number, item, "a")).Some?
  {
    hide ChangedFiles;
    OneFile(number, item, "a");
  }

  lemma CrowdedFiles(n: nat)
    ensures forall pr :: pr in Crowded(n).openPrs ==> ChangedFiles(PLAIN, pr).Some?
  {
    CrowdedIndex(n);
    OwnerHasFiles(7, 1);
    OwnerHasFiles(8, 2);
    hide ChangedFiles, Crowded, Owner, Broken;
    var prs := Crowded(n).openPrs;
    forall pr | pr in prs ensures ChangedFiles(PLAIN, pr).Some? {
      var i :| 0 <= i < |prs| && prs[i] == pr;
      if i >= 2 {
        BrokenHasFiles(98 + i);
      }
    }
  }

  lemma BrokenHasFiles(number: int)
    ensures ChangedFiles(PLAIN, Broken(number)) == Some([])
  {
  }

  lemma CrowdedCurrent(n: nat, number: int)
    requires number == 8 || 100 <= number < 100 + n
    ensures number in CurrentPrs(Crowded(n).openIssues)
  {
    CrowdedRepoIndex(n);
    hide CrowdedRepo;
    var issues := Crowded(n).openIssues;
    CurrentPrsKeys(issues, number);
    if number == 8 {
      assert issues[1].currentPr == Some(8);
    } else {
      assert issues[number - 98].currentPr == Some(number);
    }
  }

  lemma CrowdedEvaluates(n: nat)
    ensures Evaluate(PLAIN, Crowded(n)).Ok?
  {
    var s := Crowded(n);
    hide ChangedFiles, Gather, AllPairs, OpenPrs, CurrentPrs, BookOf, OwnFindings;
    CrowdedPrs(n);
    CrowdedFiles(n);
    ClaimedBook();
    OneFile(7, 1, "a");
    var current := CurrentPrs(s.openIssues);
    GatherSucceeds(PLAIN, OpenPrs(s), 7, current);
    var rivals := Gather(PLAIN, OpenPrs(s), 7, current).value.rivals;
    forall r | r in rivals ensures ChangedFiles(PLAIN, r.pr).Some? {
      GatherOnlyFinds(PLAIN, OpenPrs(s), 7, current, r);
    }
    PairsSucceed(PLAIN, 7, s.target.manifest.value, ["a"], rivals);
  }

  lemma CrowdedIsInOrder(n: nat)
    requires Evaluate(PLAIN, Crowded(n)).Ok?
    ensures OwnInOrder(PLAIN, Crowded(n))
  {
    hide Evaluate, ChangedFiles, OpenPrs, BookOf, HoldsLease, Declared, ClosingPrs, SoleCloser, Unblocked;
    var s := Crowded(n);
    CrowdedPrs(n);
    PairHoldsLeases(s.target, s.workItem, s);
    OneFile(7, 1, "a");
    SoleCloserIff(s);
    NothingBlocks(s.target.manifest.value, s);
  }

  lemma CrowdedConflicts(n: nat)
    requires Evaluate(PLAIN, Crowded(n)).Ok?
    ensures Conflicts(PLAIN, Crowded(n))
  {
    hide Evaluate, ChangedFiles, OpenPrs, CurrentPrs, PathSpecsOverlap, NoShared;
    var s, other := Crowded(n), Owner(8, 2, "a");
    CrowdedPrs(n);
    CrowdedFiles(n);
    CrowdedCurrent(n, 8);
    var current := CurrentPrs(s.openIssues);
    GatherSucceeds(PLAIN, OpenPrs(s), 7, current);
    GatherFinds(PLAIN, OpenPrs(s), 7, current, other);
    OneFile(7, 1, "a");
    OneFile(8, 2, "a");
    assert "a" in ["a"];
    assert !RivalApart(PLAIN, s.target.manifest.value, ["a"], Rival(other, other.manifest.value));
  }

  lemma CrowdedIsUnreadable(n: nat)
    ensures UnreadableIn(Crowded(n)) >= n
  {
    hide OpenPrs, CurrentPrs, UnreadableRivals, Crowded, UniqueNumbers, ClosingPrs;
    var s := Crowded(n);
    CrowdedIndex(n);
    CrowdedPrs(n);
    forall i | 2 <= i < |s.openPrs|
      ensures s.openPrs[i].number != 7 && s.openPrs[i].number in CurrentPrs(s.openIssues) && s.openPrs[i].manifest.Raised?
    {
      CrowdedCurrent(n, 98 + i);
    }
    CountUnreadable(OpenPrs(s), 7, CurrentPrs(s.openIssues), 2);
  }

  /** Pull request 7 is read from its repository and evaluated: the conflict over
      `a` is raised as an error, and the gate warns. */
  lemma CrowdHidesConflict(n: nat)
    requires MAX_FINDINGS <= n < 1998
    ensures Consistent(CrowdedRepo(n)) && SnapshotFromEvent(CrowdedRepo(n), 7, 1) == Ok(Crowded(n))
    ensures Evaluate(PLAIN, Crowded(n)).Ok?
    ensures HasSeverity(Evaluate(PLAIN, Crowded(n)).value.raised, Error)
    ensures ReportOf(Crowded(n), Evaluate(PLAIN, Crowded(n)).value).state == Warn
  {
    hide Evaluate, OwnInOrder, Conflicts, UnreadableIn, Crowded, CrowdedRepo, SnapshotFromEvent, Consistent;
    CrowdIsRead(n);
    CrowdedEvaluates(n);
    CrowdedIsInOrder(n);
    CrowdedConflicts(n);
    CrowdedIsUnreadable(n);
    TargetIsReadable(n);
    GateFailsIff(PLAIN, Crowded(n));
    CapKeepsVerdict(Evaluate(PLAIN, Crowded(n)).value.raised);
  }

  lemma TargetIsReadable(n: nat)
    ensures Crowded(n).target.manifest.Ok?
  {
  }
}
