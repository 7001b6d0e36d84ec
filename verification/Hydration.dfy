/** The snapshot builder and the evaluator agree on which pull requests matter. */
module Hydration {
  import opened Basics
  import opened Reports
  import opened Leases
  import opened Paths
  import opened PathOverlap
  import opened Gate
  import opened Snapshots
  import opened Exclusion

  lemma EarlyErrorFails(raised: seq<Finding>, i: nat)
    requires i < |raised| && i < MAX_FINDINGS && raised[i].severity == Error
    ensures Verdict(raised) == Fail
  {
    CapHidesExactlyLateErrors(raised);
  }

  /** An unreadable manifest, or a work item that names another pull request as
      current, always fails the gate: the finding is raised among the first, so
      the cap cannot drop it. */
  lemma MismatchFails(text: TextPolicy, s: Snapshot)
    requires Evaluate(text, s).Ok?
    requires s.target.manifest.Raised? || s.workItem.currentPr != Some(s.target.number)
    ensures Verdict(Evaluate(text, s).value.raised) == Fail
  {
    hide ClosingPrs, OpenPrs, BlockerFindings, LeaseFindings, PathFindings, Gather, AllPairs, ChangedFiles, BookOf, CurrentPrs, Verdict;
    var raised := Evaluate(text, s).value.raised;
    if s.target.manifest.Raised? {
      EarlyErrorFails(raised, 0);
    } else {
      var m := s.target.manifest.value;
      var early := LinkFindings(m, s) + ControlFindings(s) + AuthorityFindings(s);
      assert |early| <= 7 && early <= raised;
      assert early[|early| - 1].severity == Error;
      EarlyErrorFails(raised, |early| - 1);
    }
  }

  /** Unless the verdict is a failure, every pull request the evaluator compares
      with is the repository's own record, complete with its files, also when
      the work item itself is missing from the open listing. */
  lemma ComparedPrsAreHydrated(text: TextPolicy, repo: Repo, p: Pr, now: Time, rival: Rival)
    requires Consistent(repo) && p in repo.pulls && SnapshotFromEvent(repo, p.number, now).Ok?
    requires var s := SnapshotFromEvent(repo, p.number, now).value;
             && Evaluate(text, s).Ok? && Verdict(Evaluate(text, s).value.raised) != Fail
             && Gather(text, OpenPrs(s), p.number, CurrentPrs(s.openIssues)).Ok?
             && rival in Gather(text, OpenPrs(s), p.number, CurrentPrs(s.openIssues)).value.rivals
    ensures rival.pr in repo.pulls && rival.pr.open
  {
    hide Evaluate, Verdict, Gather, CurrentPrs, OpenPrs, ByNumber;
    var s := SnapshotFromEvent(repo, p.number, now).value;
    SnapshotIsFaithful(repo, p, now);
    assert s.target.manifest.Ok? && s.workItem.currentPr == Some(p.number) by {
      if s.target.manifest.Raised? || s.workItem.currentPr != Some(p.number) {
        MismatchFails(text, s);
      }
    }
    GatherOnlyFinds(text, OpenPrs(s), p.number, CurrentPrs(s.openIssues), rival);
    OpenPrsAreListed(s, p, rival.pr);
    CurrentPrsKeys(s.openIssues, rival.pr.number);
    var k :| 0 <= k < |s.openIssues| && s.openIssues[k].currentPr == Some(rival.pr.number);
    CurrentIsListed(repo, p, s, now, s.openIssues[k], rival.pr.number);
    RowIsWhole(repo, p, s, now, rival.pr);
  }

  lemma OpenPrsAreListed(s: Snapshot, p: Pr, pr: Pr)
    requires UniqueNumbers(s.openPrs) && pr in OpenPrs(s) && s.target == p && pr.number != p.number
    ensures pr in s.openPrs
  {
    ByNumberIsIdentity(s.openPrs);
  }

  /** The current pull request of a listed open issue is among the numbers the
      builder reads with files; the appended work item only names the target. */
  lemma CurrentIsListed(repo: Repo, p: Pr, s: Snapshot, now: Time, issue: Issue, n: int)
    requires SnapshotFromEvent(repo, p.number, now) == Ok(s)
    requires Find(repo.pulls, p.number) == Some(p)
    requires s.workItem.currentPr == Some(p.number) && n != p.number
    requires issue in s.openIssues && issue.currentPr == Some(n)
    ensures n in CurrentNumbers(OpenWorkItems(repo.issues))
  {
    var listed := OpenWorkItems(repo.issues);
    assert issue in WithoutComments(listed);
    var k :| 0 <= k < |listed| && WithoutComments(listed)[k] == issue;
    assert listed[k] in listed;
  }

  lemma RowIsWhole(repo: Repo, p: Pr, s: Snapshot, now: Time, pr: Pr)
    requires Consistent(repo) && p in repo.pulls && SnapshotFromEvent(repo, p.number, now) == Ok(s)
    requires pr in s.openPrs && pr.number != p.number
    requires pr.number in CurrentNumbers(OpenWorkItems(repo.issues))
    ensures pr in repo.pulls && pr.open
  {
    FindIsUnique(repo.pulls, p);
    var rows := OpenPulls(repo.pulls);
    LoadRowsShape(rows, p, CurrentNumbers(OpenWorkItems(repo.issues)) + {p.number}, p.links[0]);
    var k :| 0 <= k < |s.openPrs| && s.openPrs[k] == pr;
    assert rows[k] == pr;
    OpenPullsHave(repo.pulls, pr);
  }

  /** The changed files of a pull request never begin with a dot or a slash, so
      the stand-in for an unreadable manifest can list generated files only
      under `generated/` and never lists a workflow, whatever was changed. */
  lemma FallbackListsNoWorkflow(text: TextPolicy, pr: Pr, workItem: int)
    requires ChangedFiles(text, pr).Some?
    ensures FallbackManifest(workItem, ChangedFiles(text, pr).value).workflows == []
    ensures forall f :: f in FallbackManifest(workItem, ChangedFiles(text, pr).value).generatedFiles ==> "generated/" <= f
  {
    var files := ChangedFiles(text, pr).value;
    forall f | f in files ensures !(".github/" <= f) && !(".github/workflows/" <= f) {
      SafeFilesAreNormal(text, pr.files, f);
    }
    StartingWithHas(files, ".github/", "generated/");
    StartingWithHas(files, ".github/workflows/", ".github/workflows/");
    NoElements(StartingWith(files, ".github/workflows/", ".github/workflows/"));
  }

  lemma NoElements(s: seq<string>)
    ensures (forall f :: f !in s) ==> s == []
  {
    if s != [] {
      assert s[0] in s;
    }
  }

  lemma {:induction false} SafeFilesAreNormal(text: TextPolicy, files: seq<string>, f: string)
    requires SafeFiles(text, files).Some? && f in SafeFiles(text, files).value
    ensures f == "" || !DotOrSlash(f[0])
  {
    var front := SafeFiles(text, files[..|files| - 1]);
    if f in front.value {
      SafeFilesAreNormal(text, files[..|files| - 1], f);
    } else {
      NormalizeHead(text.safe(files[|files| - 1]).value);
    }
  }

  lemma {:induction false} StartingWithHas(paths: seq<string>, prefix: string, other: string)
    ensures forall p :: p in StartingWith(paths, prefix, other) <==> p in paths && (prefix <= p || other <= p)
  {
    if paths != [] {
      StartingWithHas(paths[..|paths| - 1], prefix, other);
      assert paths == paths[..|paths| - 1] + [paths[|paths| - 1]];
    }
  }
}
