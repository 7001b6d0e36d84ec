/** Stacked pull requests: the separate parent-authority policy, and what a
    passing child and a passing parent force on each other. */
module Stacks {
  import opened Basics
  import opened Reports
  import opened Leases
  import opened Gate
  import opened Snapshots
  import opened Exclusion
  import opened Coexistence
  import opened PassMeaning
  import opened Paths
  import opened PathOverlap

  /** Dictionary lookup by number; the last listed issue wins. */
  function LastIssue(issues: seq<Issue>, number: int): Option<Issue> {
    if issues == [] then None
    else if issues[|issues| - 1].number == number then Some(issues[|issues| - 1])
    else LastIssue(issues[..|issues| - 1], number)
  }

  predicate ForeignParent(issues: seq<Issue>, blocker: int, parent: int) {
    match LastIssue(issues, blocker)
    case None => false
    case Some(issue) => issue.currentPr.Some? && issue.currentPr.value != parent
  }

  function ForeignFindings(issues: seq<Issue>, blockers: seq<int>, parent: int, target: int): seq<Finding> {
    if blockers == [] then []
    else
      ForeignFindings(issues, blockers[..|blockers| - 1], parent, target)
      + When(ForeignParent(issues, blockers[|blockers| - 1], parent), Error, StackParentNotBlockerCurrentPr, PrSubject(target))
  }

  /** Every blocker's own current pull request must be the declared parent. */
  function StackParentFindings(s: Snapshot): seq<Finding> {
    match s.target.manifest
    case Raised(_) => []
    case Ok(m) =>
      if m.mode != Stacked || m.stackParent.None? then []
      else ForeignFindings(s.openIssues, s.workItem.blockedBy, m.stackParent.value, s.target.number)
  }

  method CheckStackParent(s: Snapshot) returns (findings: seq<Finding>)
    ensures findings == StackParentFindings(s)
  {
    findings := [];
    if s.target.manifest.Raised? {
      return;
    }
    var m := s.target.manifest.value;
    if m.mode != Stacked || m.stackParent.None? {
      return;
    }
    var blockers := s.workItem.blockedBy;
    for i := 0 to |blockers|
      invariant findings == ForeignFindings(s.openIssues, blockers[..i], m.stackParent.value, s.target.number)
    {
      assert blockers[..i + 1][..i] == blockers[..i];
      var issue := LastIssue(s.openIssues, blockers[i]);
      if issue.None? {
        continue;
      }
      var current := issue.value.currentPr;
      if current.None? || current == Some(m.stackParent.value) {
        continue;
      }
      findings := findings + [Finding(Error, StackParentNotBlockerCurrentPr, PrSubject(s.target.number))];
    }
    assert blockers[..|blockers|] == blockers;
  }

  lemma {:induction false} LastIssueIsListed(issues: seq<Issue>, number: int)
    ensures match LastIssue(issues, number)
            case Some(i) => i in issues && i.number == number
            case None => number !in IssueNumbers(issues)
  {
    if issues != [] && issues[|issues| - 1].number != number {
      LastIssueIsListed(issues[..|issues| - 1], number);
      assert issues == issues[..|issues| - 1] + [issues[|issues| - 1]];
    }
  }

  lemma {:induction false} NoForeignFindings(issues: seq<Issue>, blockers: seq<int>, parent: int, target: int)
    requires forall n :: n in blockers ==> !ForeignParent(issues, n, parent)
    ensures ForeignFindings(issues, blockers, parent, target) == []
  {
    if blockers != [] {
      NoForeignFindings(issues, blockers[..|blockers| - 1], parent, target);
    }
  }

  lemma {:induction false} OpenBlockersHave(blockedBy: seq<int>, open: set<int>, n: int)
    ensures n in OpenBlockers(blockedBy, open) <==> n in blockedBy && n in open
  {
    if blockedBy != [] {
      OpenBlockersHave(blockedBy[..|blockedBy| - 1], open, n);
      assert blockedBy == blockedBy[..|blockedBy| - 1] + [blockedBy[|blockedBy| - 1]];
    }
  }

  lemma {:induction false} OpenBlockersDistinct(blockedBy: seq<int>, open: set<int>)
    requires NoDuplicates(blockedBy)
    ensures NoDuplicates(OpenBlockers(blockedBy, open))
  {
    if blockedBy != [] {
      var front := blockedBy[..|blockedBy| - 1];
      OpenBlockersDistinct(front, open);
      OpenBlockersHave(front, open, blockedBy[|blockedBy| - 1]);
      assert blockedBy[|blockedBy| - 1] !in front;
    }
  }

  lemma OnlyOne(s: seq<int>, x: int)
    requires s != [] && forall i :: 0 <= i < |s| ==> s[i] == x
    ensures NoDuplicates(s) ==> s == [x]
  {
    if |s| > 1 {
      assert s[0] == s[1];
    }
  }

  /** A passing child with open blockers is stacked on an open parent that
      covers them and whose head is its base. */
  lemma PassingChildShape(text: TextPolicy, s: Snapshot)
    requires Passes(text, s) && Blockers(s) != []
    ensures s.target.manifest.Ok? && s.target.manifest.value.mode == Stacked && s.target.manifest.value.stackParent.Some?
    ensures var parent := Find(OpenPrs(s), s.target.manifest.value.stackParent.value);
            && parent.Some?
            && (forall n :: n in Blockers(s) ==> n in parent.value.links)
            && s.target.baseRef == parent.value.headRef
  {
    hide Passes, Evaluate, OpenPrs, Blockers, Covered, Uncontested;
    PassFacts(text, s);
  }

  /** Child and parent both pass: the child's open blockers are exactly the
      parent's one work item, its base is the parent's head, and the separate
      parent-authority policy has nothing left to find. */
  lemma StackShape(text: TextPolicy, repo: Repo, p: Pr, q: Pr, nowP: Time, nowQ: Time)
    requires Consistent(repo) && p in repo.pulls && q in repo.pulls && q.open
    requires GatePasses(text, repo, p.number, nowP) && GatePasses(text, repo, q.number, nowQ)
    requires var s := SnapshotFromEvent(repo, p.number, nowP).value;
             Blockers(s) != [] && NoDuplicates(s.workItem.blockedBy)
    requires p.manifest.Ok? && p.manifest.value.stackParent == Some(q.number)
    ensures q.manifest.Ok?
    ensures Blockers(SnapshotFromEvent(repo, p.number, nowP).value) == [q.manifest.value.workItem]
    ensures p.baseRef == q.headRef
    ensures StackParentFindings(SnapshotFromEvent(repo, p.number, nowP).value) == []
  {
    hide Passes, Evaluate, SnapshotFromEvent, GatePasses, ForeignFindings, ForeignParent;
    assert SnapshotFromEvent(repo, p.number, nowP).Ok? by { PassGivesSnapshot(text, repo, p.number, nowP); }
    PassGivesSnapshot(text, repo, p.number, nowP);
    var s := SnapshotFromEvent(repo, p.number, nowP).value;
    var w := PassNamesWorkItem(text, repo, q, nowQ);
    SnapshotIsFaithful(repo, p, nowP);
    PassingChildShape(text, s);
    assert IsCurrent(repo, q.number) && q in s.openPrs;
    ParentIsFound(s, q);
    OpenBlockersDistinct(s.workItem.blockedBy, IssueNumbers(s.openIssues));
    forall i | 0 <= i < |Blockers(s)| ensures Blockers(s)[i] == w.number {
      var n := Blockers(s)[i];
      assert n in Blockers(s);
      assert Find(OpenPrs(s), s.target.manifest.value.stackParent.value) == Some(q);
      assert n in q.links;
      assert q.links == [q.links[0]];
    }
    OnlyOne(Blockers(s), w.number);
    forall n | n in s.workItem.blockedBy ensures !ForeignParent(s.openIssues, n, q.number) {
      OpenBlockersHave(s.workItem.blockedBy, IssueNumbers(s.openIssues), n);
      BlockerNamesParent(repo, s, w, n, q.number);
    }
    NoForeignFindings(s.openIssues, s.workItem.blockedBy, q.number, p.number);
  }

  lemma PassGivesSnapshot(text: TextPolicy, repo: Repo, number: int, now: Time)
    requires GatePasses(text, repo, number, now)
    ensures SnapshotFromEvent(repo, number, now).Ok? && Passes(text, SnapshotFromEvent(repo, number, now).value)
  {
  }

  lemma ParentIsFound(s: Snapshot, q: Pr)
    requires UniqueNumbers(s.openPrs) && q in s.openPrs
    ensures Find(OpenPrs(s), q.number) == Some(q)
  {
    ByNumberIsIdentity(s.openPrs);
    FindIsUnique(s.openPrs, q);
    if Find(s.openPrs, s.target.number).None? {
      FindIsStable(s.openPrs, s.target, q.number);
    }
  }

  lemma {:induction false} FindIsStable(prs: seq<Pr>, more: Pr, number: int)
    requires Find(prs, number).Some?
    ensures Find(prs + [more], number) == Find(prs, number)
  {
    if prs[0].number != number {
      FindIsStable(prs[1..], more, number);
      assert (prs + [more])[1..] == prs[1..] + [more];
    }
  }

  /** An open blocker is the parent's work item, which names the parent. */
  lemma BlockerNamesParent(repo: Repo, s: Snapshot, w: Issue, n: int, parent: int)
    requires Consistent(repo) && w in repo.issues && w.currentPr == Some(parent)
    requires forall j :: j in s.openIssues ==> FromRepo(repo, j)
    requires n in IssueNumbers(s.openIssues) ==> n == w.number
    ensures !ForeignParent(s.openIssues, n, parent)
  {
    LastIssueIsListed(s.openIssues, n);
    if LastIssue(s.openIssues, n).Some? {
      var j := LastIssue(s.openIssues, n).value;
      assert j.number in IssueNumbers(s.openIssues);
      var i :| i in repo.issues && j == i.(comments := []);
      SameIssue(repo, i, w);
    }
  }

  // ----- What the policy reports -----

  /** The last listed issue with the blocker's number names another pull request. */
  ghost predicate NamesAnother(issues: seq<Issue>, blocker: int, parent: int) {
    exists i :: 0 <= i < |issues| && issues[i].number == blocker && issues[i].currentPr.Some? && issues[i].currentPr.value != parent
                && forall j :: i < j < |issues| ==> issues[j].number != blocker
  }

  lemma {:induction false} LastIssueIs(issues: seq<Issue>, number: int) returns (i: nat)
    requires LastIssue(issues, number).Some?
    ensures i < |issues| && issues[i] == LastIssue(issues, number).value && issues[i].number == number
    ensures forall j :: i < j < |issues| ==> issues[j].number != number
  {
    if issues[|issues| - 1].number == number {
      i := |issues| - 1;
    } else {
      i := LastIssueIs(issues[..|issues| - 1], number);
    }
  }

  lemma NamesAnotherIff(issues: seq<Issue>, blocker: int, parent: int)
    ensures ForeignParent(issues, blocker, parent) <==> NamesAnother(issues, blocker, parent)
  {
    LastIssueIsListed(issues, blocker);
    if LastIssue(issues, blocker).Some? {
      var k := LastIssueIs(issues, blocker);
      if NamesAnother(issues, blocker, parent) {
        var i :| 0 <= i < |issues| && issues[i].number == blocker && issues[i].currentPr.Some? && issues[i].currentPr.value != parent
                 && forall j :: i < j < |issues| ==> issues[j].number != blocker;
        assert i == k;
      }
    } else {
      assert forall i :: 0 <= i < |issues| ==> issues[i] in issues && issues[i].number in IssueNumbers(issues);
    }
  }

  function CountForeign(issues: seq<Issue>, blockers: seq<int>, parent: int): nat {
    if blockers == [] then 0
    else (if ForeignParent(issues, blockers[0], parent) then 1 else 0) + CountForeign(issues, blockers[1..], parent)
  }

  lemma {:induction false} CountForeignEnd(issues: seq<Issue>, blockers: seq<int>, last: int, parent: int)
    ensures CountForeign(issues, blockers + [last], parent)
            == CountForeign(issues, blockers, parent) + if ForeignParent(issues, last, parent) then 1 else 0
  {
    hide ForeignParent;
    if blockers == [] {
      assert blockers + [last] == [last] && [last][1..] == [];
    } else {
      CountForeignEnd(issues, blockers[1..], last, parent);
      assert (blockers + [last])[1..] == blockers[1..] + [last];
    }
  }

  lemma {:induction false} ForeignFindingsAre(issues: seq<Issue>, blockers: seq<int>, parent: int, target: int)
    ensures |ForeignFindings(issues, blockers, parent, target)| == CountForeign(issues, blockers, parent)
    ensures forall f :: f in ForeignFindings(issues, blockers, parent, target) ==>
              f == Finding(Error, StackParentNotBlockerCurrentPr, PrSubject(target))
    ensures ForeignFindings(issues, blockers, parent, target) != [] <==> exists n :: n in blockers && NamesAnother(issues, n, parent)
  {
    hide ForeignParent, NamesAnother;
    if blockers != [] {
      var front, last := blockers[..|blockers| - 1], blockers[|blockers| - 1];
      ForeignFindingsAre(issues, front, parent, target);
      CountForeignEnd(issues, front, last, parent);
      NamesAnotherIff(issues, last, parent);
      assert blockers == front + [last];
    }
  }

  /** The policy speaks about readable stacked pull requests only, and objects
      once for each blocker whose current pull request is not the parent. */
  lemma PolicyObjectsIff(s: Snapshot)
    ensures StackParentFindings(s) != [] <==>
            && s.target.manifest.Ok? && s.target.manifest.value.mode == Stacked && s.target.manifest.value.stackParent.Some?
            && exists n :: n in s.workItem.blockedBy && NamesAnother(s.openIssues, n, s.target.manifest.value.stackParent.value)
    ensures forall f :: f in StackParentFindings(s) ==> f == Finding(Error, StackParentNotBlockerCurrentPr, PrSubject(s.target.number))
  {
    hide NamesAnother, ForeignFindings;
    if s.target.manifest.Ok? && s.target.manifest.value.stackParent.Some? {
      ForeignFindingsAre(s.openIssues, s.workItem.blockedBy, s.target.manifest.value.stackParent.value, s.target.number);
    }
  }

  // ----- A stack that passes -----

  const PARENT := Claimant(8, 2, "b", "b", None, "parent", "main")
  const CHILD := Claimant(7, 1, "a", "a", Some(8), "child", "parent")
  const CHILD_WORK := Work(1, 7).(blockedBy := [2])

  /** A child whose work item is blocked by its parent's, and the parent, both
      pass over one repository, so the shape of a stack is not an empty claim. */
  lemma StackExists()
    ensures var repo := Repo([CHILD_WORK, Work(2, 8)], [CHILD, PARENT]);
            && Consistent(repo) && CHILD in repo.pulls && PARENT in repo.pulls && PARENT.open
            && GatePasses(PLAIN, repo, CHILD.number, 1) && GatePasses(PLAIN, repo, PARENT.number, 1)
            && SnapshotFromEvent(repo, CHILD.number, 1).Ok?
            && Blockers(SnapshotFromEvent(repo, CHILD.number, 1).value) == [2]
            && CHILD.manifest.value.stackParent == Some(PARENT.number)
  {
    hide GatePasses, Exclusive, ChangedFiles, Declared, PathSpecsOverlap, Normalize, PathMatches, Consistent, SnapshotFromEvent,
      Unblocked, Blockers;
    var a, b := CHILD_WORK, Work(2, 8);
    LetterOwnsItself("a", "a");
    LetterOwnsItself("b", "b");
    LettersAreNormal();
    OneClaim(7, 1, "a", "a", Some(8), "child", "parent");
    OneClaim(8, 2, "b", "b", None, "parent", "main");
    LettersAreApart("a", "b");
    LettersAreApart("b", "a");
    ClaimsAreApart(CHILD.manifest.value, "a", "a", PARENT.manifest.value, "b", "b");
    ClaimsAreApart(PARENT.manifest.value, "b", "b", CHILD.manifest.value, "a", "a");
    ChildIsUnblocked(Snapshot(1, CHILD, a, WithoutComments([a, b]), [CHILD, PARENT]));
    NothingBlocks(PARENT.manifest.value, Snapshot(1, PARENT, b, WithoutComments([a, b]), [CHILD, PARENT]));
    TidyPasses(CHILD, PARENT, a, b, CHILD, PARENT, a);
    TidyPasses(CHILD, PARENT, a, b, PARENT, CHILD, b);
    PairIsConsistent(CHILD, PARENT, a, b);
  }

  lemma LettersAreNormal()
    ensures Normal("a") && Normal("b")
  {
  }

  lemma ChildIsUnblocked(s: Snapshot)
    requires s.target == CHILD && s.workItem == CHILD_WORK && s.openPrs == [CHILD, PARENT]
    requires s.openIssues == WithoutComments([CHILD_WORK, Work(2, 8)])
    ensures Blockers(s) == [2] && Unblocked(CHILD.manifest.value, s)
  {
    OpenPrsOfTwo(s, CHILD, PARENT);
    hide OpenPrs;
    assert s.openIssues[1].number == 2 && s.openIssues[1] in s.openIssues;
    assert 2 in IssueNumbers(s.openIssues);
    assert s.workItem.blockedBy == [2] && [2][..0] == [] && OpenBlockers([], IssueNumbers(s.openIssues)) == [];
    assert OpenBlockers([2], IssueNumbers(s.openIssues)) == [] + [2];
    assert [CHILD, PARENT][1..] == [PARENT] && Find([PARENT], 8) == Some(PARENT) && Find([CHILD, PARENT], 8) == Some(PARENT);
    assert 2 in PARENT.links;
    BlocksIff(s);
    ParentIff(s, 8, PARENT);
    assert StandsOn(s, CHILD.manifest.value, PARENT);
  }
}
