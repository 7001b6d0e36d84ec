/** What the gate reads, what each of its reason codes stands for, and that a
    passing pull request is the only one that closes its work item. */
module GateMeaning {
  import opened Basics
  import opened Reports
  import opened Leases
  import opened Gate
  import opened Snapshots
  import opened Exclusion
  import opened GateBasics
  import opened PassMeaning
  import opened GateFailures
  import opened Hydration

  // ----- The snapshot, record by record -----

  /** Read with its files: the target, a pull request that an open work item
      names, or one that closes the same work item. */
  ghost predicate Whole(repo: Repo, target: Pr, q: Pr) {
    || q.number == target.number
    || (exists i :: i in repo.issues && i.open && i.labelled && i.currentPr == Some(q.number))
    || (target.links != [] && target.links[0] in q.links)
  }

  /** Every open pull request is there once, whole or without its files, and the
      open work items and the target's own, without their comments. */
  ghost predicate Reads(repo: Repo, target: Pr, now: Time, s: Snapshot) {
    && s.now == now && s.target == target
    && s.workItem in repo.issues && target.links == [s.workItem.number]
    && (forall o :: o in s.openPrs <==> exists q :: q in repo.pulls && q.open
                                          && o == if Whole(repo, target, q) then q else q.(files := []))
    && (forall j :: j in s.openIssues <==> exists i :: i in repo.issues && ((i.open && i.labelled) || i == s.workItem)
                                             && j == i.(comments := []))
  }

  lemma WholeIff(repo: Repo, target: Pr, q: Pr, current: set<int>)
    requires target.links != [] && current == CurrentNumbers(OpenWorkItems(repo.issues)) + {target.number}
    ensures q.number == target.number || Included(q, current, target.links[0]) <==> Whole(repo, target, q)
  {
    var listed := OpenWorkItems(repo.issues);
    forall i ensures i in listed <==> i in repo.issues && i.open && i.labelled {
      OpenWorkItemsHave(repo.issues, i);
    }
    hide OpenWorkItems;
    if i :| i in repo.issues && i.open && i.labelled && i.currentPr == Some(q.number) {
      assert i in listed;
    }
  }

  lemma SnapshotIsExact(repo: Repo, target: Pr, now: Time)
    requires Consistent(repo) && target in repo.pulls && SnapshotFromEvent(repo, target.number, now).Ok?
    ensures Reads(repo, target, now, SnapshotFromEvent(repo, target.number, now).value)
  {
    hide LoadRows, OpenPulls, OpenWorkItems, CurrentNumbers, Whole;
    var s := SnapshotFromEvent(repo, target.number, now).value;
    FindIsUnique(repo.pulls, target);
    FoundIssueNumber(repo.issues, target.links[0]);
    var rows, listed := OpenPulls(repo.pulls), OpenWorkItems(repo.issues);
    var current := CurrentNumbers(listed) + {target.number};
    OpenPullsUnique(repo.pulls);
    LoadRowsShape(rows, target, current, target.links[0]);
    forall o ensures o in s.openPrs <==> exists q :: q in repo.pulls && q.open && o == if Whole(repo, target, q) then q else q.(files := []) {
      RowsAre(repo, target, rows, current, s.openPrs, o);
    }
    forall j ensures j in s.openIssues <==> exists i :: i in repo.issues && ((i.open && i.labelled) || i == s.workItem) && j == i.(comments := []) {
      IssuesAre(repo, listed, s.workItem, s.openIssues, j);
    }
  }

  lemma RowsAre(repo: Repo, target: Pr, rows: seq<Pr>, current: set<int>, prs: seq<Pr>, o: Pr)
    requires UniqueNumbers(repo.pulls) && target in repo.pulls && target.links != []
    requires rows == OpenPulls(repo.pulls) && current == CurrentNumbers(OpenWorkItems(repo.issues)) + {target.number}
    requires |prs| == |rows| && forall i :: 0 <= i < |rows| ==>
               prs[i] == (if rows[i].number == target.number then target
                          else if Included(rows[i], current, target.links[0]) then rows[i] else rows[i].(files := []))
    ensures o in prs <==> exists q :: q in repo.pulls && q.open && o == if Whole(repo, target, q) then q else q.(files := [])
  {
    hide OpenPulls, OpenWorkItems, CurrentNumbers, Whole, Included;
    forall q ensures q in rows <==> q in repo.pulls && q.open {
      OpenPullsHave(repo.pulls, q);
    }
    forall q: Pr ensures q.number == target.number || Included(q, current, target.links[0]) <==> Whole(repo, target, q) {
      WholeIff(repo, target, q, current);
    }
    forall i | 0 <= i < |rows| ensures rows[i].number == target.number ==> rows[i] == target {
      assert rows[i] in rows;
    }
    if o in prs {
      var i :| 0 <= i < |prs| && prs[i] == o;
      assert rows[i] in rows;
    }
    if q :| q in repo.pulls && q.open && o == if Whole(repo, target, q) then q else q.(files := []) {
      var i :| 0 <= i < |rows| && rows[i] == q;
      assert prs[i] == o;
    }
  }

  lemma IssuesAre(repo: Repo, listed: seq<Issue>, own: Issue, issues: seq<Issue>, j: Issue)
    requires forall i, k :: 0 <= i < k < |repo.issues| ==> repo.issues[i].number != repo.issues[k].number
    requires own in repo.issues && listed == OpenWorkItems(repo.issues) && issues == OpenIssuesFor(listed, own)
    ensures j in issues <==> exists i :: i in repo.issues && ((i.open && i.labelled) || i == own) && j == i.(comments := [])
  {
    hide OpenWorkItems;
    forall i ensures i in listed <==> i in repo.issues && i.open && i.labelled {
      OpenWorkItemsHave(repo.issues, i);
    }
    if own.number in IssueNumbers(listed) {
      var i :| i in listed && i.number == own.number;
      assert i == own;
    }
    forall i | i in listed ensures i.(comments := []) in WithoutComments(listed) {
      ListedKeeps(listed, i);
    }
    if j in WithoutComments(listed) {
      var k :| 0 <= k < |listed| && WithoutComments(listed)[k] == j;
      assert listed[k] in listed;
    }
  }

  // ----- The only one to close its work item -----

  /** No other open pull request of the repository closes the work item of a
      passing one. */
  lemma PassingClosesAlone(text: TextPolicy, repo: Repo, p: Pr, q: Pr, now: Time)
    requires Consistent(repo) && p in repo.pulls && q in repo.pulls && q.open && q.number != p.number
    requires GatePasses(text, repo, p.number, now)
    ensures p.links != [] && p.links[0] !in q.links
  {
    hide Passes, PassConditions, SnapshotFromEvent, Listed, Reads, Evaluate;
    var s := SnapshotFromEvent(repo, p.number, now).value;
    SnapshotIsExact(repo, p, now);
    PassIff(text, s);
    assert SoleCloser(s) by { PassIsSole(text, s); }
    assert p.links == [s.workItem.number] by { ReadsItem(repo, p, now, s); }
    var a := TargetIsListed(repo, p, now, s);
    var b := OpenIsListed(repo, p, q, now, s);
  }

  lemma PassIsSole(text: TextPolicy, s: Snapshot)
    requires PassConditions(text, s)
    ensures SoleCloser(s)
  {
    hide SoleCloser;
  }

  lemma ReadsItem(repo: Repo, p: Pr, now: Time, s: Snapshot)
    requires Reads(repo, p, now, s)
    ensures s.target == p && p.links == [s.workItem.number]
  {
  }

  lemma OpenIsListed(repo: Repo, p: Pr, q: Pr, now: Time, s: Snapshot) returns (b: Pr)
    requires Consistent(repo) && Reads(repo, p, now, s) && q in repo.pulls && q.open
    ensures Listed(s, b) && b.number == q.number && b.links == q.links
  {
    hide Whole;
    var o := if Whole(repo, p, q) then q else q.(files := []);
    assert o in s.openPrs;
    var i :| 0 <= i < |s.openPrs| && s.openPrs[i] == o;
    b := SomeIsLast(s.openPrs, i);
    assert b in s.openPrs;
    var r :| r in repo.pulls && r.open && b == if Whole(repo, p, r) then r else r.(files := []);
    assert r == q;
  }

  lemma TargetIsListed(repo: Repo, p: Pr, now: Time, s: Snapshot) returns (a: Pr)
    requires Consistent(repo) && Reads(repo, p, now, s) && p in repo.pulls
    ensures Listed(s, a) && a.number == p.number && a.links == p.links
  {
    if p.open {
      a := OpenIsListed(repo, p, p, now, s);
    } else {
      a := p;
      forall i | 0 <= i < |s.openPrs| ensures s.openPrs[i].number != p.number {
        assert s.openPrs[i] in s.openPrs;
        var r :| r in repo.pulls && r.open && s.openPrs[i] == if Whole(repo, p, r) then r else r.(files := []);
        assert r != p;
      }
    }
  }

  /** Two open pull requests that close the same work item both fail. */
  lemma TwoClosersFail(text: TextPolicy, repo: Repo, p: Pr, q: Pr, now: Time)
    requires Consistent(repo) && p in repo.pulls && q in repo.pulls && q.open && q.number != p.number
    requires SnapshotFromEvent(repo, p.number, now).Ok? && Evaluate(text, SnapshotFromEvent(repo, p.number, now).value).Ok?
    requires p.links != [] && p.links[0] in q.links
    ensures ReportOf(SnapshotFromEvent(repo, p.number, now).value, Evaluate(text, SnapshotFromEvent(repo, p.number, now).value).value).state == Fail
  {
    hide SnapshotFromEvent, Listed, Reads, Evaluate, Verdict, OwnInOrder;
    var s := SnapshotFromEvent(repo, p.number, now).value;
    SnapshotIsExact(repo, p, now);
    ReadsItem(repo, p, now, s);
    var a := TargetIsListed(repo, p, now, s);
    var b := OpenIsListed(repo, p, q, now, s);
    assert !SoleCloser(s);
    StateIsVerdict(s, Evaluate(text, s).value);
    if s.target.manifest.Raised? {
      MismatchFails(text, s);
    } else {
      GateFailsIff(text, s);
      OrderIsSole(text, s);
    }
  }

  lemma StateIsVerdict(s: Snapshot, e: Evaluation)
    ensures ReportOf(s, e).state == Verdict(e.raised)
  {
  }

  lemma OrderIsSole(text: TextPolicy, s: Snapshot)
    requires s.target.manifest.Ok? && Evaluate(text, s).Ok?
    ensures OwnInOrder(text, s) ==> SoleCloser(s)
  {
    hide SoleCloser;
  }
}
