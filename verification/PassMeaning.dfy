/** A pass spelled out: every condition that the state `pass` stands for, in
    both directions. */
module PassMeaning {
  import opened Basics
  import opened Reports
  import opened Leases
  import opened Gate
  import opened Exclusion
  import opened GateBasics

  /** The work item and its one pull request name each other. */
  ghost predicate SoleAuthority(m: Manifest, s: Snapshot) {
    && m.workItem == s.workItem.number
    && (forall n :: n in s.target.links ==> n == s.workItem.number)
    && s.workItem.open && s.workItem.labelled && s.workItem.lifecycle in EXECUTABLE
    && s.workItem.currentPr == Some(s.target.number)
    && SoleCloser(s)
  }

  /** A blocker of the work item that is itself an open work item. */
  ghost predicate Blocks(s: Snapshot, n: int) {
    n in s.workItem.blockedBy && exists issue :: issue in s.openIssues && issue.number == n
  }

  /** Nothing blocks, or the pull request is stacked on an open one that closes
      everything that does and whose head is its base. */
  ghost predicate Unblocked(m: Manifest, s: Snapshot) {
    (forall n :: !Blocks(s, n)) || (m.mode == Stacked && m.stackParent.Some? && exists parent :: StandsOn(s, m, parent))
  }

  ghost predicate StandsOn(s: Snapshot, m: Manifest, parent: Pr) {
    && Listed(s, parent) && m.stackParent == Some(parent.number)
    && (forall n :: Blocks(s, n) ==> n in parent.links)
    && s.target.baseRef == parent.headRef
  }

  /** The run of the manifest holds the lease now and held it when the pull
      request was created, and the whole comment history replays cleanly. */
  ghost predicate HoldsLease(m: Manifest, s: Snapshot, book: Book, createdAt: Time)
    requires book.Wf()
  {
    && book.findings == []
    && ActiveLease(book.leases, book.order, s.now).Some?
    && ActiveLease(book.leases, book.order, s.now).value.run == m.run
    && m.run in book.leases && book.leases[m.run].ActiveAt(createdAt)
  }

  ghost predicate Compared(s: Snapshot, pr: Pr) {
    && Listed(s, pr) && pr.number != s.target.number
    && exists issue :: issue in s.openIssues && issue.currentPr == Some(pr.number)
  }

  lemma ComparedIff(s: Snapshot, pr: Pr)
    ensures Compared(s, pr) <==> pr in OpenPrs(s) && pr.number != s.target.number && pr.number in CurrentPrs(s.openIssues)
  {
    hide OpenPrs, CurrentPrs, Listed;
    OpenPrsAre(s);
    CurrentPrsKeys(s.openIssues, pr.number);
  }

  lemma BlocksIff(s: Snapshot)
    ensures forall n :: Blocks(s, n) <==> n in Blockers(s)
    ensures (forall n :: !Blocks(s, n)) <==> Blockers(s) == []
  {
    forall n ensures Blocks(s, n) <==> n in Blockers(s) {
      OpenBlockersAre(s.workItem.blockedBy, IssueNumbers(s.openIssues), n);
    }
    hide Blocks, Blockers;
    if Blockers(s) != [] {
      assert Blockers(s)[0] in Blockers(s) && Blocks(s, Blockers(s)[0]);
    }
  }

  lemma {:induction false} OpenBlockersAre(blockedBy: seq<int>, open: set<int>, n: int)
    ensures n in OpenBlockers(blockedBy, open) <==> n in blockedBy && n in open
  {
    if blockedBy != [] {
      OpenBlockersAre(blockedBy[..|blockedBy| - 1], open, n);
      assert blockedBy == blockedBy[..|blockedBy| - 1] + [blockedBy[|blockedBy| - 1]];
    }
  }

  /** The parent is found among the open pull requests, whose numbers differ. */
  lemma ParentIff(s: Snapshot, number: int, pr: Pr)
    ensures Listed(s, pr) && pr.number == number <==> Find(OpenPrs(s), number) == Some(pr)
  {
    OpenPrsAre(s);
    hide OpenPrs, Listed;
    FindAbsent(OpenPrs(s), number);
    if pr in OpenPrs(s) && pr.number == number {
      FindIsUnique(OpenPrs(s), pr);
    }
  }

  ghost predicate ApartFrom(text: TextPolicy, m: Manifest, paths: seq<string>, pr: Pr) {
    && pr.manifest.Ok? && ChangedFiles(text, pr).Some?
    && Exclusive(text, m, paths, pr.manifest.value, ChangedFiles(text, pr).value)
  }

  ghost predicate PassConditions(text: TextPolicy, s: Snapshot) {
    && s.target.manifest.Ok? && BookOf(s.workItem.comments).Ok? && s.target.createdAt.Some?
    && ChangedFiles(text, s.target).Some?
    && var m, paths := s.target.manifest.value, ChangedFiles(text, s.target).value;
    && SoleAuthority(m, s) && Unblocked(m, s)
    && HoldsLease(m, s, BookOf(s.workItem.comments).value, s.target.createdAt.value)
    && paths != [] && (forall p :: p in paths ==> Declared(p, m.AllPathSpecs()))
    && (forall pr :: Compared(s, pr) ==> ApartFrom(text, m, paths, pr))
  }

  lemma LinksAreOne(links: seq<int>, n: int)
    ensures (links == [] || LinkedItems(links) == {n}) <==> forall l :: l in links ==> l == n
  {
    if links != [] {
      assert links[0] in links;
      if forall l :: l in links ==> l == n {
        assert LinkedItems(links) == {n};
      }
      if LinkedItems(links) == {n} {
        forall l | l in links ensures l == n {
          assert l in LinkedItems(links);
        }
      }
    }
  }

  lemma OwnSilence(m: Manifest, s: Snapshot, book: Book, createdAt: Time, paths: seq<string>)
    requires book.Wf()
    ensures OwnFindings(m, s, book, createdAt, paths) == [] <==>
              SoleAuthority(m, s) && Unblocked(m, s) && HoldsLease(m, s, book, createdAt)
              && forall p :: p in paths ==> Declared(p, m.AllPathSpecs())
  {
    hide ActiveLease, ClosingPrs, OpenPrs, Declared;
    LinksAreOne(s.target.links, s.workItem.number);
    SoleCloserIff(s);
    hide SoleCloser, Unblocked;
    LeaseSilence(m, s, book, createdAt);
    BlockerSilence(m, s);
    assert OwnFindings(m, s, book, createdAt, paths) == [] <==>
           LinkFindings(m, s) == [] && ControlFindings(s) == [] && AuthorityFindings(s) == [] && BlockerFindings(m, s) == []
           && LeaseFindings(m, s, book, createdAt) == [] && PathFindings(m, s, paths) == [] by {
      hide LinkFindings, ControlFindings, AuthorityFindings, BlockerFindings, LeaseFindings, PathFindings;
    }
  }

  lemma LeaseSilence(m: Manifest, s: Snapshot, book: Book, createdAt: Time)
    requires book.Wf()
    ensures LeaseFindings(m, s, book, createdAt) == [] <==> HoldsLease(m, s, book, createdAt)
  {
    hide ActiveLease;
  }

  lemma BlockerSilence(m: Manifest, s: Snapshot)
    ensures BlockerFindings(m, s) == [] <==> Unblocked(m, s)
  {
    hide Find, OpenPrs, Blockers, Blocks, Listed;
    BlocksIff(s);
    if m.stackParent.Some? {
      var number := m.stackParent.value;
      forall pr ensures Listed(s, pr) && pr.number == number <==> Find(OpenPrs(s), number) == Some(pr) {
        ParentIff(s, number, pr);
      }
      if Find(OpenPrs(s), number).Some? {
        var parent := Find(OpenPrs(s), number).value;
        assert StandsOn(s, m, parent) <==>
               (forall n :: n in Blockers(s) ==> n in parent.links) && s.target.baseRef == parent.headRef;
      }
    }
  }

  /** Every compared pull request has a readable manifest. */
  ghost predicate AllReadable(prs: seq<Pr>, target: int, current: map<int, int>) {
    forall pr :: pr in prs && pr.number != target && pr.number in current ==> pr.manifest.Ok?
  }

  /** Gathering is silent exactly when every compared manifest is readable, and
      then it yields each compared pull request with its own manifest. */
  lemma {:induction false} GatherSilence(text: TextPolicy, prs: seq<Pr>, target: int, current: map<int, int>)
    ensures Gather(text, prs, target, current).Ok? && Gather(text, prs, target, current).value.warnings == []
            <==> AllReadable(prs, target, current)
    ensures AllReadable(prs, target, current) ==>
              forall r :: r in Gather(text, prs, target, current).value.rivals ==> r.pr.manifest == Ok(r.manifest)
  {
    hide ChangedFiles, FallbackManifest;
    if prs != [] {
      var front, last := prs[..|prs| - 1], prs[|prs| - 1];
      GatherSilence(text, front, target, current);
      assert prs == front + [last];
      assert AllReadable(prs, target, current) <==>
             AllReadable(front, target, current) && (last.number != target && last.number in current ==> last.manifest.Ok?);
    }
  }

  ghost predicate RivalApart(text: TextPolicy, m: Manifest, paths: seq<string>, r: Rival) {
    ChangedFiles(text, r.pr).Some? && Exclusive(text, m, paths, r.manifest, ChangedFiles(text, r.pr).value)
  }

  lemma {:induction false} PairsSilence(text: TextPolicy, target: int, m: Manifest, paths: seq<string>, rivals: seq<Rival>)
    ensures AllPairs(text, target, m, paths, rivals) == Ok([]) <==>
              forall r :: r in rivals ==> RivalApart(text, m, paths, r)
  {
    hide ChangedFiles, Exclusive, PairFindings;
    if rivals != [] {
      var front, last := rivals[..|rivals| - 1], rivals[|rivals| - 1];
      PairsSilence(text, target, m, paths, front);
      assert rivals == front + [last];
      assert (forall r :: r in rivals ==> RivalApart(text, m, paths, r)) <==>
             (forall r :: r in front ==> RivalApart(text, m, paths, r)) && RivalApart(text, m, paths, last);
      if ChangedFiles(text, last.pr).Some? && AllPairs(text, target, m, paths, front).Ok? {
        var found, more := AllPairs(text, target, m, paths, front).value,
                           PairFindings(text, target, m, paths, last.manifest, ChangedFiles(text, last.pr).value);
        assert found + more == [] <==> found == [] && more == [];
        PairSilenceIsExclusion(text, target, m, paths, last.manifest, ChangedFiles(text, last.pr).value);
      }
    }
  }

  lemma ComparisonSilence(text: TextPolicy, s: Snapshot, m: Manifest, paths: seq<string>)
    ensures (var g := Gather(text, OpenPrs(s), s.target.number, CurrentPrs(s.openIssues));
             g.Ok? && g.value.warnings == [] && AllPairs(text, s.target.number, m, paths, g.value.rivals) == Ok([]))
            <==> forall pr :: Compared(s, pr) ==> ApartFrom(text, m, paths, pr)
  {
    hide Gather, AllPairs, ChangedFiles, Exclusive, OpenPrs, CurrentPrs, Compared;
    forall pr ensures Compared(s, pr) <==> pr in OpenPrs(s) && pr.number != s.target.number && pr.number in CurrentPrs(s.openIssues) {
      ComparedIff(s, pr);
    }
    var prs, current := OpenPrs(s), CurrentPrs(s.openIssues);
    var g := Gather(text, prs, s.target.number, current);
    GatherSilence(text, prs, s.target.number, current);
    if AllReadable(prs, s.target.number, current) {
      PairsSilence(text, s.target.number, m, paths, g.value.rivals);
      forall pr | Compared(s, pr) ensures Rival(pr, pr.manifest.value) in g.value.rivals {
        GatherFinds(text, prs, s.target.number, current, pr);
      }
      forall r | r in g.value.rivals ensures Compared(s, r.pr) && r.pr.manifest == Ok(r.manifest) {
        GatherOnlyFinds(text, prs, s.target.number, current, r);
      }
    } else {
      var pr :| pr in prs && pr.number != s.target.number && pr.number in current && !pr.manifest.Ok?;
      assert Compared(s, pr) && !ApartFrom(text, m, paths, pr);
    }
  }

  lemma ConcatSilence(a: seq<Finding>, b: seq<Finding>, c: seq<Finding>, d: seq<Finding>)
    ensures a + b + c + d == [] <==> a == [] && b == [] && c == [] && d == []
  {
  }

  /** The gate passes a snapshot exactly when all these conditions hold. */
  lemma PassIff(text: TextPolicy, s: Snapshot)
    ensures Passes(text, s) <==> PassConditions(text, s)
  {
    hide OwnFindings, Gather, AllPairs, ChangedFiles, OpenPrs, CurrentPrs, BookOf, Verdict, SoleAuthority, Unblocked,
      HoldsLease, Compared, ApartFrom, Declared;
    if Evaluate(text, s).Ok? {
      CapKeepsVerdict(Evaluate(text, s).value.raised);
    }
    if s.target.manifest.Ok? && BookOf(s.workItem.comments).Ok? && s.target.createdAt.Some? && ChangedFiles(text, s.target).Some? {
      var m, paths := s.target.manifest.value, ChangedFiles(text, s.target).value;
      OwnSilence(m, s, BookOf(s.workItem.comments).value, s.target.createdAt.value, paths);
      ComparisonSilence(text, s, m, paths);
      var g := Gather(text, OpenPrs(s), s.target.number, CurrentPrs(s.openIssues));
      if g.Ok? && AllPairs(text, s.target.number, m, paths, g.value.rivals).Ok? {
        ConcatSilence(OwnFindings(m, s, BookOf(s.workItem.comments).value, s.target.createdAt.value, paths), g.value.warnings,
                      AllPairs(text, s.target.number, m, paths, g.value.rivals).value,
                      When(paths == [], Warning, PullRequestHasNoChangedFiles, PrSubject(s.target.number)));
      }
    }
  }
}
