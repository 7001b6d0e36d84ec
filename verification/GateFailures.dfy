/** When the gate fails, exactly, once the cap on findings is taken into
    account, and the conflicts that the cap hides. */
module GateFailures {
  import opened Reports
  import opened Leases
  import opened Gate
  import opened PassMeaning

  ghost predicate All(findings: seq<Finding>, severity: Severity) {
    forall i :: 0 <= i < |findings| ==> findings[i].severity == severity
  }

  // ----- Which groups are errors and which are warnings -----

  lemma AllJoin(a: seq<Finding>, b: seq<Finding>, severity: Severity)
    requires All(a, severity) && All(b, severity)
    ensures All(a + b, severity)
  {
  }

  lemma StepRaisesErrors(b: Book, e: Event)
    requires b.Wf() && All(b.findings, Error)
    ensures All(Step(b, e).findings, Error)
  {
  }

  lemma {:induction false} ReplayRaisesErrors(events: seq<Event>)
    ensures All(Replay(events).findings, Error)
  {
    hide Step;
    if events != [] {
      ReplayRaisesErrors(events[..|events| - 1]);
      StepRaisesErrors(Replay(events[..|events| - 1]), events[|events| - 1]);
    }
  }

  lemma LeaseFindingsAreErrors(m: Manifest, s: Snapshot, book: Book, createdAt: Time)
    requires book.Wf() && All(book.findings, Error)
    ensures All(LeaseFindings(m, s, book, createdAt), Error)
  {
    hide ActiveLease;
  }

  lemma BlockerFindingsAreErrors(m: Manifest, s: Snapshot)
    ensures All(BlockerFindings(m, s), Error)
  {
    hide OpenPrs, Blockers, Find;
  }

  lemma PlainFindingsAreErrors(m: Manifest, s: Snapshot, paths: seq<string>)
    ensures All(LinkFindings(m, s), Error) && All(ControlFindings(s), Error)
    ensures All(AuthorityFindings(s), Error) && All(PathFindings(m, s, paths), Error)
  {
    hide OpenPrs, ClosingPrs, Declared, LinkedItems;
  }

  lemma OwnFindingsAreErrors(m: Manifest, s: Snapshot, comments: seq<Comment>, createdAt: Time, paths: seq<string>)
    requires BookOf(comments).Ok?
    ensures All(OwnFindings(m, s, BookOf(comments).value, createdAt, paths), Error)
  {
    hide All, LinkFindings, ControlFindings, AuthorityFindings, PathFindings, LeaseFindings, BlockerFindings;
    var book := BookOf(comments).value;
    ReplayRaisesErrors(SortByTime(Events(comments).value));
    LeaseFindingsAreErrors(m, s, book, createdAt);
    BlockerFindingsAreErrors(m, s);
    var links, control, authority, path := LinkFindings(m, s), ControlFindings(s), AuthorityFindings(s), PathFindings(m, s, paths);
    PlainFindingsAreErrors(m, s, paths);
    AllJoin(links, control, Error);
    AllJoin(links + control, authority, Error);
    AllJoin(links + control + authority, BlockerFindings(m, s), Error);
    AllJoin(links + control + authority + BlockerFindings(m, s), LeaseFindings(m, s, book, createdAt), Error);
    AllJoin(links + control + authority + BlockerFindings(m, s) + LeaseFindings(m, s, book, createdAt), path, Error);
  }

  lemma {:induction false} ResourceFindingsAreErrors(text: TextPolicy, target: int, claims: seq<Claimed>)
    ensures All(ResourceFindings(text, target, claims), Error)
  {
    hide ResourceIntersection;
    if claims != [] {
      ResourceFindingsAreErrors(text, target, claims[..|claims| - 1]);
    }
  }

  lemma {:induction false} PairFindingsAreErrors(text: TextPolicy, target: int, m: Manifest, paths: seq<string>, rivals: seq<Rival>)
    requires AllPairs(text, target, m, paths, rivals).Ok?
    ensures All(AllPairs(text, target, m, paths, rivals).value, Error)
  {
    hide ChangedFiles, ResourceIntersection, PathConflict, TouchesMigrations, ResourceFindings;
    if rivals != [] {
      var rival := rivals[|rivals| - 1];
      PairFindingsAreErrors(text, target, m, paths, rivals[..|rivals| - 1]);
      ResourceFindingsAreErrors(text, target, ExclusiveResources(m, rival.manifest));
    }
  }

  /** The compared pull requests whose manifest cannot be read. */
  function UnreadableRivals(prs: seq<Pr>, target: int, current: map<int, int>): seq<Pr> {
    if prs == [] then []
    else
      var front, pr := UnreadableRivals(prs[..|prs| - 1], target, current), prs[|prs| - 1];
      if pr.number != target && pr.number in current && pr.manifest.Raised? then front + [pr] else front
  }

  lemma {:induction false} GatherWarnsOfUnreadable(text: TextPolicy, prs: seq<Pr>, target: int, current: map<int, int>)
    requires Gather(text, prs, target, current).Ok?
    ensures All(Gather(text, prs, target, current).value.warnings, Warning)
    ensures |Gather(text, prs, target, current).value.warnings| == |UnreadableRivals(prs, target, current)|
  {
    hide ChangedFiles, FallbackManifest;
    if prs != [] {
      GatherWarnsOfUnreadable(text, prs[..|prs| - 1], target, current);
    }
  }

  // ----- The verdict -----

  /** Errors, then warnings, then errors, then warnings: the first group always
      decides, the third only while the second leaves room for it. */
  lemma LayeredVerdict(own: seq<Finding>, warned: seq<Finding>, pairs: seq<Finding>, tail: seq<Finding>)
    requires All(own, Error) && All(warned, Warning) && All(pairs, Error) && All(tail, Warning)
    ensures var raised := own + warned + pairs + tail;
            && (Verdict(raised) == Fail <==> own != [] || (pairs != [] && |warned| < MAX_FINDINGS))
            && (HasSeverity(raised, Error) <==> own != [] || pairs != [])
  {
    var raised := own + warned + pairs + tail;
    CapHidesExactlyLateErrors(raised);
    if own != [] {
      assert raised[0] == own[0];
    } else if pairs != [] {
      assert raised[|warned|] == pairs[0];
    }
    forall i | 0 <= i < |raised| && raised[i].severity == Error ensures own != [] || (pairs != [] && i >= |warned|) {
    }
  }

  ghost predicate OwnInOrder(text: TextPolicy, s: Snapshot)
    requires s.target.manifest.Ok? && Evaluate(text, s).Ok?
  {
    var m, paths := s.target.manifest.value, ChangedFiles(text, s.target).value;
    && SoleAuthority(m, s) && Unblocked(m, s)
    && HoldsLease(m, s, BookOf(s.workItem.comments).value, s.target.createdAt.value)
    && (forall p :: p in paths ==> Declared(p, m.AllPathSpecs()))
  }

  ghost predicate Conflicts(text: TextPolicy, s: Snapshot)
    requires s.target.manifest.Ok? && Evaluate(text, s).Ok?
  {
    var m, paths := s.target.manifest.value, ChangedFiles(text, s.target).value;
    exists r :: r in Gather(text, OpenPrs(s), s.target.number, CurrentPrs(s.openIssues)).value.rivals && !RivalApart(text, m, paths, r)
  }

  function UnreadableIn(s: Snapshot): nat {
    |UnreadableRivals(OpenPrs(s), s.target.number, CurrentPrs(s.openIssues))|
  }

  /** A readable pull request fails exactly when its own checks do, or when it
      conflicts with a rival and fewer than 50 rivals are unreadable. An error
      is raised but not seen in the verdict exactly when a conflict meets 50
      unreadable rivals or more and everything else is in order. */
  lemma GateFailsIff(text: TextPolicy, s: Snapshot)
    requires s.target.manifest.Ok? && Evaluate(text, s).Ok?
    ensures Verdict(Evaluate(text, s).value.raised) == Fail <==>
            !OwnInOrder(text, s) || (Conflicts(text, s) && UnreadableIn(s) < MAX_FINDINGS)
    ensures HasSeverity(Evaluate(text, s).value.raised, Error) && Verdict(Evaluate(text, s).value.raised) != Fail <==>
            OwnInOrder(text, s) && Conflicts(text, s) && UnreadableIn(s) >= MAX_FINDINGS
  {
    hide OwnFindings, Gather, AllPairs, ChangedFiles, OpenPrs, CurrentPrs, BookOf, Verdict, SoleAuthority, Unblocked,
      HoldsLease, Declared, UnreadableRivals, HasSeverity, RivalApart;
    var m, paths, createdAt := s.target.manifest.value, ChangedFiles(text, s.target).value, s.target.createdAt.value;
    var book := BookOf(s.workItem.comments).value;
    OwnSilence(m, s, book, createdAt, paths);
    OwnFindingsAreErrors(m, s, s.workItem.comments, createdAt, paths);
    var g := Gather(text, OpenPrs(s), s.target.number, CurrentPrs(s.openIssues)).value;
    GatherWarnsOfUnreadable(text, OpenPrs(s), s.target.number, CurrentPrs(s.openIssues));
    PairFindingsAreErrors(text, s.target.number, m, paths, g.rivals);
    PairsSilence(text, s.target.number, m, paths, g.rivals);
    LayeredVerdict(OwnFindings(m, s, book, createdAt, paths), g.warnings, AllPairs(text, s.target.number, m, paths, g.rivals).value,
                   When(paths == [], Warning, PullRequestHasNoChangedFiles, PrSubject(s.target.number)));
  }
}
