/** Which reason codes an evaluation raises, code by code. */
module ReasonCodes {
  import opened Basics
  import opened Reports
  import opened Leases
  import opened LeaseLock
  import opened LeaseMeaning
  import opened Paths
  import opened Gate
  import opened Exclusion
  import opened GateBasics
  import opened PassMeaning
  import opened GateFailures

  ghost predicate Raises(findings: seq<Finding>, code: Code) {
    exists i :: 0 <= i < |findings| && findings[i].code == code
  }

  lemma RaisesJoin(a: seq<Finding>, b: seq<Finding>, code: Code)
    ensures Raises(a + b, code) <==> Raises(a, code) || Raises(b, code)
  {
    if i :| 0 <= i < |a| && a[i].code == code {
      assert (a + b)[i].code == code;
    }
    if i :| 0 <= i < |b| && b[i].code == code {
      assert (a + b)[|a| + i].code == code;
    }
  }

  lemma RaisesWhen(condition: bool, severity: Severity, raised: Code, subject: Subject, code: Code)
    ensures Raises(When(condition, severity, raised, subject), code) <==> condition && code == raised
  {
    if condition {
      assert When(condition, severity, raised, subject)[0].code == raised;
    }
  }

  // ----- The checks of the pull request alone -----

  ghost predicate IsBlocked(s: Snapshot) {
    exists n :: Blocks(s, n)
  }

  ghost predicate OnStack(m: Manifest) {
    m.mode == Stacked && m.stackParent.Some?
  }

  ghost predicate IsParent(s: Snapshot, m: Manifest, parent: Pr) {
    Listed(s, parent) && m.stackParent == Some(parent.number)
  }

  ghost predicate LinkReason(m: Manifest, s: Snapshot, code: Code) {
    || (code == ManifestWorkItemMismatch && m.workItem != s.workItem.number)
    || (code == PrLinksMultipleWorkItems && exists n :: n in s.target.links && n != s.workItem.number)
  }

  ghost predicate ControlReason(s: Snapshot, code: Code) {
    || (code == WorkItemNotOpen && !s.workItem.open)
    || (code == WorkItemLabelMissing && !s.workItem.labelled)
    || (code == WorkItemNotExecutable && s.workItem.lifecycle !in {"ready", "in progress", "in review", "release gate"})
  }

  ghost predicate AuthorityReason(s: Snapshot, code: Code) {
    || (code == DuplicateOrMissingWorkItemPr && !SoleCloser(s))
    || (code == CurrentPrMismatch && s.workItem.currentPr != Some(s.target.number))
  }

  ghost predicate BlockerReason(m: Manifest, s: Snapshot, code: Code) {
    match code
    case UnmetBlockers => IsBlocked(s) && !OnStack(m)
    case StackParentPrNotOpen => IsBlocked(s) && OnStack(m) && forall parent :: !IsParent(s, m, parent)
    case StackParentDoesNotCoverBlockers =>
      OnStack(m) && exists parent, n :: IsParent(s, m, parent) && Blocks(s, n) && n !in parent.links
    case StackBaseMismatch =>
      IsBlocked(s) && OnStack(m) && exists parent :: IsParent(s, m, parent) && parent.headRef != s.target.baseRef
    case _ => false
  }

  ghost predicate LeaseReason(m: Manifest, s: Snapshot, book: Book, createdAt: Time, code: Code)
    requires book.Wf()
  {
    || Raises(book.findings, code)
    || (code == ActiveClaimMissingOrExpired && ActiveLease(book.leases, book.order, s.now).None?)
    || (code == AgentRunNotActiveClaim && ActiveLease(book.leases, book.order, s.now).Some?
        && ActiveLease(book.leases, book.order, s.now).value.run != m.run)
    || (code == ClaimNotValidAtPrCreation && (m.run !in book.leases || !book.leases[m.run].ActiveAt(createdAt)))
  }

  /** The reason for each code of the pull request's own checks; the codes of the
      lease history are those that the replay of its comments raised. */
  ghost predicate OwnReason(m: Manifest, s: Snapshot, book: Book, createdAt: Time, paths: seq<string>, code: Code)
    requires book.Wf()
  {
    || LinkReason(m, s, code) || ControlReason(s, code) || AuthorityReason(s, code) || BlockerReason(m, s, code)
    || LeaseReason(m, s, book, createdAt, code)
    || (code == ActualPathNotDeclared && exists p :: p in paths && !Declared(p, m.AllPathSpecs()))
  }

  lemma LinkReasons(m: Manifest, s: Snapshot, code: Code)
    ensures Raises(LinkFindings(m, s), code) <==> LinkReason(m, s, code)
  {
    var pr := PrSubject(s.target.number);
    LinksAreOne(s.target.links, s.workItem.number);
    RaisesWhen(m.workItem != s.workItem.number, Error, ManifestWorkItemMismatch, pr, code);
    RaisesWhen(s.target.links != [] && LinkedItems(s.target.links) != {s.workItem.number}, Error, PrLinksMultipleWorkItems, pr, code);
    RaisesJoin(When(m.workItem != s.workItem.number, Error, ManifestWorkItemMismatch, pr),
               When(s.target.links != [] && LinkedItems(s.target.links) != {s.workItem.number}, Error, PrLinksMultipleWorkItems, pr), code);
    hide Raises, When, LinkedItems;
  }

  lemma ControlReasons(s: Snapshot, code: Code)
    ensures Raises(ControlFindings(s), code) <==> ControlReason(s, code)
  {
    hide Raises, When;
    var issue := IssueSubject(s.workItem.number);
    var a := When(!s.workItem.open, Error, WorkItemNotOpen, issue);
    var b := When(!s.workItem.labelled, Error, WorkItemLabelMissing, issue);
    var c := When(s.workItem.lifecycle !in EXECUTABLE, Error, WorkItemNotExecutable, issue);
    RaisesWhen(!s.workItem.open, Error, WorkItemNotOpen, issue, code);
    RaisesWhen(!s.workItem.labelled, Error, WorkItemLabelMissing, issue, code);
    RaisesWhen(s.workItem.lifecycle !in EXECUTABLE, Error, WorkItemNotExecutable, issue, code);
    RaisesJoin(a, b, code);
    RaisesJoin(a + b, c, code);
  }

  lemma AuthorityReasons(s: Snapshot, code: Code)
    ensures Raises(AuthorityFindings(s), code) <==> AuthorityReason(s, code)
  {
    hide Raises, When, OpenPrs, ClosingPrs, SoleCloser;
    SoleCloserIff(s);
    var issue := IssueSubject(s.workItem.number);
    var lone, other := |ClosingPrs(OpenPrs(s), s.workItem.number)| != 1, s.workItem.currentPr != Some(s.target.number);
    RaisesWhen(lone, Error, DuplicateOrMissingWorkItemPr, issue, code);
    RaisesWhen(other, Error, CurrentPrMismatch, issue, code);
    RaisesJoin(When(lone, Error, DuplicateOrMissingWorkItemPr, issue), When(other, Error, CurrentPrMismatch, issue), code);
  }

  lemma RaisesOne(f: Finding, code: Code)
    ensures Raises([f], code) <==> f.code == code
    ensures !Raises([], code)
  {
    assert [f][0] == f;
  }

  /** The checks of a stack, once its parent is found. */
  lemma StackReasons(m: Manifest, s: Snapshot, parent: Pr, code: Code)
    requires OnStack(m) && Blockers(s) != [] && Find(OpenPrs(s), m.stackParent.value) == Some(parent)
    ensures Raises(BlockerFindings(m, s), code) <==>
            || (code == StackParentDoesNotCoverBlockers && exists n :: n in Blockers(s) && n !in parent.links)
            || (code == StackBaseMismatch && s.target.baseRef != parent.headRef)
  {
    hide Raises, When, OpenPrs, Blockers, Find;
    var pr, bare, base := PrSubject(s.target.number), exists n :: n in Blockers(s) && n !in parent.links, s.target.baseRef != parent.headRef;
    RaisesWhen(bare, Error, StackParentDoesNotCoverBlockers, pr, code);
    RaisesWhen(base, Error, StackBaseMismatch, pr, code);
    RaisesJoin(When(bare, Error, StackParentDoesNotCoverBlockers, pr), When(base, Error, StackBaseMismatch, pr), code);
  }

  lemma LoneReasons(m: Manifest, s: Snapshot, code: Code)
    requires Blockers(s) == [] || !OnStack(m) || Find(OpenPrs(s), m.stackParent.value).None?
    ensures Raises(BlockerFindings(m, s), code) <==>
            Blockers(s) != [] && code == if OnStack(m) then StackParentPrNotOpen else UnmetBlockers
  {
    hide Raises, OpenPrs, Blockers, Find;
    RaisesOne(Finding(Error, UnmetBlockers, IssueSubject(s.workItem.number)), code);
    RaisesOne(Finding(Error, StackParentPrNotOpen, PrSubject(s.target.number)), code);
  }

  lemma BlockerReasons(m: Manifest, s: Snapshot, code: Code)
    ensures Raises(BlockerFindings(m, s), code) <==> BlockerReason(m, s, code)
  {
    hide Raises, OpenPrs, Blockers, Blocks, Listed, Find, BlockerFindings;
    BlocksIff(s);
    if OnStack(m) {
      var number := m.stackParent.value;
      forall q ensures IsParent(s, m, q) <==> Find(OpenPrs(s), number) == Some(q) {
        ParentIff(s, number, q);
      }
      hide IsParent;
      if Blockers(s) != [] && Find(OpenPrs(s), number).Some? {
        StackReasons(m, s, Find(OpenPrs(s), number).value, code);
      } else {
        LoneReasons(m, s, code);
      }
    } else {
      LoneReasons(m, s, code);
    }
  }

  lemma LeaseReasons(m: Manifest, s: Snapshot, book: Book, createdAt: Time, code: Code)
    requires book.Wf()
    ensures Raises(LeaseFindings(m, s, book, createdAt), code) <==> LeaseReason(m, s, book, createdAt, code)
  {
    hide Raises, When, ActiveLease;
    var pr, issue := PrSubject(s.target.number), IssueSubject(s.workItem.number);
    var active := ActiveLease(book.leases, book.order, s.now);
    var other, late := active.Some? && active.value.run != m.run, m.run !in book.leases || !book.leases[m.run].ActiveAt(createdAt);
    var a := When(active.None?, Error, ActiveClaimMissingOrExpired, issue);
    var b := When(other, Error, AgentRunNotActiveClaim, pr);
    var c := When(late, Error, ClaimNotValidAtPrCreation, pr);
    RaisesWhen(active.None?, Error, ActiveClaimMissingOrExpired, issue, code);
    RaisesWhen(other, Error, AgentRunNotActiveClaim, pr, code);
    RaisesWhen(late, Error, ClaimNotValidAtPrCreation, pr, code);
    RaisesJoin(book.findings, a, code);
    RaisesJoin(book.findings + a, b, code);
    RaisesJoin(book.findings + a + b, c, code);
  }

  predicate LeaseCode(code: Code) {
    code in {OverlappingActiveClaim, ReclaimBeforeReleaseOrExpiry, LeaseEventWithoutClaim, HeartbeatAfterRelease, HeartbeatAfterLeaseExpiry}
  }

  lemma StepAddsLeaseCode(b: Book, e: Event)
    requires b.Wf()
    ensures Step(b, e).findings == b.findings
            || exists c :: LeaseCode(c) && Step(b, e).findings == b.findings + [Finding(Error, c, RunSubject(e.run))]
  {
    StepTable(b, e);
    hide Step, Applied;
    assert LeaseCode(OverlappingActiveClaim) && LeaseCode(ReclaimBeforeReleaseOrExpiry) && LeaseCode(LeaseEventWithoutClaim)
        && LeaseCode(HeartbeatAfterRelease) && LeaseCode(HeartbeatAfterLeaseExpiry);
    assert Applied(b, e, Step(b, e)) ==> Step(b, e).findings == b.findings by { AppliedRaisesNothing(b, e, Step(b, e)); }
  }

  lemma AppliedRaisesNothing(b: Book, e: Event, b': Book)
    ensures Applied(b, e, b') ==> b'.findings == b.findings
  {
  }

  lemma StepRaisesLeaseCodes(b: Book, e: Event, code: Code)
    requires b.Wf() && (Raises(b.findings, code) ==> LeaseCode(code))
    ensures Raises(Step(b, e).findings, code) ==> LeaseCode(code)
  {
    hide Step, Raises, LeaseCode;
    StepAddsLeaseCode(b, e);
    if Step(b, e).findings != b.findings {
      var c :| LeaseCode(c) && Step(b, e).findings == b.findings + [Finding(Error, c, RunSubject(e.run))];
      RaisesJoin(b.findings, [Finding(Error, c, RunSubject(e.run))], code);
      RaisesOne(Finding(Error, c, RunSubject(e.run)), code);
    }
  }

  /** The lease history raises its own codes only. */
  lemma {:induction false} ReplayRaisesLeaseCodes(events: seq<Event>, code: Code)
    ensures Raises(Replay(events).findings, code) ==> LeaseCode(code)
  {
    hide Step;
    if events != [] {
      ReplayRaisesLeaseCodes(events[..|events| - 1], code);
      StepRaisesLeaseCodes(Replay(events[..|events| - 1]), events[|events| - 1], code);
    }
  }

  lemma OwnReasons(m: Manifest, s: Snapshot, book: Book, createdAt: Time, paths: seq<string>, code: Code)
    requires book.Wf()
    ensures Raises(OwnFindings(m, s, book, createdAt, paths), code) <==> OwnReason(m, s, book, createdAt, paths, code)
  {
    hide Raises, When, Declared, LinkFindings, ControlFindings, AuthorityFindings, BlockerFindings, LeaseFindings, LinkReason,
      ControlReason, AuthorityReason, BlockerReason, LeaseReason;
    var a, b, c, d := LinkFindings(m, s), ControlFindings(s), AuthorityFindings(s), BlockerFindings(m, s);
    var e, f := LeaseFindings(m, s, book, createdAt), PathFindings(m, s, paths);
    LinkReasons(m, s, code);
    ControlReasons(s, code);
    AuthorityReasons(s, code);
    BlockerReasons(m, s, code);
    LeaseReasons(m, s, book, createdAt, code);
    RaisesWhen(exists p :: p in paths && !Declared(p, m.AllPathSpecs()), Error, ActualPathNotDeclared, PrSubject(s.target.number), code);
    RaisesJoin(a, b, code);
    RaisesJoin(a + b, c, code);
    RaisesJoin(a + b + c, d, code);
    RaisesJoin(a + b + c + d, e, code);
    RaisesJoin(a + b + c + d + e, f, code);
  }

  // ----- The comparison with one rival -----

  ghost predicate PathReason(m: Manifest, paths: seq<string>, other: Manifest, otherPaths: seq<string>) {
    || (exists p :: p in paths && p in otherPaths)
    || (exists l, r :: l in m.AllPathSpecs() && r in other.AllPathSpecs() && PathSpecsOverlap(l, r))
  }

  ghost predicate ResourceReason(text: TextPolicy, m: Manifest, other: Manifest, code: Code) {
    || (code == ContractOwnershipConflict && !NoShared(text, m.contracts, other.contracts))
    || (code == DatabaseOwnershipConflict && !NoShared(text, m.database, other.database))
    || (code == GeneratedFileConflict && !NoShared(text, m.generatedFiles, other.generatedFiles))
    || (code == WorkflowConflict && !NoShared(text, m.workflows, other.workflows))
  }

  ghost predicate MigrationReason(text: TextPolicy, m: Manifest, paths: seq<string>, other: Manifest, otherPaths: seq<string>, code: Code) {
    && TouchesMigrations(paths) && TouchesMigrations(otherPaths)
    && if NoShared(text, m.migrations, other.migrations)
       then code == MigrationOwnershipAmbiguous && (m.migrations == [] || other.migrations == [])
       else code == MigrationDownRevisionConflict
  }

  ghost predicate PairReason(text: TextPolicy, m: Manifest, paths: seq<string>, other: Manifest, otherPaths: seq<string>, code: Code) {
    || (code == ExclusiveWritePathConflict && PathReason(m, paths, other, otherPaths))
    || ResourceReason(text, m, other, code)
    || MigrationReason(text, m, paths, other, otherPaths, code)
  }

  lemma {:induction false} ResourceReasons(text: TextPolicy, target: int, claims: seq<Claimed>, code: Code)
    ensures Raises(ResourceFindings(text, target, claims), code) <==>
            exists i :: 0 <= i < |claims| && claims[i].code == code && !NoShared(text, claims[i].left, claims[i].right)
  {
    hide Raises, When, NoShared, ResourceIntersection;
    if claims == [] {
      RaisesOne(Finding(Error, code, WholeReport), code);
    } else {
      var front, c := claims[..|claims| - 1], claims[|claims| - 1];
      ResourceReasons(text, target, front, code);
      EmptyIntersection(text, c.left, c.right);
      RaisesWhen(ResourceIntersection(text, c.left, c.right) != {}, Error, c.code, PrSubject(target), code);
      RaisesJoin(ResourceFindings(text, target, front),
                 When(ResourceIntersection(text, c.left, c.right) != {}, Error, c.code, PrSubject(target)), code);
      assert claims == front + [c];
    }
  }

  lemma ExclusiveReasons(text: TextPolicy, target: int, m: Manifest, other: Manifest, code: Code)
    ensures Raises(ResourceFindings(text, target, ExclusiveResources(m, other)), code) <==> ResourceReason(text, m, other, code)
  {
    hide Raises, NoShared, ResourceFindings;
    var claims := ExclusiveResources(m, other);
    ResourceReasons(text, target, claims, code);
    assert claims[0] == Claimed(ContractOwnershipConflict, m.contracts, other.contracts)
        && claims[1] == Claimed(DatabaseOwnershipConflict, m.database, other.database)
        && claims[2] == Claimed(GeneratedFileConflict, m.generatedFiles, other.generatedFiles)
        && claims[3] == Claimed(WorkflowConflict, m.workflows, other.workflows) && |claims| == 4;
  }

  function MigrationFindings(text: TextPolicy, target: int, m: Manifest, paths: seq<string>, other: Manifest, otherPaths: seq<string>): seq<Finding> {
    if !(TouchesMigrations(paths) && TouchesMigrations(otherPaths)) then []
    else if ResourceIntersection(text, m.migrations, other.migrations) != {} then
      [Finding(Error, MigrationDownRevisionConflict, PrSubject(target))]
    else When(m.migrations == [] || other.migrations == [], Error, MigrationOwnershipAmbiguous, PrSubject(target))
  }

  lemma MigrationReasons(text: TextPolicy, target: int, m: Manifest, paths: seq<string>, other: Manifest, otherPaths: seq<string>, code: Code)
    ensures Raises(MigrationFindings(text, target, m, paths, other, otherPaths), code) <==>
            MigrationReason(text, m, paths, other, otherPaths, code)
  {
    hide Raises, When, NoShared, ResourceIntersection, TouchesMigrations;
    EmptyIntersection(text, m.migrations, other.migrations);
    RaisesWhen(m.migrations == [] || other.migrations == [], Error, MigrationOwnershipAmbiguous, PrSubject(target), code);
    RaisesOne(Finding(Error, MigrationDownRevisionConflict, PrSubject(target)), code);
  }

  lemma PairReasons(text: TextPolicy, target: int, m: Manifest, paths: seq<string>, other: Manifest, otherPaths: seq<string>, code: Code)
    ensures Raises(PairFindings(text, target, m, paths, other, otherPaths), code) <==> PairReason(text, m, paths, other, otherPaths, code)
  {
    ExclusiveReasons(text, target, m, other, code);
    MigrationReasons(text, target, m, paths, other, otherPaths, code);
    hide Raises, When, NoShared, ResourceIntersection, PathSpecsOverlap, ResourceFindings, TouchesMigrations, ResourceReason, MigrationReason;
    var path := PathConflict(m, paths, other, otherPaths);
    RaisesWhen(path, Error, ExclusiveWritePathConflict, PrSubject(target), code);
    var a := When(path, Error, ExclusiveWritePathConflict, PrSubject(target));
    var b := ResourceFindings(text, target, ExclusiveResources(m, other));
    RaisesJoin(a, b, code);
    RaisesJoin(a + b, MigrationFindings(text, target, m, paths, other, otherPaths), code);
  }

  lemma {:induction false} AllPairReasons(text: TextPolicy, target: int, m: Manifest, paths: seq<string>, rivals: seq<Rival>, code: Code)
    requires AllPairs(text, target, m, paths, rivals).Ok?
    ensures Raises(AllPairs(text, target, m, paths, rivals).value, code) <==>
            exists r :: r in rivals && ChangedFiles(text, r.pr).Some?
                        && PairReason(text, m, paths, r.manifest, ChangedFiles(text, r.pr).value, code)
  {
    hide Raises, PairReason, PairFindings, ChangedFiles;
    if rivals == [] {
      RaisesOne(Finding(Error, code, WholeReport), code);
    } else {
      var front, r := rivals[..|rivals| - 1], rivals[|rivals| - 1];
      AllPairReasons(text, target, m, paths, front, code);
      var otherPaths := ChangedFiles(text, r.pr).value;
      PairReasons(text, target, m, paths, r.manifest, otherPaths, code);
      RaisesJoin(AllPairs(text, target, m, paths, front).value, PairFindings(text, target, m, paths, r.manifest, otherPaths), code);
      assert rivals == front + [r];
    }
  }

  // ----- The whole evaluation -----

  lemma {:induction false} GatherReasons(text: TextPolicy, prs: seq<Pr>, target: int, current: map<int, int>, code: Code)
    requires Gather(text, prs, target, current).Ok?
    ensures Raises(Gather(text, prs, target, current).value.warnings, code) <==>
            code == CurrentPrManifestUnparseable && UnreadableRivals(prs, target, current) != []
  {
    hide ChangedFiles, FallbackManifest, Raises;
    if prs == [] {
      RaisesOne(Finding(Error, code, WholeReport), code);
    } else {
      var front, pr := prs[..|prs| - 1], prs[|prs| - 1];
      GatherReasons(text, front, target, current, code);
      RaisesOne(Finding(Warning, CurrentPrManifestUnparseable, PrSubject(pr.number)), code);
      RaisesJoin(Gather(text, front, target, current).value.warnings,
                 [Finding(Warning, CurrentPrManifestUnparseable, PrSubject(pr.number))], code);
    }
  }

  /** For a readable pull request, each code is raised exactly for its reason. */
  lemma EvaluationReasons(text: TextPolicy, s: Snapshot, code: Code)
    requires s.target.manifest.Ok? && Evaluate(text, s).Ok?
    ensures var m, paths := s.target.manifest.value, ChangedFiles(text, s.target).value;
            Raises(Evaluate(text, s).value.raised, code) <==>
            || OwnReason(m, s, BookOf(s.workItem.comments).value, s.target.createdAt.value, paths, code)
            || (code == CurrentPrManifestUnparseable && UnreadableIn(s) > 0)
            || (exists r :: r in Gather(text, OpenPrs(s), s.target.number, CurrentPrs(s.openIssues)).value.rivals
                            && ChangedFiles(text, r.pr).Some?
                            && PairReason(text, m, paths, r.manifest, ChangedFiles(text, r.pr).value, code))
            || (code == PullRequestHasNoChangedFiles && paths == [])
  {
    hide Raises, OwnReason, PairReason, OwnFindings, Gather, AllPairs, ChangedFiles, OpenPrs, CurrentPrs, BookOf, When, UnreadableRivals;
    var m, paths, createdAt := s.target.manifest.value, ChangedFiles(text, s.target).value, s.target.createdAt.value;
    var g := Gather(text, OpenPrs(s), s.target.number, CurrentPrs(s.openIssues)).value;
    var own, pairs := OwnFindings(m, s, BookOf(s.workItem.comments).value, createdAt, paths),
                      AllPairs(text, s.target.number, m, paths, g.rivals).value;
    var tail := When(paths == [], Warning, PullRequestHasNoChangedFiles, PrSubject(s.target.number));
    OwnReasons(m, s, BookOf(s.workItem.comments).value, createdAt, paths, code);
    GatherReasons(text, OpenPrs(s), s.target.number, CurrentPrs(s.openIssues), code);
    AllPairReasons(text, s.target.number, m, paths, g.rivals, code);
    RaisesWhen(paths == [], Warning, PullRequestHasNoChangedFiles, PrSubject(s.target.number), code);
    RaisesJoin(own, g.warnings, code);
    RaisesJoin(own + g.warnings, pairs, code);
    RaisesJoin(own + g.warnings + pairs, tail, code);
  }

  function AddedRival(text: TextPolicy, pr: Pr, target: int, current: map<int, int>): Option<Rival> {
    if pr.number == target || pr.number !in current then None
    else
      match pr.manifest
      case Ok(m) => Some(Rival(pr, m))
      case Raised(_) =>
        if ChangedFiles(text, pr).None? then None
        else Some(Rival(pr, FallbackManifest(current[pr.number], ChangedFiles(text, pr).value)))
  }

  lemma GatherStep(text: TextPolicy, prs: seq<Pr>, target: int, current: map<int, int>)
    requires prs != [] && Gather(text, prs, target, current).Ok?
    ensures Gather(text, prs[..|prs| - 1], target, current).Ok?
    ensures var front, added := Gather(text, prs[..|prs| - 1], target, current).value.rivals, AddedRival(text, prs[|prs| - 1], target, current);
            Gather(text, prs, target, current).value.rivals == front + if added.Some? then [added.value] else []
  {
    hide ChangedFiles, FallbackManifest;
  }

  lemma AddedIsRival(text: TextPolicy, pr: Pr, target: int, current: map<int, int>, r: Rival)
    ensures AddedRival(text, pr, target, current) == Some(r) <==> r.pr == pr && IsRival(text, target, current, r)
  {
    hide ChangedFiles, FallbackManifest, StandsIn;
    if ChangedFiles(text, pr).Some? && pr.number in current {
      StandInIs(current[pr.number], ChangedFiles(text, pr).value, r.manifest);
    }
  }

  /** Who is compared, and with which manifest: its own, or one that owns its
      changed files and the generated ones among them. */
  lemma {:induction false} RivalsAre(text: TextPolicy, prs: seq<Pr>, target: int, current: map<int, int>, r: Rival)
    requires Gather(text, prs, target, current).Ok?
    ensures r in Gather(text, prs, target, current).value.rivals <==> r.pr in prs && IsRival(text, target, current, r)
  {
    if prs != [] {
      hide IsRival, AddedRival, Gather;
      var front, last := prs[..|prs| - 1], prs[|prs| - 1];
      GatherStep(text, prs, target, current);
      AddedIsRival(text, last, target, current, r);
      RivalsAre(text, front, target, current, r);
      assert prs == front + [last];
    }
  }

  ghost predicate IsRival(text: TextPolicy, target: int, current: map<int, int>, r: Rival) {
    && r.pr.number != target && r.pr.number in current
    && match r.pr.manifest
       case Ok(m) => r.manifest == m
       case Raised(_) => ChangedFiles(text, r.pr).Some? && StandsIn(r.manifest, current[r.pr.number], ChangedFiles(text, r.pr).value)
  }

  /** Apart from the target everybody is compared or counted as historical. */
  lemma {:induction false} RivalsAreCounted(text: TextPolicy, prs: seq<Pr>, target: int, current: map<int, int>)
    requires Gather(text, prs, target, current).Ok?
    ensures Gather(text, prs, target, current).value.ignored + |Gather(text, prs, target, current).value.rivals|
            == |prs| - Targets(prs, target)
  {
    hide ChangedFiles, FallbackManifest;
    if prs != [] {
      RivalsAreCounted(text, prs[..|prs| - 1], target, current);
    }
  }

  function Targets(prs: seq<Pr>, target: int): nat {
    if prs == [] then 0 else Targets(prs[..|prs| - 1], target) + if prs[|prs| - 1].number == target then 1 else 0
  }

  /** A manifest in place of an unreadable one. */
  ghost predicate StandsIn(m: Manifest, item: int, files: seq<string>) {
    && m.workItem == item && m.run == "unparsed" && m.mode == Independent && m.stackParent == None
    && m.writePaths == files && m.contracts == [] && m.database == [] && m.migrations == []
    && m.generatedFiles == Selected(files, ".github/", "generated/")
    && m.workflows == Selected(files, ".github/workflows/", ".github/workflows/")
  }

  /** The files with one of two prefixes, in order. */
  function Selected(files: seq<string>, prefix: string, other: string): seq<string> {
    if files == [] then []
    else if prefix <= files[0] || other <= files[0] then [files[0]] + Selected(files[1..], prefix, other)
    else Selected(files[1..], prefix, other)
  }

  lemma {:induction false} SelectedEnd(files: seq<string>, last: string, prefix: string, other: string)
    ensures Selected(files + [last], prefix, other)
            == Selected(files, prefix, other) + if prefix <= last || other <= last then [last] else []
  {
    if files == [] {
      assert files + [last] == [last] && [last][1..] == [];
    } else {
      SelectedEnd(files[1..], last, prefix, other);
      assert (files + [last])[1..] == files[1..] + [last];
    }
  }

  lemma {:induction false} SelectedIs(files: seq<string>, prefix: string, other: string)
    ensures StartingWith(files, prefix, other) == Selected(files, prefix, other)
  {
    if files != [] {
      var front, last := files[..|files| - 1], files[|files| - 1];
      SelectedIs(front, prefix, other);
      SelectedEnd(front, last, prefix, other);
      assert files == front + [last];
    }
  }

  lemma StandInIs(item: int, files: seq<string>, m: Manifest)
    ensures m == FallbackManifest(item, files) <==> StandsIn(m, item, files)
  {
    SelectedIs(files, ".github/", "generated/");
    SelectedIs(files, ".github/workflows/", ".github/workflows/");
  }

  // ----- Reports and errors -----

  lemma {:induction false} TargetsCount(prs: seq<Pr>, target: int)
    requires UniqueNumbers(prs)
    ensures Targets(prs, target) == if exists pr :: pr in prs && pr.number == target then 1 else 0
  {
    if prs != [] {
      var front, last := prs[..|prs| - 1], prs[|prs| - 1];
      LastIsNew(prs);
      TargetsCount(front, target);
      assert forall i :: 0 <= i < |front| ==> front[i] == prs[i] && front[i].number != last.number;
    }
  }

  /** The report is about the target and its work item; everybody else who is
      open is counted, as compared or as historical. */
  lemma ReportMeans(text: TextPolicy, s: Snapshot)
    requires s.target.manifest.Ok? && Evaluate(text, s).Ok?
    ensures var e, r := Evaluate(text, s).value, ReportOf(s, Evaluate(text, s).value);
            && r.pr == s.target.number && r.workItem == s.workItem.number
            && r.findings <= e.raised && |r.findings| == (if |e.raised| < 50 then |e.raised| else 50)
            && r.compared == |Gather(text, OpenPrs(s), s.target.number, CurrentPrs(s.openIssues)).value.rivals|
            && r.compared + r.ignored + 1 == |OpenPrs(s)|
  {
    hide OwnFindings, AllPairs, ChangedFiles, OpenPrs, CurrentPrs, BookOf, When, Listed;
    OpenPrsAre(s);
    var pr := TargetIsOpen(s);
    TargetsCount(OpenPrs(s), s.target.number);
    RivalsAreCounted(text, OpenPrs(s), s.target.number, CurrentPrs(s.openIssues));
    hide Gather;
  }

  lemma TargetIsOpen(s: Snapshot) returns (pr: Pr)
    ensures Listed(s, pr) && pr.number == s.target.number
  {
    if i :| 0 <= i < |s.openPrs| && s.openPrs[i].number == s.target.number {
      pr := SomeIsLast(s.openPrs, i);
    } else {
      pr := s.target;
    }
  }

  /** An unreadable target is reported with its own reason and nothing else. */
  lemma UnreadableTarget(text: TextPolicy, s: Snapshot)
    requires s.target.manifest.Raised?
    ensures Evaluate(text, s).Ok?
    ensures var r := ReportOf(s, Evaluate(text, s).value);
            && r.state == Fail && r.findings == [Finding(Error, BadManifest(s.target.manifest.code), PrSubject(s.target.number))]
            && r.compared == 0 && r.ignored == 0
  {
    var raised := Evaluate(text, s).value.raised;
    assert raised[0].severity == Error && Reports.Kept(raised) == raised;
  }

  ghost predicate UnsafeFile(text: TextPolicy, pr: Pr) {
    exists f :: f in pr.files && text.safe(f).None?
  }

  /** A readable pull request is evaluated unless a lease comment or its own
      creation has no readable time, or a file name of its own or of a compared
      pull request is refused. */
  lemma EvaluationStopsIff(text: TextPolicy, s: Snapshot)
    requires s.target.manifest.Ok?
    ensures Evaluate(text, s).Raised? <==>
            || Undated in s.workItem.comments || s.target.createdAt.None? || UnsafeFile(text, s.target)
            || exists pr :: Compared(s, pr) && UnsafeFile(text, pr)
  {
    hide OwnFindings, OpenPrs, CurrentPrs, When, UnsafeFile, Compared;
    BookRaisesIff(s.workItem.comments);
    FilesStopIff(text, s.target);
    var prs, current, target := OpenPrs(s), CurrentPrs(s.openIssues), s.target.number;
    forall pr ensures Compared(s, pr) <==> pr in prs && pr.number != target && pr.number in current {
      ComparedIff(s, pr);
    }
    hide BookOf;
    if ChangedFiles(text, s.target).Some? {
      ComparisonStopsIff(text, prs, target, current, s.target.manifest.value, ChangedFiles(text, s.target).value);
    }
  }

  lemma FilesStopIff(text: TextPolicy, pr: Pr)
    ensures ChangedFiles(text, pr).None? <==> UnsafeFile(text, pr)
  {
    ChangedFilesAre(text, pr);
    hide ChangedFiles;
  }

  lemma {:induction false} BookRaisesIff(comments: seq<Comment>)
    ensures BookOf(comments).Raised? <==> Undated in comments
  {
    EventsStopIff(comments);
    hide Events, Replay, SortByTime;
  }

  lemma {:induction false} EventsStopIff(comments: seq<Comment>)
    ensures Events(comments).None? <==> Undated in comments
  {
    if comments != [] {
      EventsStopIff(comments[..|comments| - 1]);
      assert comments == comments[..|comments| - 1] + [comments[|comments| - 1]];
    }
  }

  ghost predicate Stops(text: TextPolicy, prs: seq<Pr>, target: int, current: map<int, int>) {
    exists pr :: pr in prs && pr.number != target && pr.number in current && UnsafeFile(text, pr)
  }

  lemma ComparisonStopsIff(text: TextPolicy, prs: seq<Pr>, target: int, current: map<int, int>, m: Manifest, paths: seq<string>)
    ensures Gather(text, prs, target, current).Raised?
            || AllPairs(text, target, m, paths, Gather(text, prs, target, current).value.rivals).Raised?
            <==> Stops(text, prs, target, current)
  {
    hide UnsafeFile, Gather, AllPairs;
    GatherStops(text, prs, target, current);
    if Gather(text, prs, target, current).Ok? {
      var rivals := Gather(text, prs, target, current).value.rivals;
      PairsStopIff(text, target, m, paths, rivals);
      forall r | r in rivals ensures r.pr in prs && r.pr.number != target && r.pr.number in current {
        GatherOnlyFinds(text, prs, target, current, r);
      }
      if pr :| pr in prs && pr.number != target && pr.number in current && UnsafeFile(text, pr) {
        GatherFinds(text, prs, target, current, pr);
        assert Rival(pr, pr.manifest.value) in rivals;
      }
    }
  }

  /** Gathering stops only at a compared one that is both unreadable and unsafe. */
  lemma {:induction false} GatherStops(text: TextPolicy, prs: seq<Pr>, target: int, current: map<int, int>)
    ensures Gather(text, prs, target, current).Raised? <==>
            exists pr :: pr in prs && pr.number != target && pr.number in current && pr.manifest.Raised? && UnsafeFile(text, pr)
  {
    hide UnsafeFile, ChangedFiles, FallbackManifest;
    if prs != [] {
      var front, last := prs[..|prs| - 1], prs[|prs| - 1];
      GatherStops(text, front, target, current);
      FilesStopIff(text, last);
      assert prs == front + [last];
    }
  }

  lemma {:induction false} PairsStopIff(text: TextPolicy, target: int, m: Manifest, paths: seq<string>, rivals: seq<Rival>)
    ensures AllPairs(text, target, m, paths, rivals).Raised? <==> exists r :: r in rivals && UnsafeFile(text, r.pr)
  {
    hide UnsafeFile, ChangedFiles, PairFindings;
    if rivals != [] {
      var front, last := rivals[..|rivals| - 1], rivals[|rivals| - 1];
      PairsStopIff(text, target, m, paths, front);
      FilesStopIff(text, last.pr);
      assert rivals == front + [last];
    }
  }
}
