/** The evaluation as the gate performs it: loops that fill one capped report. */
module GateRun {
  import opened Basics
  import opened Reports
  import opened Leases
  import opened Paths
  import opened Gate

  method Check(report: ReportBuilder, condition: bool, severity: Severity, code: Code, subject: Subject,
               ghost base: seq<Finding>, ghost found: seq<Finding>)
    requires report.Valid() && report.raised == base + found
    modifies report`findings, report`raised
    ensures report.Valid() && report.raised == base + (found + When(condition, severity, code, subject))
  {
    if condition {
      report.Add(severity, code, subject);
    }
  }

  method CheckLinks(report: ReportBuilder, m: Manifest, s: Snapshot)
    requires report.Valid()
    modifies report`findings, report`raised
    ensures report.Valid() && report.raised == old(report.raised) + LinkFindings(m, s)
  {
    ghost var base := report.raised;
    var pr := PrSubject(s.target.number);
    var mismatch := m.workItem != s.workItem.number;
    var extraLinks := s.target.links != [] && LinkedItems(s.target.links) != {s.workItem.number};
    Check(report, mismatch, Error, ManifestWorkItemMismatch, pr, base, []);
    ghost var found := [] + When(mismatch, Error, ManifestWorkItemMismatch, pr);
    Check(report, extraLinks, Error, PrLinksMultipleWorkItems, pr, base, found);
  }

  method CheckControl(report: ReportBuilder, s: Snapshot)
    requires report.Valid()
    modifies report`findings, report`raised
    ensures report.Valid() && report.raised == old(report.raised) + ControlFindings(s)
  {
    ghost var base := report.raised;
    var issue := IssueSubject(s.workItem.number);
    var idle := s.workItem.lifecycle !in EXECUTABLE;
    Check(report, !s.workItem.open, Error, WorkItemNotOpen, issue, base, []);
    ghost var found := [] + When(!s.workItem.open, Error, WorkItemNotOpen, issue);
    Check(report, !s.workItem.labelled, Error, WorkItemLabelMissing, issue, base, found);
    found := found + When(!s.workItem.labelled, Error, WorkItemLabelMissing, issue);
    Check(report, idle, Error, WorkItemNotExecutable, issue, base, found);
  }

  method CheckAuthority(report: ReportBuilder, s: Snapshot, openPrs: seq<Pr>)
    requires report.Valid() && openPrs == OpenPrs(s)
    modifies report`findings, report`raised
    ensures report.Valid() && report.raised == old(report.raised) + AuthorityFindings(s)
  {
    var closing: seq<int> := [];
    for i := 0 to |openPrs|
      invariant closing == ClosingPrs(openPrs[..i], s.workItem.number)
    {
      assert openPrs[..i + 1][..i] == openPrs[..i];
      if s.workItem.number in openPrs[i].links {
        closing := closing + [openPrs[i].number];
      }
    }
    assert openPrs[..|openPrs|] == openPrs;
    var issue := IssueSubject(s.workItem.number);
    ghost var base := report.raised;
    Check(report, |closing| != 1, Error, DuplicateOrMissingWorkItemPr, issue, base, []);
    ghost var found := [] + When(|closing| != 1, Error, DuplicateOrMissingWorkItemPr, issue);
    Check(report, s.workItem.currentPr != Some(s.target.number), Error, CurrentPrMismatch, issue, base, found);
  }

  method CheckBlockers(report: ReportBuilder, m: Manifest, s: Snapshot, openPrs: seq<Pr>)
    requires report.Valid() && openPrs == OpenPrs(s)
    modifies report`findings, report`raised
    ensures report.Valid() && report.raised == old(report.raised) + BlockerFindings(m, s)
  {
    var pr := PrSubject(s.target.number);
    var blockers := Blockers(s);
    if blockers != [] {
      if m.mode != Stacked || m.stackParent.None? {
        report.Add(Error, UnmetBlockers, IssueSubject(s.workItem.number));
      } else {
        var parent := Find(openPrs, m.stackParent.value);
        if parent.None? {
          report.Add(Error, StackParentPrNotOpen, pr);
        } else {
          var unresolved := exists n :: n in blockers && n !in parent.value.links;
          ghost var base := report.raised;
          Check(report, unresolved, Error, StackParentDoesNotCoverBlockers, pr, base, []);
          ghost var found := [] + When(unresolved, Error, StackParentDoesNotCoverBlockers, pr);
          Check(report, s.target.baseRef != parent.value.headRef, Error, StackBaseMismatch, pr, base, found);
        }
      }
    }
  }

  method CheckLease(report: ReportBuilder, m: Manifest, s: Snapshot, createdAt: Time, leases: map<string, Lease>,
                    order: seq<string>, found: seq<Finding>, ghost book: Book)
    requires report.Valid() && book.Wf()
    requires leases == book.leases && order == book.order && found == book.findings
    modifies report`findings, report`raised
    ensures report.Valid() && report.raised == old(report.raised) + LeaseFindings(m, s, book, createdAt)
  {
    hide When, ActiveLease;
    ghost var base := report.raised;
    report.Extend(found);
    var active := ActiveLease(leases, order, s.now);
    var pr, issue := PrSubject(s.target.number), IssueSubject(s.workItem.number);
    var stranger := active.Some? && active.value.run != m.run;
    Check(report, active.None?, Error, ActiveClaimMissingOrExpired, issue, base, found);
    ghost var all := found + When(active.None?, Error, ActiveClaimMissingOrExpired, issue);
    Check(report, stranger, Error, AgentRunNotActiveClaim, pr, base, all);
    all := all + When(stranger, Error, AgentRunNotActiveClaim, pr);
    var unclaimed := m.run !in leases || !leases[m.run].ActiveAt(createdAt);
    Check(report, unclaimed, Error, ClaimNotValidAtPrCreation, pr, base, all);
  }

  /** The loop that picks the pull requests to compare with; an unparseable
      manifest costs a warning and is replaced by its changed files. */
  method GatherRivals(text: TextPolicy, report: ReportBuilder, prs: seq<Pr>, target: int, current: map<int, int>)
    returns (rivals: Result<seq<Rival>>)
    requires report.Valid() && report.ignored == 0
    modifies report`findings, report`raised, report`ignored
    ensures report.Valid()
    ensures match Gather(text, prs, target, current)
            case Raised(code) => rivals == Raised(code)
            case Ok(g) =>
              && rivals == Ok(g.rivals) && report.ignored == g.ignored
              && report.raised == old(report.raised) + g.warnings
  {
    var compared: seq<Rival> := [];
    ghost var warnings: seq<Finding> := [];
    for i := 0 to |prs|
      invariant report.Valid()
      invariant Gather(text, prs[..i], target, current) == Ok(Gathered(compared, warnings, report.ignored))
      invariant report.raised == old(report.raised) + warnings
    {
      var pr := prs[i];
      assert prs[..i + 1][..i] == prs[..i];
      if pr.number == target {
        continue;
      }
      if pr.number !in current {
        report.ignored := report.ignored + 1;
        continue;
      }
      match pr.manifest
      case Ok(m) =>
        compared := compared + [Rival(pr, m)];
      case Raised(_) =>
        var files := ChangedFiles(text, pr);
        report.Add(Warning, CurrentPrManifestUnparseable, PrSubject(pr.number));
        if files.None? {
          GatherRaises(text, prs, target, current, i + 1, "unsafe_changed_file_path");
          return Raised("unsafe_changed_file_path");
        }
        warnings := warnings + [Finding(Warning, CurrentPrManifestUnparseable, PrSubject(pr.number))];
        compared := compared + [Rival(pr, FallbackManifest(current[pr.number], files.value))];
    }
    assert prs[..|prs|] == prs;
    return Ok(compared);
  }

  lemma {:induction false} GatherRaises(text: TextPolicy, prs: seq<Pr>, target: int, current: map<int, int>, k: nat, code: string)
    requires k <= |prs| && Gather(text, prs[..k], target, current) == Raised(code)
    ensures Gather(text, prs, target, current) == Raised(code)
  {
    if k == |prs| {
      assert prs[..k] == prs;
    } else {
      assert prs[..|prs| - 1][..k] == prs[..k];
      GatherRaises(text, prs[..|prs| - 1], target, current, k, code);
    }
  }

  /** The set of contested paths, grown by every pair of declared specifications. */
  method Contested(m: Manifest, paths: seq<string>, other: Manifest, otherPaths: seq<string>) returns (conflict: bool)
    ensures conflict == PathConflict(m, paths, other, otherPaths)
  {
    hide PathSpecsOverlap;
    var conflicts: set<string> := set p | p in paths && p in otherPaths;
    if p :| p in paths && p in otherPaths {
      assert p in conflicts;
    }
    var left, right := m.AllPathSpecs(), other.AllPathSpecs();
    for i := 0 to |left|
      invariant conflicts != {} <==>
                  || (exists p :: p in paths && p in otherPaths)
                  || (exists a, b :: 0 <= a < i && 0 <= b < |right| && PathSpecsOverlap(left[a], right[b]))
    {
      for j := 0 to |right|
        invariant conflicts != {} <==>
                    || (exists p :: p in paths && p in otherPaths)
                    || (exists a, b :: 0 <= a < i && 0 <= b < |right| && PathSpecsOverlap(left[a], right[b]))
                    || (exists b :: 0 <= b < j && PathSpecsOverlap(left[i], right[b]))
      {
        if PathSpecsOverlap(left[i], right[j]) {
          var mark := "declared:" + left[i];
          conflicts := conflicts + {mark};
          assert mark in conflicts;
        }
      }
    }
    conflict := conflicts != {};
    ConflictByIndex(m, other);
  }

  lemma ConflictByIndex(m: Manifest, other: Manifest)
    ensures var left, right := m.AllPathSpecs(), other.AllPathSpecs();
            (exists l, r :: l in left && r in right && PathSpecsOverlap(l, r))
            <==> (exists a, b :: 0 <= a < |left| && 0 <= b < |right| && PathSpecsOverlap(left[a], right[b]))
  {
    var left, right := m.AllPathSpecs(), other.AllPathSpecs();
    if l, r :| l in left && r in right && PathSpecsOverlap(l, r) {
      var a :| 0 <= a < |left| && left[a] == l;
      var b :| 0 <= b < |right| && right[b] == r;
    }
    if a, b :| 0 <= a < |left| && 0 <= b < |right| && PathSpecsOverlap(left[a], right[b]) {
      assert left[a] in left && right[b] in right;
    }
  }

  method CheckPair(text: TextPolicy, report: ReportBuilder, target: int, m: Manifest, paths: seq<string>,
                   other: Manifest, otherPaths: seq<string>)
    requires report.Valid()
    modifies report`findings, report`raised
    ensures report.Valid() && report.raised == old(report.raised) + PairFindings(text, target, m, paths, other, otherPaths)
  {
    hide When, PathConflict, ResourceIntersection, TouchesMigrations;
    ghost var base := report.raised;
    var pr := PrSubject(target);
    var conflict := Contested(m, paths, other, otherPaths);
    Check(report, conflict, Error, ExclusiveWritePathConflict, pr, base, []);
    ghost var found := [] + When(conflict, Error, ExclusiveWritePathConflict, pr);
    CheckResources(text, report, target, ExclusiveResources(m, other), base, found);
    found := found + ResourceFindings(text, target, ExclusiveResources(m, other));
    if TouchesMigrations(paths) && TouchesMigrations(otherPaths) {
      if ResourceIntersection(text, m.migrations, other.migrations) != {} {
        report.Add(Error, MigrationDownRevisionConflict, pr);
      } else {
        Check(report, m.migrations == [] || other.migrations == [], Error, MigrationOwnershipAmbiguous, pr, base, found);
      }
    }
  }

  method CheckResources(text: TextPolicy, report: ReportBuilder, target: int, claims: seq<Claimed>,
                        ghost base: seq<Finding>, ghost found: seq<Finding>)
    requires report.Valid() && report.raised == base + found
    modifies report`findings, report`raised
    ensures report.Valid() && report.raised == base + (found + ResourceFindings(text, target, claims))
  {
    for i := 0 to |claims|
      invariant report.Valid()
      invariant report.raised == base + (found + ResourceFindings(text, target, claims[..i]))
    {
      assert claims[..i + 1][..i] == claims[..i];
      var intersection := ResourceIntersection(text, claims[i].left, claims[i].right);
      if intersection != {} {
        report.Add(Error, claims[i].code, PrSubject(target));
      }
    }
    assert claims[..|claims|] == claims;
  }

  method CheckPairs(text: TextPolicy, report: ReportBuilder, target: int, m: Manifest, paths: seq<string>, rivals: seq<Rival>)
    returns (error: Option<string>)
    requires report.Valid()
    modifies report`findings, report`raised
    ensures report.Valid()
    ensures match AllPairs(text, target, m, paths, rivals)
            case Raised(code) => error == Some(code)
            case Ok(found) => error == None && report.raised == old(report.raised) + found
  {
    hide PairFindings, ChangedFiles;
    ghost var found: seq<Finding> := [];
    for i := 0 to |rivals|
      invariant report.Valid() && report.raised == old(report.raised) + found
      invariant AllPairs(text, target, m, paths, rivals[..i]) == Ok(found)
    {
      assert rivals[..i + 1][..i] == rivals[..i];
      var otherPaths := ChangedFiles(text, rivals[i].pr);
      if otherPaths.None? {
        PairsRaise(text, target, m, paths, rivals, i + 1, "unsafe_changed_file_path");
        return Some("unsafe_changed_file_path");
      }
      CheckPair(text, report, target, m, paths, rivals[i].manifest, otherPaths.value);
      found := found + PairFindings(text, target, m, paths, rivals[i].manifest, otherPaths.value);
    }
    assert rivals[..|rivals|] == rivals;
    return None;
  }

  lemma {:induction false} PairsRaise(text: TextPolicy, target: int, m: Manifest, paths: seq<string>, rivals: seq<Rival>, k: nat, code: string)
    requires k <= |rivals| && AllPairs(text, target, m, paths, rivals[..k]) == Raised(code)
    ensures AllPairs(text, target, m, paths, rivals) == Raised(code)
  {
    if k == |rivals| {
      assert rivals[..k] == rivals;
    } else {
      assert rivals[..|rivals| - 1][..k] == rivals[..k];
      PairsRaise(text, target, m, paths, rivals[..|rivals| - 1], k, code);
    }
  }

  /** The checks on the pull request alone, up to and including its own paths. */
  method CheckOwn(text: TextPolicy, report: ReportBuilder, m: Manifest, s: Snapshot, openPrs: seq<Pr>)
    returns (paths: Result<seq<string>>)
    requires report.Valid() && report.raised == [] && openPrs == OpenPrs(s)
    modifies report`findings, report`raised
    ensures report.Valid()
    ensures match BookOf(s.workItem.comments)
            case Raised(code) => paths == Raised(code)
            case Ok(book) =>
              if s.target.createdAt.None? then paths == Raised("pr_created_at_invalid")
              else if ChangedFiles(text, s.target).None? then paths == Raised("unsafe_changed_file_path")
              else
                && paths == Ok(ChangedFiles(text, s.target).value)
                && report.raised == OwnFindings(m, s, book, s.target.createdAt.value, paths.value)
  {
    hide LinkFindings, ControlFindings, AuthorityFindings, BlockerFindings, LeaseFindings, PathFindings, ChangedFiles;
    CheckLinks(report, m, s);
    assert report.raised == LinkFindings(m, s);
    CheckControl(report, s);
    CheckAuthority(report, s, openPrs);
    CheckBlockers(report, m, s, openPrs);
    var undated, leases, order, found := ParseLeases(s.workItem.comments);
    if undated {
      return Raised("comment_created_at_invalid");
    }
    if s.target.createdAt.None? {
      return Raised("pr_created_at_invalid");
    }
    CheckLease(report, m, s, s.target.createdAt.value, leases, order, found, BookOf(s.workItem.comments).value);
    var actual := ChangedFiles(text, s.target);
    if actual.None? {
      return Raised("unsafe_changed_file_path");
    }
    CheckDeclared(report, m, s, actual.value);
    return Ok(actual.value);
  }

  method CheckDeclared(report: ReportBuilder, m: Manifest, s: Snapshot, paths: seq<string>)
    requires report.Valid()
    modifies report`findings, report`raised
    ensures report.Valid() && report.raised == old(report.raised) + PathFindings(m, s, paths)
  {
    var undeclared := exists p :: p in paths && !Declared(p, m.AllPathSpecs());
    if undeclared {
      report.Add(Error, ActualPathNotDeclared, PrSubject(s.target.number));
    }
  }

  /** The whole evaluation produces the report of what it raised, or stops at
      the first input error. */
  method EvaluateSnapshot(text: TextPolicy, s: Snapshot) returns (r: Result<Report>)
    ensures match Evaluate(text, s)
            case Raised(code) => r == Raised(code)
            case Ok(e) => r == Ok(ReportOf(s, e))
  {
    hide OwnFindings, PairFindings;
    var report := new ReportBuilder(s.target.number, s.workItem.number);
    if s.target.manifest.Raised? {
      report.Add(Error, BadManifest(s.target.manifest.code), PrSubject(s.target.number));
      assert report.raised == [Finding(Error, BadManifest(s.target.manifest.code), PrSubject(s.target.number))];
      var built := report.Build();
      return Ok(built);
    }
    var m := s.target.manifest.value;
    var openPrs := OpenPrs(s);
    var own := CheckOwn(text, report, m, s, openPrs);
    if own.Raised? {
      return Raised(own.code);
    }
    var paths := own.value;
    var rivals := GatherRivals(text, report, openPrs, s.target.number, CurrentPrs(s.openIssues));
    if rivals.Raised? {
      return Raised(rivals.code);
    }
    report.compared := |rivals.value|;
    var error := CheckPairs(text, report, s.target.number, m, paths, rivals.value);
    if error.Some? {
      return Raised(error.value);
    }
    ghost var raised := report.raised;
    if paths == [] {
      report.Add(Warning, PullRequestHasNoChangedFiles, PrSubject(s.target.number));
    }
    assert report.raised == raised + When(paths == [], Warning, PullRequestHasNoChangedFiles, PrSubject(s.target.number));
    var built := report.Build();
    return Ok(built);
  }
}
