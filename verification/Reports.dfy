/** Findings, the capped report builder and the size-bounded report. */
module Reports {
  import opened Basics

  const MAX_FINDINGS: nat := 50

  datatype Severity = Error | Warning
  datatype Subject = PrSubject(number: int) | IssueSubject(number: int) | RunSubject(run: string) | WholeReport
  /** The reason codes of the gate; an unreadable manifest keeps its own reason. */
  datatype Code =
    | BadManifest(reason: string)
    | ActiveClaimMissingOrExpired | ActualPathNotDeclared | AgentRunNotActiveClaim | ClaimNotValidAtPrCreation
    | ContractOwnershipConflict | CurrentPrManifestUnparseable | CurrentPrMismatch | DatabaseOwnershipConflict
    | DuplicateOrMissingWorkItemPr | ExclusiveWritePathConflict | GeneratedFileConflict
    | HeartbeatAfterLeaseExpiry | HeartbeatAfterRelease | LeaseEventWithoutClaim | ManifestWorkItemMismatch
    | MigrationDownRevisionConflict | MigrationOwnershipAmbiguous | OverlappingActiveClaim
    | PrLinksMultipleWorkItems | PullRequestHasNoChangedFiles | ReclaimBeforeReleaseOrExpiry | ReportTooLarge
    | StackBaseMismatch | StackParentDoesNotCoverBlockers | StackParentNotBlockerCurrentPr | StackParentPrNotOpen | UnmetBlockers
    | WorkItemLabelMissing | WorkItemNotExecutable | WorkItemNotOpen | WorkflowConflict

  datatype Finding = Finding(severity: Severity, code: Code, subject: Subject)
  datatype State = Pass | Warn | Fail

  /** The reason codes are the error codes and then the warning codes, each as a
      sorted list without repetition: as many values as there are sets. */
  datatype Report = Report(state: State, pr: int, workItem: int, errorCodes: set<Code>, warningCodes: set<Code>,
                           errors: nat, warnings: nat, findings: seq<Finding>, compared: nat, ignored: nat)

  predicate HasSeverity(findings: seq<Finding>, severity: Severity) {
    exists i :: 0 <= i < |findings| && findings[i].severity == severity
  }

  function CountOf(findings: seq<Finding>, severity: Severity): nat {
    if findings == [] then 0
    else CountOf(findings[1..], severity) + if findings[0].severity == severity then 1 else 0
  }

  function StateOf(findings: seq<Finding>): State {
    if HasSeverity(findings, Error) then Fail
    else if HasSeverity(findings, Warning) then Warn
    else Pass
  }

  /** What a builder that was asked to record `raised` still holds. */
  function Kept(raised: seq<Finding>): seq<Finding> {
    Take(raised, MAX_FINDINGS)
  }

  function Verdict(raised: seq<Finding>): State {
    StateOf(Kept(raised))
  }

  function CodesOf(findings: seq<Finding>, severity: Severity): set<Code> {
    set i | 0 <= i < |findings| && findings[i].severity == severity :: findings[i].code
  }

  /** The report on the findings that were kept. */
  function ReportOn(pr: int, workItem: int, findings: seq<Finding>, compared: nat, ignored: nat): Report {
    Report(StateOf(findings), pr, workItem, CodesOf(findings, Error), CodesOf(findings, Warning),
           CountOf(findings, Error), CountOf(findings, Warning), findings, compared, ignored)
  }

  class ReportBuilder {
    const pr: int
    const workItem: int
    var findings: seq<Finding>
    var ignored: nat
    var compared: nat
    /** Every finding ever handed to the builder, dropped ones included. */
    ghost var raised: seq<Finding>

    ghost predicate Valid()
      reads this
    {
      findings == Kept(raised)
    }

    constructor (pr: int, workItem: int)
      ensures Valid() && raised == [] && ignored == 0 && compared == 0
      ensures this.pr == pr && this.workItem == workItem
    {
      this.pr, this.workItem := pr, workItem;
      findings, ignored, compared := [], 0, 0;
      raised := [];
    }

    method Add(severity: Severity, code: Code, subject: Subject)
      requires Valid()
      modifies `findings, `raised
      ensures Valid() && raised == old(raised) + [Finding(severity, code, subject)]
    {
      raised := raised + [Finding(severity, code, subject)];
      if |findings| >= MAX_FINDINGS {
        return;
      }
      findings := findings + [Finding(severity, code, subject)];
    }

    /** The lease findings arrive as one list, cut to the room that is left. */
    method Extend(more: seq<Finding>)
      requires Valid()
      modifies `findings, `raised
      ensures Valid() && raised == old(raised) + more
    {
      var room := if |findings| <= MAX_FINDINGS then MAX_FINDINGS - |findings| else 0;
      raised := raised + more;
      findings := findings + Take(more, room);
    }

    method Build() returns (report: Report)
      requires Valid()
      ensures report == ReportOn(pr, workItem, Kept(raised), compared, ignored)
      ensures report.state == Verdict(raised) && report.findings == Kept(raised)
      ensures report.errors + report.warnings == |report.findings| <= MAX_FINDINGS
      ensures report.state == Fail <==> report.errorCodes != {}
      ensures report.state == Pass <==> report.errorCodes + report.warningCodes == {}
      ensures forall c :: c in report.errorCodes ==> exists f :: f in raised && f.severity == Error && f.code == c
      ensures forall c :: c in report.errorCodes <==> exists f :: f in report.findings && f.severity == Error && f.code == c
      ensures forall c :: c in report.warningCodes <==> exists f :: f in report.findings && f.severity == Warning && f.code == c
    {
      var errorCodes, warningCodes := CodesOf(findings, Error), CodesOf(findings, Warning);
      CountBounds(findings);
      CodesMatch(findings);
      CodesAre(findings, Error);
      CodesAre(findings, Warning);
      var state := if errorCodes != {} then Fail else if warningCodes != {} then Warn else Pass;
      report := Report(state, pr, workItem, errorCodes, warningCodes, CountOf(findings, Error), CountOf(findings, Warning),
                       findings, compared, ignored);
    }
  }

  lemma {:induction false} CountBounds(findings: seq<Finding>)
    ensures CountOf(findings, Error) + CountOf(findings, Warning) == |findings|
    ensures CountOf(findings, Error) > 0 <==> HasSeverity(findings, Error)
  {
    if findings != [] {
      CountBounds(findings[1..]);
      assert findings == [findings[0]] + findings[1..];
      if HasSeverity(findings[1..], Error) {
        var i :| 0 <= i < |findings[1..]| && findings[1..][i].severity == Error;
        assert findings[i + 1].severity == Error;
      }
      if HasSeverity(findings, Error) && findings[0].severity != Error {
        var i :| 0 <= i < |findings| && findings[i].severity == Error;
        assert findings[1..][i - 1].severity == Error;
      }
    }
  }

  lemma CodesAre(findings: seq<Finding>, severity: Severity)
    ensures forall c :: c in CodesOf(findings, severity) <==> exists f :: f in findings && f.severity == severity && f.code == c
  {
    forall f | f in findings && f.severity == severity ensures f.code in CodesOf(findings, severity) {
      var i :| 0 <= i < |findings| && findings[i] == f;
    }
  }

  /** Counting goes finding by finding. */
  lemma {:induction false} CountJoin(a: seq<Finding>, b: seq<Finding>, severity: Severity)
    ensures CountOf(a + b, severity) == CountOf(a, severity) + CountOf(b, severity)
    ensures forall f :: CountOf([f], severity) == if f.severity == severity then 1 else 0
  {
    forall f ensures CountOf([f], severity) == if f.severity == severity then 1 else 0 {
      assert [f][1..] == [];
    }
    if a == [] {
      assert a + b == b;
    } else {
      CountJoin(a[1..], b, severity);
      assert (a + b)[1..] == a[1..] + b;
    }
  }

  lemma CodesMatch(findings: seq<Finding>)
    ensures forall s :: CodesOf(findings, s) != {} <==> HasSeverity(findings, s)
    ensures findings != [] ==> CodesOf(findings, Error) != {} || CodesOf(findings, Warning) != {}
  {
    forall s ensures CodesOf(findings, s) != {} <==> HasSeverity(findings, s) {
      if i :| 0 <= i < |findings| && findings[i].severity == s {
        assert findings[i].code in CodesOf(findings, s);
      }
      if c :| c in CodesOf(findings, s) {
        var i :| 0 <= i < |findings| && findings[i].severity == s && findings[i].code == c;
      }
    }
    if findings != [] {
      assert HasSeverity(findings, findings[0].severity);
    }
  }

  lemma {:induction false} CountPrefix(findings: seq<Finding>, n: nat, severity: Severity)
    requires n <= |findings|
    ensures CountOf(findings[..n], severity) <= CountOf(findings, severity)
  {
    if n > 0 {
      CountPrefix(findings[1..], n - 1, severity);
      assert findings[..n][1..] == findings[1..][..n - 1];
    }
  }

  /** The cap never turns a finding into a pass, and with fewer than
      MAX_FINDINGS warnings it never hides an error: among the first
      MAX_FINDINGS findings of a longer list one must be an error. */
  lemma CapKeepsVerdict(raised: seq<Finding>)
    ensures |Kept(raised)| <= MAX_FINDINGS
    ensures Verdict(raised) == Pass <==> raised == []
    ensures CountOf(raised, Warning) < MAX_FINDINGS ==>
              (Verdict(raised) == Fail <==> HasSeverity(raised, Error))
  {
    var kept := Kept(raised);
    if raised != [] {
      assert HasSeverity(kept, kept[0].severity);
    }
    if HasSeverity(kept, Error) {
      var i :| 0 <= i < |kept| && kept[i].severity == Error;
      assert raised[i].severity == Error;
    }
    if |raised| > MAX_FINDINGS {
      CountBounds(kept);
      CountPrefix(raised, MAX_FINDINGS, Warning);
    }
  }

  /** Without that bound the verdict is decided by the first MAX_FINDINGS
      findings alone: an error counts exactly when it is raised among them. */
  lemma CapHidesExactlyLateErrors(raised: seq<Finding>)
    ensures Verdict(raised) == Fail <==>
              exists i :: 0 <= i < |raised| && i < MAX_FINDINGS && raised[i].severity == Error
  {
    var kept := Kept(raised);
    if HasSeverity(kept, Error) {
      var i :| 0 <= i < |kept| && kept[i].severity == Error;
      assert raised[i].severity == Error;
    }
    if i :| 0 <= i < |raised| && i < MAX_FINDINGS && raised[i].severity == Error {
      assert kept[i].severity == Error;
    }
  }

  /** `encode` stands for canonical JSON; any encoder will do. */
  function BoundedReport<B>(encode: Report -> seq<B>, report: Report, maxBytes: nat): Result<seq<B>> {
    if |encode(report)| <= maxBytes then Ok(encode(report))
    else
      var fallback := TooLarge(report);
      if |encode(fallback)| > maxBytes then Raised("max_report_bytes_too_small")
      else Ok(encode(fallback))
  }

  function TooLarge(report: Report): Report {
    Report(Fail, report.pr, report.workItem, {ReportTooLarge}, {}, 1, 0,
           [Finding(Error, ReportTooLarge, WholeReport)], 0, 0)
  }

  /** Whatever is written fits, and a reader that decodes it sees the verdict
      itself or a failure, never a better verdict. */
  lemma BoundedReportIsSafe<B>(encode: Report -> seq<B>, decode: seq<B> -> Report, report: Report, maxBytes: nat)
    requires forall r :: decode(encode(r)) == r
    ensures match BoundedReport(encode, report, maxBytes)
            case Ok(bytes) =>
              && |bytes| <= maxBytes
              && decode(bytes).pr == report.pr && decode(bytes).workItem == report.workItem
              && (decode(bytes).state == report.state || decode(bytes).state == Fail)
              && (|encode(report)| <= maxBytes <==> decode(bytes) == report)
              && (|encode(report)| > maxBytes ==>
                    var r := decode(bytes);
                    && r.state == Fail && r.errorCodes == {ReportTooLarge} && r.warningCodes == {} && r.errors == 1 && r.warnings == 0
                    && r.findings == [Finding(Error, ReportTooLarge, WholeReport)] && r.compared == 0 && r.ignored == 0)
            case Raised(_) => |encode(report)| > maxBytes && |encode(TooLarge(report))| > maxBytes
  {
  }
}
