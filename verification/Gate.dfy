/** The verdict for one pull request over one snapshot of the repository. */
module Gate {
  import opened Basics
  import opened Reports
  import opened Leases
  import opened Paths

  /** The text filters the gate applies to tokens: redaction with truncation,
      and the acceptance of a token. Nothing is assumed about either. */
  datatype TextPolicy = TextPolicy(bounded: string -> string, safe: string -> Option<string>)

  datatype Mode = Independent | Stacked

  datatype Manifest = Manifest(workItem: int, run: string, mode: Mode, stackParent: Option<int>,
                               writePaths: seq<string>, contracts: seq<string>, database: seq<string>,
                               migrations: seq<string>, generatedFiles: seq<string>, workflows: seq<string>) {
    function AllPathSpecs(): seq<string> {
      Distinct(writePaths + generatedFiles + workflows)
    }
  }

  /** A work item with its parsed control block. */
  datatype Issue = Issue(number: int, open: bool, labelled: bool, lifecycle: string, currentPr: Option<int>,
                         blockedBy: seq<int>, comments: seq<Comment>)

  /** A pull request; `manifest` is the outcome of parsing its body, `links` the
      work items the body closes, `files` the file names as listed. */
  datatype Pr = Pr(number: int, open: bool, manifest: Result<Manifest>, links: seq<int>, headRef: string, baseRef: string,
                   createdAt: Option<Time>, files: seq<string>)

  datatype Snapshot = Snapshot(now: Time, target: Pr, workItem: Issue, openIssues: seq<Issue>, openPrs: seq<Pr>)

  datatype Evaluation = Evaluation(raised: seq<Finding>, compared: nat, ignored: nat)

  // ----- Tokens and resources -----

  function LowerChar(c: char): char {
    if 'A' <= c <= 'Z' then c - 'A' + 'a' else c
  }

  function Lower(s: string): string {
    seq(|s|, i requires 0 <= i < |s| => LowerChar(s[i]))
  }

  predicate Contains(text: string, part: string) {
    exists i :: 0 <= i <= |text| && part <= text[i..]
  }

  predicate Placeholder(value: string) {
    value == "" || Lower(value) in {"none", "n/a", "not_applicable"}
  }

  function Resources(text: TextPolicy, values: seq<string>): set<string> {
    set v | v in values && !Placeholder(v) :: Lower(text.bounded(v))
  }

  function ResourceIntersection(text: TextPolicy, left: seq<string>, right: seq<string>): set<string> {
    Resources(text, left) * Resources(text, right)
  }

  function SafeFiles(text: TextPolicy, files: seq<string>): Option<seq<string>> {
    if files == [] then Some([])
    else
      var front, token := SafeFiles(text, files[..|files| - 1]), text.safe(files[|files| - 1]);
      if front.None? || token.None? then None else Some(front.value + [Normalize(token.value)])
  }

  function ChangedFiles(text: TextPolicy, pr: Pr): Option<seq<string>> {
    var safe := SafeFiles(text, pr.files);
    if safe.None? then None else Some(Distinct(safe.value))
  }

  predicate IsMigration(path: string) {
    Contains(path, "/versions/") || Contains(Lower(path), "migration")
  }

  // ----- Dictionaries keyed by number, in insertion order -----

  function Upsert(prs: seq<Pr>, pr: Pr): seq<Pr> {
    if prs == [] then [pr]
    else if prs[0].number == pr.number then [pr] + prs[1..]
    else [prs[0]] + Upsert(prs[1..], pr)
  }

  function ByNumber(prs: seq<Pr>): seq<Pr> {
    if prs == [] then [] else Upsert(ByNumber(prs[..|prs| - 1]), prs[|prs| - 1])
  }

  function Find(prs: seq<Pr>, number: int): Option<Pr> {
    if prs == [] then None
    else if prs[0].number == number then Some(prs[0])
    else Find(prs[1..], number)
  }

  function OpenPrs(s: Snapshot): seq<Pr> {
    var prs := ByNumber(s.openPrs);
    if Find(prs, s.target.number).None? then prs + [s.target] else prs
  }

  function IssueNumbers(issues: seq<Issue>): set<int> {
    set i | i in issues :: i.number
  }

  /** Which issue, the last listed one, names a pull request as its current one. */
  function CurrentPrs(issues: seq<Issue>): map<int, int> {
    if issues == [] then map[]
    else
      var front, issue := CurrentPrs(issues[..|issues| - 1]), issues[|issues| - 1];
      if issue.currentPr.Some? then front[issue.currentPr.value := issue.number] else front
  }

  // ----- Findings, group by group -----

  function When(condition: bool, severity: Severity, code: Code, subject: Subject): seq<Finding> {
    if condition then [Finding(severity, code, subject)] else []
  }

  const EXECUTABLE: set<string> := {"ready", "in progress", "in review", "release gate"}

  function LinkedItems(links: seq<int>): set<int> {
    set n | n in links
  }

  function LinkFindings(m: Manifest, s: Snapshot): seq<Finding> {
    var pr := PrSubject(s.target.number);
    When(m.workItem != s.workItem.number, Error, ManifestWorkItemMismatch, pr)
    + When(s.target.links != [] && LinkedItems(s.target.links) != {s.workItem.number}, Error, PrLinksMultipleWorkItems, pr)
  }

  function ControlFindings(s: Snapshot): seq<Finding> {
    var issue := IssueSubject(s.workItem.number);
    When(!s.workItem.open, Error, WorkItemNotOpen, issue)
    + When(!s.workItem.labelled, Error, WorkItemLabelMissing, issue)
    + When(s.workItem.lifecycle !in EXECUTABLE, Error, WorkItemNotExecutable, issue)
  }

  function ClosingPrs(prs: seq<Pr>, workItem: int): seq<int> {
    if prs == [] then []
    else
      var front, pr := ClosingPrs(prs[..|prs| - 1], workItem), prs[|prs| - 1];
      if workItem in pr.links then front + [pr.number] else front
  }

  function AuthorityFindings(s: Snapshot): seq<Finding> {
    var issue := IssueSubject(s.workItem.number);
    When(|ClosingPrs(OpenPrs(s), s.workItem.number)| != 1, Error, DuplicateOrMissingWorkItemPr, issue)
    + When(s.workItem.currentPr != Some(s.target.number), Error, CurrentPrMismatch, issue)
  }

  function OpenBlockers(blockedBy: seq<int>, open: set<int>): seq<int> {
    if blockedBy == [] then []
    else
      var front, n := OpenBlockers(blockedBy[..|blockedBy| - 1], open), blockedBy[|blockedBy| - 1];
      if n in open then front + [n] else front
  }

  function Blockers(s: Snapshot): seq<int> {
    OpenBlockers(s.workItem.blockedBy, IssueNumbers(s.openIssues))
  }

  function BlockerFindings(m: Manifest, s: Snapshot): seq<Finding> {
    var pr := PrSubject(s.target.number);
    if Blockers(s) == [] then []
    else if m.mode != Stacked || m.stackParent.None? then
      [Finding(Error, UnmetBlockers, IssueSubject(s.workItem.number))]
    else
      match Find(OpenPrs(s), m.stackParent.value)
      case None => [Finding(Error, StackParentPrNotOpen, pr)]
      case Some(parent) =>
        When(exists n :: n in Blockers(s) && n !in parent.links, Error, StackParentDoesNotCoverBlockers, pr)
        + When(s.target.baseRef != parent.headRef, Error, StackBaseMismatch, pr)
  }

  function LeaseFindings(m: Manifest, s: Snapshot, book: Book, createdAt: Time): seq<Finding>
    requires book.Wf()
  {
    var pr := PrSubject(s.target.number);
    var active := ActiveLease(book.leases, book.order, s.now);
    book.findings
    + When(active.None?, Error, ActiveClaimMissingOrExpired, IssueSubject(s.workItem.number))
    + When(active.Some? && active.value.run != m.run, Error, AgentRunNotActiveClaim, pr)
    + When(m.run !in book.leases || !book.leases[m.run].ActiveAt(createdAt), Error, ClaimNotValidAtPrCreation, pr)
  }

  predicate Declared(path: string, specs: seq<string>) {
    exists spec :: spec in specs && PathMatches(path, spec)
  }

  function PathFindings(m: Manifest, s: Snapshot, paths: seq<string>): seq<Finding> {
    When(exists p :: p in paths && !Declared(p, m.AllPathSpecs()), Error, ActualPathNotDeclared, PrSubject(s.target.number))
  }

  // ----- Comparison with the other current pull requests -----

  function StartingWith(paths: seq<string>, prefix: string, other: string): seq<string> {
    if paths == [] then []
    else
      var front, p := StartingWith(paths[..|paths| - 1], prefix, other), paths[|paths| - 1];
      if prefix <= p || other <= p then front + [p] else front
  }

  /** Stands in for a manifest that cannot be parsed: the changed files are owned. */
  function FallbackManifest(workItem: int, files: seq<string>): Manifest {
    Manifest(workItem, "unparsed", Independent, None, files, [], [], [],
             StartingWith(files, ".github/", "generated/"),
             StartingWith(files, ".github/workflows/", ".github/workflows/"))
  }

  datatype Rival = Rival(pr: Pr, manifest: Manifest)
  datatype Gathered = Gathered(rivals: seq<Rival>, warnings: seq<Finding>, ignored: nat)

  function Gather(text: TextPolicy, prs: seq<Pr>, target: int, current: map<int, int>): Result<Gathered> {
    if prs == [] then Ok(Gathered([], [], 0))
    else
      var pr := prs[|prs| - 1];
      match Gather(text, prs[..|prs| - 1], target, current)
      case Raised(code) => Raised(code)
      case Ok(g) =>
        if pr.number == target then Ok(g)
        else if pr.number !in current then Ok(g.(ignored := g.ignored + 1))
        else
          match pr.manifest
          case Ok(m) => Ok(g.(rivals := g.rivals + [Rival(pr, m)]))
          case Raised(_) =>
            match ChangedFiles(text, pr)
            case None => Raised("unsafe_changed_file_path")
            case Some(files) =>
              Ok(g.(rivals := g.rivals + [Rival(pr, FallbackManifest(current[pr.number], files))],
                    warnings := g.warnings + [Finding(Warning, CurrentPrManifestUnparseable, PrSubject(pr.number))]))
  }

  predicate PathConflict(m: Manifest, paths: seq<string>, other: Manifest, otherPaths: seq<string>) {
    || (exists p :: p in paths && p in otherPaths)
    || (exists l, r :: l in m.AllPathSpecs() && r in other.AllPathSpecs() && PathSpecsOverlap(l, r))
  }

  predicate TouchesMigrations(paths: seq<string>) {
    exists p :: p in paths && IsMigration(p)
  }

  datatype Claimed = Claimed(code: Code, left: seq<string>, right: seq<string>)

  function ExclusiveResources(m: Manifest, other: Manifest): seq<Claimed> {
    [Claimed(ContractOwnershipConflict, m.contracts, other.contracts),
     Claimed(DatabaseOwnershipConflict, m.database, other.database),
     Claimed(GeneratedFileConflict, m.generatedFiles, other.generatedFiles),
     Claimed(WorkflowConflict, m.workflows, other.workflows)]
  }

  function ResourceFindings(text: TextPolicy, target: int, claims: seq<Claimed>): seq<Finding> {
    if claims == [] then []
    else
      var c := claims[|claims| - 1];
      ResourceFindings(text, target, claims[..|claims| - 1])
      + When(ResourceIntersection(text, c.left, c.right) != {}, Error, c.code, PrSubject(target))
  }

  function PairFindings(text: TextPolicy, target: int, m: Manifest, paths: seq<string>, other: Manifest,
                        otherPaths: seq<string>): seq<Finding> {
    var pr := PrSubject(target);
    When(PathConflict(m, paths, other, otherPaths), Error, ExclusiveWritePathConflict, pr)
    + ResourceFindings(text, target, ExclusiveResources(m, other))
    + (if !(TouchesMigrations(paths) && TouchesMigrations(otherPaths)) then []
       else if ResourceIntersection(text, m.migrations, other.migrations) != {} then
         [Finding(Error, MigrationDownRevisionConflict, pr)]
       else When(m.migrations == [] || other.migrations == [], Error, MigrationOwnershipAmbiguous, pr))
  }

  function AllPairs(text: TextPolicy, target: int, m: Manifest, paths: seq<string>, rivals: seq<Rival>): Result<seq<Finding>> {
    if rivals == [] then Ok([])
    else
      var rival := rivals[|rivals| - 1];
      match AllPairs(text, target, m, paths, rivals[..|rivals| - 1])
      case Raised(code) => Raised(code)
      case Ok(found) =>
        match ChangedFiles(text, rival.pr)
        case None => Raised("unsafe_changed_file_path")
        case Some(otherPaths) => Ok(found + PairFindings(text, target, m, paths, rival.manifest, otherPaths))
  }

  /** Everything an evaluation raises before the cap, or the input error it stops at. */
  function Evaluate(text: TextPolicy, s: Snapshot): Result<Evaluation> {
    match s.target.manifest
    case Raised(code) => Ok(Evaluation([Finding(Error, BadManifest(code), PrSubject(s.target.number))], 0, 0))
    case Ok(m) =>
      match BookOf(s.workItem.comments)
      case Raised(code) => Raised(code)
      case Ok(book) =>
        if s.target.createdAt.None? then Raised("pr_created_at_invalid")
        else
          match ChangedFiles(text, s.target)
          case None => Raised("unsafe_changed_file_path")
          case Some(paths) =>
            match Gather(text, OpenPrs(s), s.target.number, CurrentPrs(s.openIssues))
            case Raised(code) => Raised(code)
            case Ok(g) =>
              match AllPairs(text, s.target.number, m, paths, g.rivals)
              case Raised(code) => Raised(code)
              case Ok(pairs) =>
                Ok(Evaluation(OwnFindings(m, s, book, s.target.createdAt.value, paths) + g.warnings + pairs
                              + When(paths == [], Warning, PullRequestHasNoChangedFiles, PrSubject(s.target.number)),
                              |g.rivals|, g.ignored))
  }

  /** The findings that concern the pull request alone, in the order they are raised. */
  function OwnFindings(m: Manifest, s: Snapshot, book: Book, createdAt: Time, paths: seq<string>): seq<Finding>
    requires book.Wf()
  {
    LinkFindings(m, s) + ControlFindings(s) + AuthorityFindings(s) + BlockerFindings(m, s) + LeaseFindings(m, s, book, createdAt)
    + PathFindings(m, s, paths)
  }

  function ReportOf(s: Snapshot, e: Evaluation): Report {
    ReportOn(s.target.number, s.workItem.number, Kept(e.raised), e.compared, e.ignored)
  }

  ghost predicate Passes(text: TextPolicy, s: Snapshot) {
    Evaluate(text, s).Ok? && ReportOf(s, Evaluate(text, s).value).state == Pass
  }
}
