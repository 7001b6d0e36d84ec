/** Building the snapshot of one pull request from the repository's state. */
module Snapshots {
  import opened Basics
  import opened Leases
  import opened Pages
  import opened Gate

  /** The state the API serves: every work item and every pull request. */
  datatype Repo = Repo(issues: seq<Issue>, pulls: seq<Pr>)

  function FindIssue(issues: seq<Issue>, number: int): Option<Issue> {
    if issues == [] then None
    else if issues[0].number == number then Some(issues[0])
    else FindIssue(issues[1..], number)
  }

  function OpenWorkItems(issues: seq<Issue>): seq<Issue> {
    if issues == [] then []
    else
      var front, i := OpenWorkItems(issues[..|issues| - 1]), issues[|issues| - 1];
      if i.open && i.labelled then front + [i] else front
  }

  function OpenPulls(pulls: seq<Pr>): seq<Pr> {
    if pulls == [] then []
    else
      var front, p := OpenPulls(pulls[..|pulls| - 1]), pulls[|pulls| - 1];
      if p.open then front + [p] else front
  }

  function WithoutComments(issues: seq<Issue>): seq<Issue> {
    seq(|issues|, i requires 0 <= i < |issues| => issues[i].(comments := []))
  }

  /** A pull request read with its whole file list. */
  function LoadPr(pr: Pr): Result<Pr> {
    match Fetch(pr.files)
    case Raised(code) => Raised(code)
    case Ok(_) => Ok(pr)
  }

  function CurrentNumbers(issues: seq<Issue>): set<int> {
    set i | i in issues && i.currentPr.Some? :: i.currentPr.value
  }

  predicate Included(pr: Pr, current: set<int>, workItem: int) {
    pr.number in current || workItem in pr.links
  }

  /** The listed pull requests; those that matter are read with their files. */
  function LoadRows(rows: seq<Pr>, target: Pr, current: set<int>, workItem: int): Result<seq<Pr>> {
    if rows == [] then Ok([])
    else
      var row := rows[|rows| - 1];
      match LoadRows(rows[..|rows| - 1], target, current, workItem)
      case Raised(code) => Raised(code)
      case Ok(front) =>
        if row.number == target.number then Ok(front + [target])
        else if Included(row, current, workItem) then
          match LoadPr(row)
          case Raised(code) => Raised(code)
          case Ok(pr) => Ok(front + [pr])
        else Ok(front + [row.(files := [])])
  }

  function OpenIssuesFor(listed: seq<Issue>, issue: Issue): seq<Issue> {
    if issue.number in IssueNumbers(listed) then WithoutComments(listed)
    else WithoutComments(listed) + [issue.(comments := [])]
  }

  function SnapshotFromEvent(repo: Repo, number: int, now: Time): Result<Snapshot> {
    match Find(repo.pulls, number)
    case None => Raised("github_api_unavailable")
    case Some(listedTarget) =>
      match LoadPr(listedTarget)
      case Raised(code) => Raised(code)
      case Ok(target) =>
        if |target.links| != 1 then Raised("pr_must_link_exactly_one_work_item")
        else
          var workItem := target.links[0];
          match Fetch(OpenWorkItems(repo.issues))
          case Raised(code) => Raised(code)
          case Ok(listed) =>
            match FindIssue(repo.issues, workItem)
            case None => Raised("github_api_unavailable")
            case Some(issue) =>
              match Fetch(issue.comments)
              case Raised(code) => Raised(code)
              case Ok(_) =>
                match Fetch(OpenPulls(repo.pulls))
                case Raised(code) => Raised(code)
                case Ok(rows) =>
                  match LoadRows(rows, target, CurrentNumbers(listed) + {number}, workItem)
                  case Raised(code) => Raised(code)
                  case Ok(prs) => Ok(Snapshot(now, target, issue, OpenIssuesFor(listed, issue), prs))
  }

  method LoadPullRequest(pr: Pr) returns (r: Result<Pr>)
    ensures r == LoadPr(pr)
  {
    var files := GetPaginated(pr.files);
    if files.Raised? {
      return Raised(files.code);
    }
    return Ok(pr.(files := files.value));
  }

  /** The reader, call by call. */
  method ReadSnapshot(repo: Repo, number: int, now: Time) returns (r: Result<Snapshot>)
    ensures r == SnapshotFromEvent(repo, number, now)
  {
    var found := Find(repo.pulls, number);
    if found.None? {
      return Raised("github_api_unavailable");
    }
    var loaded := LoadPullRequest(found.value);
    if loaded.Raised? {
      return Raised(loaded.code);
    }
    var target := loaded.value;
    if |target.links| != 1 {
      return Raised("pr_must_link_exactly_one_work_item");
    }
    var workItem := target.links[0];
    var issueRows := GetPaginated(OpenWorkItems(repo.issues));
    if issueRows.Raised? {
      return Raised(issueRows.code);
    }
    var openWorkItems, current := CollectIssues(issueRows.value, number);
    var issue := FindIssue(repo.issues, workItem);
    if issue.None? {
      return Raised("github_api_unavailable");
    }
    var comments := GetPaginated(issue.value.comments);
    if comments.Raised? {
      return Raised(comments.code);
    }
    SameNumbers(issueRows.value);
    if workItem !in IssueNumbers(openWorkItems) {
      FoundIssueNumber(repo.issues, workItem);
      openWorkItems := openWorkItems + [issue.value.(comments := [])];
    } else {
      FoundIssueNumber(repo.issues, workItem);
    }
    var rows := GetPaginated(OpenPulls(repo.pulls));
    if rows.Raised? {
      return Raised(rows.code);
    }
    FoundPrNumber(repo.pulls, number);
    var prs := ReadRows(rows.value, target, current, workItem);
    if prs.Raised? {
      return Raised(prs.code);
    }
    return Ok(Snapshot(now, target, issue.value, openWorkItems, prs.value));
  }

  method CollectIssues(rows: seq<Issue>, number: int) returns (issues: seq<Issue>, current: set<int>)
    ensures issues == WithoutComments(rows)
    ensures current == CurrentNumbers(rows) + {number}
  {
    issues, current := [], {number};
    for i := 0 to |rows|
      invariant issues == WithoutComments(rows[..i])
      invariant current == CurrentNumbers(rows[..i]) + {number}
    {
      assert rows[..i + 1] == rows[..i] + [rows[i]];
      issues := issues + [rows[i].(comments := [])];
      if rows[i].currentPr.Some? {
        current := current + {rows[i].currentPr.value};
      }
    }
    assert rows[..|rows|] == rows;
  }

  method ReadRows(rows: seq<Pr>, target: Pr, current: set<int>, workItem: int) returns (r: Result<seq<Pr>>)
    ensures r == LoadRows(rows, target, current, workItem)
  {
    var prs: seq<Pr> := [];
    for i := 0 to |rows|
      invariant LoadRows(rows[..i], target, current, workItem) == Ok(prs)
    {
      assert rows[..i + 1][..i] == rows[..i];
      var row := rows[i];
      if row.number == target.number {
        prs := prs + [target];
      } else if Included(row, current, workItem) {
        var pr := LoadPullRequest(row);
        if pr.Raised? {
          RowsRaise(rows, target, current, workItem, i + 1, pr.code);
          return Raised(pr.code);
        }
        prs := prs + [pr.value];
      } else {
        prs := prs + [row.(files := [])];
      }
    }
    assert rows[..|rows|] == rows;
    return Ok(prs);
  }

  lemma {:induction false} RowsRaise(rows: seq<Pr>, target: Pr, current: set<int>, workItem: int, k: nat, code: string)
    requires k <= |rows| && LoadRows(rows[..k], target, current, workItem) == Raised(code)
    ensures LoadRows(rows, target, current, workItem) == Raised(code)
  {
    if k == |rows| {
      assert rows[..k] == rows;
    } else {
      assert rows[..|rows| - 1][..k] == rows[..k];
      RowsRaise(rows[..|rows| - 1], target, current, workItem, k, code);
    }
  }

  lemma SameNumbers(issues: seq<Issue>)
    ensures IssueNumbers(WithoutComments(issues)) == IssueNumbers(issues)
  {
    forall i | i in issues ensures i.number in IssueNumbers(WithoutComments(issues)) {
      var k :| 0 <= k < |issues| && issues[k] == i;
      assert WithoutComments(issues)[k] in WithoutComments(issues);
    }
  }

  lemma {:induction false} FoundIssueNumber(issues: seq<Issue>, number: int)
    ensures FindIssue(issues, number).Some? ==> FindIssue(issues, number).value.number == number && FindIssue(issues, number).value in issues
  {
    if issues != [] && issues[0].number != number {
      FoundIssueNumber(issues[1..], number);
    }
  }

  lemma {:induction false} FoundPrNumber(prs: seq<Pr>, number: int)
    ensures Find(prs, number).Some? ==> Find(prs, number).value.number == number && Find(prs, number).value in prs
  {
    if prs != [] && prs[0].number != number {
      FoundPrNumber(prs[1..], number);
    }
  }
}
