/** What the small functions of the gate mean for the records they read, each
    said without the function itself. */
module GateBasics {
  import opened Basics
  import opened Paths
  import opened Gate
  import opened Exclusion

  // ----- The open pull requests -----

  /** The entry of a number that the dictionary keeps: the last one listed. */
  ghost predicate LastListed(prs: seq<Pr>, pr: Pr) {
    exists i :: 0 <= i < |prs| && prs[i] == pr && forall j :: i < j < |prs| ==> prs[j].number != pr.number
  }

  /** The open pull requests of a snapshot, and the target if it is not one. */
  ghost predicate Listed(s: Snapshot, pr: Pr) {
    LastListed(s.openPrs, pr)
    || (pr == s.target && forall i :: 0 <= i < |s.openPrs| ==> s.openPrs[i].number != pr.number)
  }

  lemma {:induction false} UpsertHas(prs: seq<Pr>, pr: Pr, x: Pr)
    requires UniqueNumbers(prs)
    ensures UniqueNumbers(Upsert(prs, pr))
    ensures x in Upsert(prs, pr) <==> x == pr || (x in prs && x.number != pr.number)
  {
    if prs != [] && prs[0].number != pr.number {
      UpsertHas(prs[1..], pr, x);
      UpsertNumbers(prs[1..], pr);
      assert prs == [prs[0]] + prs[1..];
      assert forall i :: 0 <= i < |prs[1..]| ==> prs[1..][i].number != prs[0].number;
    }
  }

  lemma {:induction false} UpsertNumbers(prs: seq<Pr>, pr: Pr)
    ensures forall k :: 0 <= k < |Upsert(prs, pr)| ==>
              Upsert(prs, pr)[k] == pr || exists i :: 0 <= i < |prs| && prs[i] == Upsert(prs, pr)[k]
  {
    if prs != [] && prs[0].number != pr.number {
      UpsertNumbers(prs[1..], pr);
      forall k | 1 <= k < |Upsert(prs, pr)|
        ensures Upsert(prs, pr)[k] == pr || exists i :: 0 <= i < |prs| && prs[i] == Upsert(prs, pr)[k]
      {
        var rest := Upsert(prs[1..], pr);
        if rest[k - 1] != pr {
          var i :| 0 <= i < |prs[1..]| && prs[1..][i] == rest[k - 1];
          assert prs[i + 1] == rest[k - 1];
        }
      }
    }
  }

  lemma LastListedStep(prs: seq<Pr>, x: Pr)
    requires prs != []
    ensures var last := prs[|prs| - 1];
            LastListed(prs, x) <==> x == last || (LastListed(prs[..|prs| - 1], x) && x.number != last.number)
  {
    var front, last := prs[..|prs| - 1], prs[|prs| - 1];
    if i :| 0 <= i < |prs| && prs[i] == x && forall j :: i < j < |prs| ==> prs[j].number != x.number {
      if i < |front| {
        assert front[i] == x && forall j :: i < j < |front| ==> front[j] == prs[j];
      }
    }
    if LastListed(front, x) && x.number != last.number {
      var i :| 0 <= i < |front| && front[i] == x && forall j :: i < j < |front| ==> front[j].number != x.number;
      assert prs[i] == x && forall j :: i < j < |prs| ==> prs[j].number != x.number;
    }
    if x == last {
      assert prs[|prs| - 1] == x;
    }
  }

  lemma {:induction false} ByNumberHas(prs: seq<Pr>, x: Pr)
    ensures UniqueNumbers(ByNumber(prs))
    ensures x in ByNumber(prs) <==> LastListed(prs, x)
  {
    hide LastListed;
    if prs == [] {
      NothingListed(x);
    } else {
      ByNumberHas(prs[..|prs| - 1], x);
      UpsertHas(ByNumber(prs[..|prs| - 1]), prs[|prs| - 1], x);
      LastListedStep(prs, x);
    }
  }

  lemma NothingListed(x: Pr)
    ensures !LastListed([], x)
  {
  }

  /** A number that is listed at all has a last entry. */
  lemma {:induction false} SomeIsLast(prs: seq<Pr>, i: nat) returns (pr: Pr)
    requires i < |prs|
    ensures LastListed(prs, pr) && pr.number == prs[i].number
  {
    var last := prs[|prs| - 1];
    hide LastListed;
    if last.number == prs[i].number {
      pr := last;
      LastListedStep(prs, pr);
    } else {
      pr := SomeIsLast(prs[..|prs| - 1], i);
      LastListedStep(prs, pr);
    }
  }

  lemma OpenPrsAre(s: Snapshot)
    ensures UniqueNumbers(OpenPrs(s))
    ensures forall pr :: pr in OpenPrs(s) <==> Listed(s, pr)
  {
    var prs := ByNumber(s.openPrs);
    ByNumberHas(s.openPrs, s.target);
    FindAbsent(prs, s.target.number);
    NumbersAgree(s.openPrs, s.target.number);
    hide LastListed, ByNumber, Find;
    forall pr ensures pr in OpenPrs(s) <==> Listed(s, pr) {
      ByNumberHas(s.openPrs, pr);
    }
    if Find(prs, s.target.number).None? {
      assert forall i :: 0 <= i < |prs| ==> prs[i].number != s.target.number;
    }
  }

  lemma {:induction false} FindAbsent(prs: seq<Pr>, n: int)
    ensures Find(prs, n).None? <==> forall i :: 0 <= i < |prs| ==> prs[i].number != n
    ensures Find(prs, n).Some? ==> Find(prs, n).value in prs && Find(prs, n).value.number == n
  {
    if prs != [] {
      FindAbsent(prs[1..], n);
      assert forall i :: 0 < i < |prs| ==> prs[i] == prs[1..][i - 1];
      assert forall i :: 0 <= i < |prs[1..]| ==> prs[1..][i] == prs[i + 1];
    }
  }

  lemma NumbersAgree(prs: seq<Pr>, n: int)
    ensures (forall i :: 0 <= i < |ByNumber(prs)| ==> ByNumber(prs)[i].number != n)
            <==> (forall i :: 0 <= i < |prs| ==> prs[i].number != n)
  {
    hide ByNumber;
    if i :| 0 <= i < |prs| && prs[i].number == n {
      var pr := SomeIsLast(prs, i);
      ByNumberHas(prs, pr);
      var k :| 0 <= k < |ByNumber(prs)| && ByNumber(prs)[k] == pr;
    }
    if k :| 0 <= k < |ByNumber(prs)| && ByNumber(prs)[k].number == n {
      ByNumberHas(prs, ByNumber(prs)[k]);
      var i :| 0 <= i < |prs| && prs[i] == ByNumber(prs)[k];
    }
  }

  // ----- Which of them close the work item -----

  /** Exactly one open pull request, the target counted among them, closes it. */
  ghost predicate SoleCloser(s: Snapshot) {
    exists pr :: Listed(s, pr) && s.workItem.number in pr.links
                 && forall q :: Listed(s, q) && s.workItem.number in q.links ==> q == pr
  }

  lemma {:induction false} NobodyCloses(prs: seq<Pr>, item: int)
    ensures ClosingPrs(prs, item) == [] <==> forall q :: q in prs ==> item !in q.links
  {
    if prs != [] {
      NobodyCloses(prs[..|prs| - 1], item);
      assert prs == prs[..|prs| - 1] + [prs[|prs| - 1]];
    }
  }

  lemma LastIsNew(prs: seq<Pr>)
    requires prs != [] && UniqueNumbers(prs)
    ensures UniqueNumbers(prs[..|prs| - 1]) && prs[|prs| - 1] !in prs[..|prs| - 1]
    ensures forall q :: q in prs <==> q in prs[..|prs| - 1] || q == prs[|prs| - 1]
  {
    var front, last := prs[..|prs| - 1], prs[|prs| - 1];
    assert prs == front + [last];
    assert forall i :: 0 <= i < |front| ==> front[i] == prs[i] && front[i] != last;
  }

  ghost predicate OneCloses(prs: seq<Pr>, item: int) {
    exists pr :: pr in prs && item in pr.links && forall q :: q in prs && item in q.links ==> q == pr
  }

  lemma OneClosesStep(prs: seq<Pr>, front: seq<Pr>, last: Pr, item: int)
    requires last !in front && forall q :: q in prs <==> q in front || q == last
    ensures OneCloses(prs, item) <==>
            if item in last.links then forall q :: q in front ==> item !in q.links else OneCloses(front, item)
  {
  }

  lemma NothingCloses(item: int)
    ensures !OneCloses([], item) && ClosingPrs([], item) == []
  {
  }

  lemma {:induction false} OneClosesIff(prs: seq<Pr>, item: int)
    requires UniqueNumbers(prs)
    ensures |ClosingPrs(prs, item)| == 1 <==> OneCloses(prs, item)
  {
    hide OneCloses, UniqueNumbers, ClosingPrs;
    if prs == [] {
      NothingCloses(item);
    } else {
      var front, last := prs[..|prs| - 1], prs[|prs| - 1];
      LastIsNew(prs);
      OneClosesIff(front, item);
      NobodyCloses(front, item);
      OneClosesStep(prs, front, last, item);
      ClosingStep(prs, item);
    }
  }

  lemma ClosingStep(prs: seq<Pr>, item: int)
    requires prs != []
    ensures var front := ClosingPrs(prs[..|prs| - 1], item);
            |ClosingPrs(prs, item)| == |front| + if item in prs[|prs| - 1].links then 1 else 0
    ensures |ClosingPrs(prs[..|prs| - 1], item)| == 0 <==> ClosingPrs(prs[..|prs| - 1], item) == []
  {
  }

  lemma SoleCloserIff(s: Snapshot)
    ensures |ClosingPrs(OpenPrs(s), s.workItem.number)| == 1 <==> SoleCloser(s)
  {
    hide ClosingPrs, OpenPrs, Listed;
    OpenPrsAre(s);
    OneClosesIff(OpenPrs(s), s.workItem.number);
  }

  // ----- Issues, tokens and files -----

  /** The last listed issue that names a pull request is the one it counts for. */
  lemma {:induction false} CurrentPrIs(issues: seq<Issue>, n: int) returns (i: nat)
    requires n in CurrentPrs(issues)
    ensures i < |issues| && issues[i].currentPr == Some(n) && CurrentPrs(issues)[n] == issues[i].number
    ensures forall j :: i < j < |issues| ==> issues[j].currentPr != Some(n)
  {
    if issues[|issues| - 1].currentPr == Some(n) {
      i := |issues| - 1;
    } else {
      i := CurrentPrIs(issues[..|issues| - 1], n);
    }
  }

  lemma AllPathSpecsAre(m: Manifest)
    ensures forall spec :: spec in m.AllPathSpecs() <==> spec in m.writePaths || spec in m.generatedFiles || spec in m.workflows
    ensures NoDuplicates(m.AllPathSpecs())
  {
  }

  /** `part` stands in `text` from index `i` on, capital letters counting as small ones if `fold`. */
  ghost predicate StandsAt(text: string, part: string, i: int, fold: bool) {
    0 <= i <= |text| - |part| &&
    forall k :: 0 <= k < |part| ==>
      text[i + k] == part[k] || (fold && 'A' <= text[i + k] <= 'Z' && text[i + k] as int + 32 == part[k] as int)
  }

  ghost predicate Small(s: string) {
    forall k :: 0 <= k < |s| ==> !('A' <= s[k] <= 'Z')
  }

  lemma LowerAt(c: char)
    ensures if 'A' <= c <= 'Z' then LowerChar(c) as int == c as int + 32 else LowerChar(c) == c
    ensures !('A' <= LowerChar(c) <= 'Z')
  {
  }

  lemma FoldAt(text: string, part: string, i: int)
    requires Small(part)
    ensures StandsAt(text, part, i, true) <==> 0 <= i <= |text| && part <= Lower(text)[i..]
  {
    if 0 <= i <= |text| - |part| {
      forall k | 0 <= k < |part|
        ensures Lower(text)[i..][k] == part[k] <==>
                text[i + k] == part[k] || ('A' <= text[i + k] <= 'Z' && text[i + k] as int + 32 == part[k] as int)
      {
        LowerAt(text[i + k]);
      }
      hide Lower, LowerChar;
      if part <= Lower(text)[i..] {
        assert forall k :: 0 <= k < |part| ==> Lower(text)[i..][k] == part[k];
      }
    }
  }

  lemma IsMigrationMeans(path: string)
    ensures IsMigration(path) <==> exists i :: StandsAt(path, "/versions/", i, false) || StandsAt(path, "migration", i, true)
  {
    assert Small("migration");
    hide Lower;
    assert Contains(path, "/versions/") <==> exists i :: StandsAt(path, "/versions/", i, false) by {
      if i :| 0 <= i <= |path| && "/versions/" <= path[i..] {
        assert StandsAt(path, "/versions/", i, false);
      }
      if i :| StandsAt(path, "/versions/", i, false) {
        assert "/versions/" <= path[i..];
      }
    }
    assert |Lower(path)| == |path| by { LowerLength(path); }
    forall i ensures StandsAt(path, "migration", i, true) <==> 0 <= i <= |path| && "migration" <= Lower(path)[i..] {
      FoldAt(path, "migration", i);
    }
  }

  lemma LowerLength(s: string)
    ensures |Lower(s)| == |s|
  {
  }

  /** `none`, `n/a` and `not_applicable`, in any mixture of case, hold no resource. */
  lemma PlaceholderMeans(value: string)
    ensures Placeholder(value) <==>
            value == "" || exists word :: word in {"none", "n/a", "not_applicable"} && |word| == |value| && StandsAt(value, word, 0, true)
  {
    assert Small("none") && Small("n/a") && Small("not_applicable");
    LowerIs(value, "none");
    LowerIs(value, "n/a");
    LowerIs(value, "not_applicable");
    hide Lower, StandsAt;
  }

  lemma LowerIs(value: string, word: string)
    requires Small(word)
    ensures Lower(value) == word <==> |word| == |value| && StandsAt(value, word, 0, true)
  {
    FoldAt(value, word, 0);
    LowerLength(value);
    hide Lower, StandsAt;
    assert Lower(value)[0..] == Lower(value);
  }

  lemma {:induction false} SafeFilesAre(text: TextPolicy, files: seq<string>)
    ensures SafeFiles(text, files).Some? <==> forall f :: f in files ==> text.safe(f).Some?
    ensures SafeFiles(text, files).Some? ==>
              forall p :: p in SafeFiles(text, files).value <==> exists f :: f in files && text.safe(f).Some? && p == Normalize(text.safe(f).value)
  {
    hide Normalize;
    if files != [] {
      var front, last := files[..|files| - 1], files[|files| - 1];
      SafeFilesAre(text, front);
      assert files == front + [last];
    }
  }

  /** The changed files are the accepted names without leading dots and slashes,
      each once; one name that is not accepted spoils them all. */
  lemma ChangedFilesAre(text: TextPolicy, pr: Pr)
    ensures ChangedFiles(text, pr).Some? <==> forall f :: f in pr.files ==> text.safe(f).Some?
    ensures ChangedFiles(text, pr).Some? ==>
              && NoDuplicates(ChangedFiles(text, pr).value)
              && forall p :: p in ChangedFiles(text, pr).value <==>
                             exists f :: f in pr.files && text.safe(f).Some? && p == Normalize(text.safe(f).value)
  {
    SafeFilesAre(text, pr.files);
    hide Normalize, SafeFiles;
  }
}
