/** What the gauges read after a snapshot, in terms of its counts. */
module QueueMeaning {
  import opened Basics
  import opened QueueDepth

  /** A label is cut to 80 characters on both sides. */
  lemma LabelMeans(prefix: string, name: string, kind: string)
    ensures var l := LabelOf(prefix, name, kind);
            && l.name <= prefix + name && |l.name| == (if |prefix + name| < 80 then |prefix + name| else 80)
            && l.kind <= kind && |l.kind| == (if |kind| < 80 then |kind| else 80)
  {
  }

  /** `w` is the write for one count of one family. */
  ghost predicate Counts(prefix: string, families: seq<Family>, w: Write) {
    exists i, j :: 0 <= i < |families| && 0 <= j < |families[i].statuses| && IsCount(prefix, families[i], j, w)
  }

  ghost predicate IsCount(prefix: string, family: Family, j: int, w: Write) {
    0 <= j < |family.statuses|
    && w == Write(LabelOf(prefix, family.name, family.statuses[j].kind), family.statuses[j].count)
  }

  lemma {:induction false} StatusRowsHave(prefix: string, family: Family, from: nat, w: Write)
    requires from <= |family.statuses|
    ensures w in StatusRows(prefix, family.name, family.statuses[from..]) <==>
            exists j :: from <= j < |family.statuses| && IsCount(prefix, family, j, w)
    decreases |family.statuses| - from
  {
    hide LabelOf;
    if from < |family.statuses| {
      StatusRowsHave(prefix, family, from + 1, w);
      var s := family.statuses;
      assert s[from..][1..] == s[from + 1..] && s[from..][0] == s[from];
      if w == Write(LabelOf(prefix, family.name, s[from].kind), s[from].count) {
        assert IsCount(prefix, family, from, w);
      }
    }
  }

  ghost predicate InFamily(prefix: string, family: Family, w: Write) {
    exists j :: 0 <= j < |family.statuses| && IsCount(prefix, family, j, w)
  }

  lemma CountsIff(prefix: string, families: seq<Family>, w: Write)
    ensures Counts(prefix, families, w) <==> exists f :: f in families && InFamily(prefix, f, w)
  {
    hide IsCount;
    if i, j :| 0 <= i < |families| && 0 <= j < |families[i].statuses| && IsCount(prefix, families[i], j, w) {
      assert families[i] in families && InFamily(prefix, families[i], w);
    }
    if f :| f in families && InFamily(prefix, f, w) {
      var i :| 0 <= i < |families| && families[i] == f;
      var j :| 0 <= j < |f.statuses| && IsCount(prefix, f, j, w);
      assert IsCount(prefix, families[i], j, w);
    }
  }

  lemma {:induction false} RowsHaveFamilies(prefix: string, families: seq<Family>, w: Write)
    ensures w in Rows(prefix, families) <==> exists f :: f in families && InFamily(prefix, f, w)
  {
    hide IsCount, StatusRows;
    if families != [] {
      var head, rest := families[0], families[1..];
      RowsHaveFamilies(prefix, rest, w);
      StatusRowsHave(prefix, head, 0, w);
      assert head.statuses[0..] == head.statuses && families == [head] + rest;
      assert InFamily(prefix, head, w) <==> w in StatusRows(prefix, head.name, head.statuses);
      hide InFamily;
    }
  }

  lemma RowsHave(prefix: string, families: seq<Family>, w: Write)
    ensures w in Rows(prefix, families) <==> Counts(prefix, families, w)
  {
    hide Rows, Counts, InFamily;
    RowsHaveFamilies(prefix, families, w);
    CountsIff(prefix, families, w);
  }

  lemma ExportedHas(snapshot: Snapshot, w: Write)
    ensures w in Exported(snapshot) <==>
            || Counts("background:", snapshot.background, w) || Counts("outbound:", snapshot.outbound, w)
            || w == Write(Label("background:all", "stale_processing"), snapshot.staleBackground)
            || w == Write(Label("outbound:all", "stale_processing"), snapshot.staleOutbound)
  {
    RowsHave("background:", snapshot.background, w);
    RowsHave("outbound:", snapshot.outbound, w);
    hide Rows, Counts;
    assert w in Aggregates(snapshot) <==> w == Aggregates(snapshot)[0] || w == Aggregates(snapshot)[1];
  }

  // ----- The reading of every label -----

  /** Each queue and channel reads its own counts, the two aggregates read
      theirs, and every other label reads zero. */
  ghost predicate Reports(gauge: map<Label, int>, snapshot: Snapshot) {
    && (forall i, j :: 0 <= i < |snapshot.background| && 0 <= j < |snapshot.background[i].statuses| ==>
          Reading(gauge, Label("background:" + snapshot.background[i].name, snapshot.background[i].statuses[j].kind))
          == snapshot.background[i].statuses[j].count)
    && (forall i, j :: 0 <= i < |snapshot.outbound| && 0 <= j < |snapshot.outbound[i].statuses| ==>
          Reading(gauge, Label("outbound:" + snapshot.outbound[i].name, snapshot.outbound[i].statuses[j].kind))
          == snapshot.outbound[i].statuses[j].count)
    && Reading(gauge, Label("background:all", "stale_processing")) == snapshot.staleBackground
    && Reading(gauge, Label("outbound:all", "stale_processing")) == snapshot.staleOutbound
    && (forall l :: !Named(snapshot, l) ==> Reading(gauge, l) == 0)
  }

  ghost predicate NamedIn(prefix: string, families: seq<Family>, l: Label) {
    exists i, j :: 0 <= i < |families| && 0 <= j < |families[i].statuses|
                   && l == Label(prefix + families[i].name, families[i].statuses[j].kind)
  }

  ghost predicate Named(snapshot: Snapshot, l: Label) {
    || NamedIn("background:", snapshot.background, l) || NamedIn("outbound:", snapshot.outbound, l)
    || l == Label("background:all", "stale_processing") || l == Label("outbound:all", "stale_processing")
  }

  lemma FitLabel(prefix: string, family: Family, j: int)
    requires |prefix + family.name| <= LABEL_WIDTH && FitStatuses(family.statuses) && 0 <= j < |family.statuses|
    ensures LabelOf(prefix, family.name, family.statuses[j].kind) == Label(prefix + family.name, family.statuses[j].kind)
  {
  }

  lemma ReadsWrite(gauge: map<Label, int>, snapshot: Snapshot, w: Write)
    requires Agrees(gauge, snapshot) && NoCollision(Exported(snapshot)) && w in Exported(snapshot)
    ensures Reading(gauge, w.at) == w.value
  {
    hide Exported, Reading, LastCount, NoCollision;
    var k :| 0 <= k < |Exported(snapshot)| && Exported(snapshot)[k] == w;
    CountIsExact(Exported(snapshot), k);
  }

  lemma ReadsFamily(gauge: map<Label, int>, snapshot: Snapshot, prefix: string, families: seq<Family>, i: int, j: int)
    requires Agrees(gauge, snapshot) && NoCollision(Exported(snapshot)) && FitNames(prefix, families)
    requires (prefix == "background:" && families == snapshot.background) || (prefix == "outbound:" && families == snapshot.outbound)
    requires 0 <= i < |families| && 0 <= j < |families[i].statuses|
    ensures Reading(gauge, Label(prefix + families[i].name, families[i].statuses[j].kind)) == families[i].statuses[j].count
  {
    FitLabel(prefix, families[i], j);
    hide Exported, Reading, LastCount, NoCollision, Agrees, LabelOf, FitNames;
    var w := Write(LabelOf(prefix, families[i].name, families[i].statuses[j].kind), families[i].statuses[j].count);
    assert IsCount(prefix, families[i], j, w);
    ExportedHas(snapshot, w);
    ReadsWrite(gauge, snapshot, w);
  }

  lemma CountIsNamed(prefix: string, families: seq<Family>, w: Write)
    requires FitNames(prefix, families) && Counts(prefix, families, w)
    ensures NamedIn(prefix, families, w.at)
  {
    var i, j :| 0 <= i < |families| && 0 <= j < |families[i].statuses| && IsCount(prefix, families[i], j, w);
    FitLabel(prefix, families[i], j);
    hide LabelOf;
  }

  lemma UnnamedReadsZero(gauge: map<Label, int>, snapshot: Snapshot, l: Label)
    requires Agrees(gauge, snapshot) && Fits(snapshot) && !Named(snapshot, l)
    ensures Reading(gauge, l) == 0
  {
    hide Exported, Reading, LastCount, Counts, NamedIn, FitNames;
    var rows := Exported(snapshot);
    if l in LabelsOf(rows) {
      var k :| 0 <= k < |rows| && rows[k].at == l;
      ExportedHas(snapshot, rows[k]);
      if Counts("background:", snapshot.background, rows[k]) {
        CountIsNamed("background:", snapshot.background, rows[k]);
      }
      if Counts("outbound:", snapshot.outbound, rows[k]) {
        CountIsNamed("outbound:", snapshot.outbound, rows[k]);
      }
    }
    ReadingAfter(map[], rows, l);
  }

  lemma AgreementReports(gauge: map<Label, int>, snapshot: Snapshot)
    requires Agrees(gauge, snapshot) && Fits(snapshot)
    ensures Reports(gauge, snapshot)
  {
    FitLabelsNeverCollide(snapshot);
    hide Exported, Reading, NoCollision, Agrees, LabelOf, FitNames, Named;
    var b, o := snapshot.background, snapshot.outbound;
    forall i, j | 0 <= i < |b| && 0 <= j < |b[i].statuses|
      ensures Reading(gauge, Label("background:" + b[i].name, b[i].statuses[j].kind)) == b[i].statuses[j].count
    {
      ReadsFamily(gauge, snapshot, "background:", b, i, j);
    }
    forall i, j | 0 <= i < |o| && 0 <= j < |o[i].statuses|
      ensures Reading(gauge, Label("outbound:" + o[i].name, o[i].statuses[j].kind)) == o[i].statuses[j].count
    {
      ReadsFamily(gauge, snapshot, "outbound:", o, i, j);
    }
    var wb := Write(Label("background:all", "stale_processing"), snapshot.staleBackground);
    var wo := Write(Label("outbound:all", "stale_processing"), snapshot.staleOutbound);
    ExportedHas(snapshot, wb);
    ExportedHas(snapshot, wo);
    ReadsWrite(gauge, snapshot, wb);
    ReadsWrite(gauge, snapshot, wo);
    forall l | !Named(snapshot, l) ensures Reading(gauge, l) == 0 {
      UnnamedReadsZero(gauge, snapshot, l);
    }
  }

  /** After any run of calls none of which raises, every gauge reads what the
      latest snapshot counts. */
  lemma GaugesReport(polls: seq<Poll>)
    requires NeverFails(FRESH, polls)
    requires Latest(FRESH, polls).Some? ==> Fits(Latest(FRESH, polls).value)
    ensures Latest(FRESH, polls).Some? ==> Reports(Run(FRESH, polls).gauge, Latest(FRESH, polls).value)
  {
    hide NeverFails, Reports, Fits, Agrees;
    GaugesAgree(polls);
    if Latest(FRESH, polls).Some? {
      AgreementReports(Run(FRESH, polls).gauge, Latest(FRESH, polls).value);
    }
  }

  /** One call: only the background worker, and only once the interval has
      passed, takes a snapshot; one that completes remembers its labels. */
  lemma CallMeans(s: State, poll: Poll)
    requires Walks(poll)
    ensures poll.queue != "background" || poll.now - s.lastAt < poll.interval ==> Next(s, poll) == s
    ensures poll.queue == "background" && poll.now - s.lastAt >= poll.interval ==>
              && Next(s, poll).lastAt == poll.now
              && (poll.fault.None? && Fits(poll.snapshot) ==> forall l :: l in Next(s, poll).labels <==> Named(poll.snapshot, l))
              && (poll.fault == Some(0) ==> Next(s, poll).gauge == s.gauge && Next(s, poll).labels == s.labels)
  {
    hide Exported, Zeros, Named, Fits;
    if Due(s, poll) {
      if poll.fault.None? && Fits(poll.snapshot) {
        forall l ensures l in LabelsOf(Exported(poll.snapshot)) <==> Named(poll.snapshot, l) {
          LabelsAreNames(poll.snapshot, l);
        }
      }
      assert Writes(s.labels, poll)[..0] == [];
    }
  }

  lemma LabelsAreNames(snapshot: Snapshot, l: Label)
    requires Fits(snapshot)
    ensures l in LabelsOf(Exported(snapshot)) <==> Named(snapshot, l)
  {
    hide Exported, Counts, FitNames;
    var rows := Exported(snapshot);
    if l in LabelsOf(rows) {
      var k :| 0 <= k < |rows| && rows[k].at == l;
      ExportedHas(snapshot, rows[k]);
      if Counts("background:", snapshot.background, rows[k]) {
        CountIsNamed("background:", snapshot.background, rows[k]);
      }
      if Counts("outbound:", snapshot.outbound, rows[k]) {
        CountIsNamed("outbound:", snapshot.outbound, rows[k]);
      }
    }
    if Named(snapshot, l) {
      var w := NameIsWritten(snapshot, l);
      var k :| 0 <= k < |rows| && rows[k] == w;
    }
  }

  lemma NameIsWritten(snapshot: Snapshot, l: Label) returns (w: Write)
    requires Fits(snapshot) && Named(snapshot, l)
    ensures w in Exported(snapshot) && w.at == l
  {
    hide Exported, LabelOf;
    var b, o := snapshot.background, snapshot.outbound;
    if NamedIn("background:", b, l) {
      var i, j :| 0 <= i < |b| && 0 <= j < |b[i].statuses| && l == Label("background:" + b[i].name, b[i].statuses[j].kind);
      FitLabel("background:", b[i], j);
      w := Write(l, b[i].statuses[j].count);
      assert IsCount("background:", b[i], j, w);
    } else if NamedIn("outbound:", o, l) {
      var i, j :| 0 <= i < |o| && 0 <= j < |o[i].statuses| && l == Label("outbound:" + o[i].name, o[i].statuses[j].kind);
      FitLabel("outbound:", o[i], j);
      w := Write(l, o[i].statuses[j].count);
      assert IsCount("outbound:", o[i], j, w);
    } else {
      w := Write(l, if l.name == "background:all" then snapshot.staleBackground else snapshot.staleOutbound);
      assert "background:all"[0] != "outbound:all"[0];
    }
    ExportedHas(snapshot, w);
  }
}
