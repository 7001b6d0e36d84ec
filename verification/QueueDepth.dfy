/** The queue-depth exporter: a gauge per label, and the set of labels that the
    last completed snapshot wrote, which is all it remembers for zeroing. */
module QueueDepth {
  import opened Basics

  const LABEL_WIDTH: nat := 80

  datatype Label = Label(name: string, kind: string)

  datatype Write = Write(at: Label, value: int)

  datatype Status = Status(kind: string, count: int)

  datatype Family = Family(name: string, statuses: seq<Status>)

  datatype Snapshot = Snapshot(background: seq<Family>, outbound: seq<Family>,
                               staleBackground: int, staleOutbound: int)

  /** One call. `fault == Some(k)`: an exception is raised once `k` gauges have
      been written. `walk` is the order in which a set is iterated. */
  datatype Poll = Poll(queue: string, now: real, interval: real, snapshot: Snapshot, fault: Option<nat>,
                       walk: set<Label> -> seq<Label>)

  datatype State = State(gauge: map<Label, int>, labels: set<Label>, lastAt: real)

  const FRESH := State(map[], {}, 0.0)

  // ----- What one call writes -----

  function LabelOf(prefix: string, name: string, kind: string): Label {
    Label(Take(prefix + name, LABEL_WIDTH), Take(kind, LABEL_WIDTH))
  }

  function StatusRows(prefix: string, name: string, statuses: seq<Status>): seq<Write> {
    if statuses == [] then []
    else [Write(LabelOf(prefix, name, statuses[0].kind), statuses[0].count)] + StatusRows(prefix, name, statuses[1..])
  }

  function Rows(prefix: string, families: seq<Family>): seq<Write> {
    if families == [] then []
    else StatusRows(prefix, families[0].name, families[0].statuses) + Rows(prefix, families[1..])
  }

  function Aggregates(snapshot: Snapshot): seq<Write> {
    [Write(Label("background:all", "stale_processing"), snapshot.staleBackground),
     Write(Label("outbound:all", "stale_processing"), snapshot.staleOutbound)]
  }

  function Exported(snapshot: Snapshot): seq<Write> {
    Rows("background:", snapshot.background) + Rows("outbound:", snapshot.outbound) + Aggregates(snapshot)
  }

  function LabelsOf(writes: seq<Write>): set<Label> {
    set i | 0 <= i < |writes| :: writes[i].at
  }

  function Zeros(labels: seq<Label>): seq<Write> {
    seq(|labels|, i requires 0 <= i < |labels| => Write(labels[i], 0))
  }

  function Writes(labels: set<Label>, poll: Poll): seq<Write> {
    Exported(poll.snapshot) + Zeros(poll.walk(labels - LabelsOf(Exported(poll.snapshot))))
  }

  function Apply(gauge: map<Label, int>, writes: seq<Write>): map<Label, int> {
    if writes == [] then gauge
    else Apply(gauge, writes[..|writes| - 1])[writes[|writes| - 1].at := writes[|writes| - 1].value]
  }

  ghost predicate Walks(poll: Poll) {
    forall s, l :: l in poll.walk(s) <==> l in s
  }

  predicate Due(s: State, poll: Poll) {
    poll.queue == "background" && poll.now - s.lastAt >= poll.interval
  }

  predicate Completes(s: State, poll: Poll) {
    Due(s, poll) && (poll.fault.Some? ==> poll.fault.value > |Writes(s.labels, poll)|)
  }

  function Next(s: State, poll: Poll): State {
    if !Due(s, poll) then s
    else
      var writes := Writes(s.labels, poll);
      if Completes(s, poll) then State(Apply(s.gauge, writes), LabelsOf(Exported(poll.snapshot)), poll.now)
      else State(Apply(s.gauge, writes[..poll.fault.value]), s.labels, poll.now)
  }

  /** Publishing `writes` as the calls number `first` onwards, up to the one
      that raises, takes the gauges from `was` to `gauge`. */
  ghost predicate Published(was: map<Label, int>, writes: seq<Write>, fault: Option<nat>, first: nat,
                            gauge: map<Label, int>, done: nat, raised: bool) {
    && (raised <==> fault.Some? && first <= fault.value < first + |writes|)
    && done == (if raised then fault.value else first + |writes|)
    && gauge == Apply(was, writes[..done - first])
  }

  class Exporter {
    var gauge: map<Label, int>
    var labels: set<Label>
    var lastAt: real

    ghost function Value(): State reads this { State(gauge, labels, lastAt) }

    constructor ()
      ensures Value() == FRESH
    {
      gauge, labels, lastAt := map[], {}, 0.0;
    }

    method Record(w: Write, fault: Option<nat>, first: nat) returns (done: nat, raised: bool)
      modifies this`gauge
      ensures Published(old(gauge), [w], fault, first, gauge, done, raised)
    {
      if fault == Some(first) {
        return first, true;
      }
      gauge := gauge[w.at := w.value];
      assert [w][..1] == [w] && [w][..0] == [];
      return first + 1, false;
    }

    method PublishStatuses(prefix: string, name: string, statuses: seq<Status>, fault: Option<nat>, first: nat)
      returns (current: set<Label>, done: nat, raised: bool)
      modifies this`gauge
      ensures Published(old(gauge), StatusRows(prefix, name, statuses), fault, first, gauge, done, raised)
      ensures !raised ==> current == LabelsOf(StatusRows(prefix, name, statuses))
    {
      hide Published, Apply, LabelsOf;
      ghost var written: seq<Write> := [];
      current, done, raised := {}, first, false;
      PublishedNothing(gauge, fault, first);
      for j := 0 to |statuses|
        invariant StatusRows(prefix, name, statuses) == written + StatusRows(prefix, name, statuses[j..])
        invariant Published(old(gauge), written, fault, first, gauge, done, false) && current == LabelsOf(written)
      {
        var key := LabelOf(prefix, name, statuses[j].kind);
        ghost var between, w := gauge, Write(key, statuses[j].count);
        ghost var at := done;
        current := current + {key};
        done, raised := Record(Write(key, statuses[j].count), fault, done);
        LabelsExtend(written, w);
        PublishedThen(old(gauge), written, [w], fault, first, at, between, gauge, done, raised);
        written := written + [w];
        assert StatusRows(prefix, name, statuses[j..]) == [w] + StatusRows(prefix, name, statuses[j + 1..]);
        if raised {
          PublishedPart(old(gauge), written, StatusRows(prefix, name, statuses[j + 1..]), fault, first, gauge, done);
          assert StatusRows(prefix, name, statuses) == written + StatusRows(prefix, name, statuses[j + 1..]);
          return;
        }
      }
      assert StatusRows(prefix, name, statuses) == written;
    }

    method PublishFamilies(prefix: string, families: seq<Family>, fault: Option<nat>, first: nat)
      returns (current: set<Label>, done: nat, raised: bool)
      modifies this`gauge
      ensures Published(old(gauge), Rows(prefix, families), fault, first, gauge, done, raised)
      ensures !raised ==> current == LabelsOf(Rows(prefix, families))
    {
      hide Published, Apply, LabelsOf;
      ghost var written: seq<Write> := [];
      current, done, raised := {}, first, false;
      PublishedNothing(gauge, fault, first);
      for i := 0 to |families|
        invariant Rows(prefix, families) == written + Rows(prefix, families[i..])
        invariant Published(old(gauge), written, fault, first, gauge, done, false) && current == LabelsOf(written)
      {
        ghost var between, at := gauge, done;
        ghost var rows := StatusRows(prefix, families[i].name, families[i].statuses);
        var more;
        more, done, raised := PublishStatuses(prefix, families[i].name, families[i].statuses, fault, done);
        LabelsJoin(written, rows);
        PublishedThen(old(gauge), written, rows, fault, first, at, between, gauge, done, raised);
        written := written + rows;
        assert families[i..][1..] == families[i + 1..];
        assert Rows(prefix, families) == written + Rows(prefix, families[i + 1..]);
        if raised {
          PublishedPart(old(gauge), written, Rows(prefix, families[i + 1..]), fault, first, gauge, done);
          return;
        }
        current := current + more;
      }
      assert Rows(prefix, families) == written;
    }

    method PublishZeros(missing: seq<Label>, fault: Option<nat>, first: nat) returns (done: nat, raised: bool)
      modifies this`gauge
      ensures Published(old(gauge), Zeros(missing), fault, first, gauge, done, raised)
    {
      hide Published, Apply;
      done, raised := first, false;
      PublishedNothing(gauge, fault, first);
      assert Zeros(missing[..0]) == [];
      for i := 0 to |missing|
        invariant Published(old(gauge), Zeros(missing[..i]), fault, first, gauge, done, false)
      {
        ghost var between, at := gauge, done;
        done, raised := Record(Write(missing[i], 0), fault, done);
        PublishedThen(old(gauge), Zeros(missing[..i]), [Write(missing[i], 0)], fault, first, at, between, gauge, done, raised);
        assert Zeros(missing[..i + 1]) == Zeros(missing[..i]) + [Write(missing[i], 0)];
        if raised {
          assert Zeros(missing) == Zeros(missing[..i + 1]) + Zeros(missing[i + 1..]);
          PublishedPart(old(gauge), Zeros(missing[..i + 1]), Zeros(missing[i + 1..]), fault, first, gauge, done);
          return;
        }
      }
      assert missing[..|missing|] == missing;
    }

    method PublishCounts(snapshot: Snapshot, fault: Option<nat>)
      returns (current: set<Label>, done: nat, raised: bool)
      modifies this`gauge
      ensures Published(old(gauge), Exported(snapshot), fault, 0, gauge, done, raised)
      ensures !raised ==> current == LabelsOf(Exported(snapshot))
    {
      hide Published, Apply, LabelsOf, Rows;
      ghost var a, b := Rows("background:", snapshot.background), Rows("outbound:", snapshot.outbound);
      var aggregates := Aggregates(snapshot);
      assert Exported(snapshot) == a + (b + aggregates) == (a + b) + aggregates;
      current, done, raised := PublishFamilies("background:", snapshot.background, fault, 0);
      if raised {
        PublishedPart(old(gauge), a, b + aggregates, fault, 0, gauge, done);
        return;
      }
      ghost var between, at := gauge, done;
      var more;
      more, done, raised := PublishFamilies("outbound:", snapshot.outbound, fault, done);
      PublishedThen(old(gauge), a, b, fault, 0, at, between, gauge, done, raised);
      if raised {
        PublishedPart(old(gauge), a + b, aggregates, fault, 0, gauge, done);
        return;
      }
      current := current + more;
      LabelsJoin(a, b);
      assert a + b + aggregates[..0] == a + b;
      for i := 0 to 2
        invariant Published(old(gauge), a + b + aggregates[..i], fault, 0, gauge, done, false)
        invariant current == LabelsOf(a + b + aggregates[..i])
      {
        between, at := gauge, done;
        ghost var written := a + b + aggregates[..i];
        current := current + {aggregates[i].at};
        done, raised := Record(aggregates[i], fault, done);
        LabelsExtend(written, aggregates[i]);
        PublishedThen(old(gauge), written, [aggregates[i]], fault, 0, at, between, gauge, done, raised);
        assert written + [aggregates[i]] == a + b + aggregates[..i + 1];
        if raised {
          assert Exported(snapshot) == (a + b + aggregates[..i + 1]) + aggregates[i + 1..];
          PublishedPart(old(gauge), a + b + aggregates[..i + 1], aggregates[i + 1..], fault, 0, gauge, done);
          return;
        }
      }
      assert aggregates[..2] == aggregates;
    }

    method RecordIfDue(poll: Poll)
      modifies this
      ensures Value() == Next(old(Value()), poll)
    {
      if poll.queue != "background" || poll.now - lastAt < poll.interval {
        return;
      }
      lastAt := poll.now;
      ghost var all, rows := Writes(labels, poll), Exported(poll.snapshot);
      ghost var was := gauge;
      var current, done, raised := PublishCounts(poll.snapshot, poll.fault);
      ghost var zeros := Zeros(poll.walk(labels - LabelsOf(rows)));
      if raised {
        PublishedPart(was, rows, zeros, poll.fault, 0, gauge, done);
        return;
      }
      ghost var between, at := gauge, done;
      done, raised := PublishZeros(poll.walk(labels - current), poll.fault, done);
      PublishedThen(was, rows, zeros, poll.fault, 0, at, between, gauge, done, raised);
      assert all[..|all|] == all;
      if raised || poll.fault == Some(done) {
        return;
      }
      labels := current;
    }
  }

  lemma PublishedNothing(was: map<Label, int>, fault: Option<nat>, first: nat)
    ensures Published(was, [], fault, first, was, first, false)
    ensures LabelsOf([]) == {}
  {}

  lemma PublishedThen(was: map<Label, int>, a: seq<Write>, b: seq<Write>, fault: Option<nat>, first: nat, middle: nat,
                      between: map<Label, int>, gauge: map<Label, int>, done: nat, raised: bool)
    requires Published(was, a, fault, first, between, middle, false)
    requires Published(between, b, fault, middle, gauge, done, raised)
    ensures Published(was, a + b, fault, first, gauge, done, raised)
  {
    assert a[..middle - first] == a && (a + b)[..done - first] == a + b[..done - middle];
    ApplyTwice(was, a, b[..done - middle]);
  }

  lemma PublishedPart(was: map<Label, int>, a: seq<Write>, b: seq<Write>, fault: Option<nat>, first: nat,
                      gauge: map<Label, int>, done: nat)
    requires Published(was, a, fault, first, gauge, done, true)
    ensures Published(was, a + b, fault, first, gauge, done, true)
  {
    assert (a + b)[..done - first] == a[..done - first];
  }

  lemma LabelsExtend(writes: seq<Write>, w: Write)
    ensures LabelsOf(writes + [w]) == LabelsOf(writes) + {w.at}
  {
    LabelsJoin(writes, [w]);
    assert LabelsOf([w]) == {w.at} by { assert [w][0] == w; }
  }

  lemma LabelsJoin(a: seq<Write>, b: seq<Write>)
    ensures LabelsOf(a + b) == LabelsOf(a) + LabelsOf(b)
  {
    forall l | l in LabelsOf(a) + LabelsOf(b) ensures l in LabelsOf(a + b) {
      if l in LabelsOf(a) {
        var i :| 0 <= i < |a| && a[i].at == l;
        assert (a + b)[i] == a[i];
      } else {
        var i :| 0 <= i < |b| && b[i].at == l;
        assert (a + b)[|a| + i] == b[i];
      }
    }
  }

  lemma {:induction false} ApplyTwice(gauge: map<Label, int>, a: seq<Write>, b: seq<Write>)
    ensures Apply(Apply(gauge, a), b) == Apply(gauge, a + b)
  {
    if b == [] {
      assert a + b == a;
    } else {
      ApplyTwice(gauge, a, b[..|b| - 1]);
      assert (a + b)[..|a + b| - 1] == a + b[..|b| - 1];
    }
  }

  // ----- What the gauges read -----

  function Reading(gauge: map<Label, int>, l: Label): int {
    if l in gauge then gauge[l] else 0
  }

  /** The last count written for a label, zero when there is none. */
  function LastCount(writes: seq<Write>, l: Label): int {
    if writes == [] then 0
    else if writes[|writes| - 1].at == l then writes[|writes| - 1].value
    else LastCount(writes[..|writes| - 1], l)
  }

  /** Every label reads what the snapshot says of it, and zero if it says nothing. */
  ghost predicate Agrees(gauge: map<Label, int>, snapshot: Snapshot) {
    forall l :: Reading(gauge, l) == LastCount(Exported(snapshot), l)
  }

  /** The remembered labels are enough to find every gauge that is not zero. */
  ghost predicate Covered(s: State) {
    forall l :: Reading(s.gauge, l) != 0 ==> l in s.labels
  }

  lemma FrontLabels(writes: seq<Write>)
    requires writes != []
    ensures LabelsOf(writes) == LabelsOf(writes[..|writes| - 1]) + {writes[|writes| - 1].at}
  {
    LabelsExtend(writes[..|writes| - 1], writes[|writes| - 1]);
    assert writes[..|writes| - 1] + [writes[|writes| - 1]] == writes;
  }

  lemma {:induction false} ReadingAfter(gauge: map<Label, int>, writes: seq<Write>, l: Label)
    ensures Reading(Apply(gauge, writes), l) ==
            if l in LabelsOf(writes) then LastCount(writes, l) else Reading(gauge, l)
    ensures l !in LabelsOf(writes) ==> LastCount(writes, l) == 0
  {
    if writes != [] {
      FrontLabels(writes);
      ReadingAfter(gauge, writes[..|writes| - 1], l);
    }
  }

  lemma {:induction false} ZerosFollow(writes: seq<Write>, zeros: seq<Label>, l: Label)
    ensures LabelsOf(writes + Zeros(zeros)) == LabelsOf(writes) + set z | z in zeros
    ensures l in zeros ==> LastCount(writes + Zeros(zeros), l) == 0
    ensures l !in zeros ==> LastCount(writes + Zeros(zeros), l) == LastCount(writes, l)
  {
    if zeros == [] {
      assert writes + Zeros(zeros) == writes;
    } else {
      var front, z := zeros[..|zeros| - 1], zeros[|zeros| - 1];
      ZerosFollow(writes, front, l);
      assert writes + Zeros(zeros) == writes + Zeros(front) + [Write(z, 0)];
      LabelsExtend(writes + Zeros(front), Write(z, 0));
      assert (writes + Zeros(zeros))[..|writes + Zeros(zeros)| - 1] == writes + Zeros(front);
      assert zeros == front + [z];
    }
  }

  lemma ReadingAfterSnapshot(s: State, poll: Poll, l: Label)
    requires Walks(poll) && Completes(s, poll)
    ensures Reading(Next(s, poll).gauge, l) ==
            if l in s.labels || l in LabelsOf(Exported(poll.snapshot)) then LastCount(Exported(poll.snapshot), l)
            else Reading(s.gauge, l)
    ensures l !in LabelsOf(Exported(poll.snapshot)) ==> LastCount(Exported(poll.snapshot), l) == 0
  {
    hide Exported, Apply, LabelsOf;
    var rows := Exported(poll.snapshot);
    var zeros := poll.walk(s.labels - LabelsOf(rows));
    ZerosFollow(rows, zeros, l);
    ReadingAfter(s.gauge, rows + Zeros(zeros), l);
    ReadingAfter(map[], rows, l);
  }

  /** When a completed snapshot leaves the gauges in agreement with itself. */
  lemma AgreementIff(s: State, poll: Poll)
    requires Walks(poll) && Completes(s, poll)
    ensures Agrees(Next(s, poll).gauge, poll.snapshot) <==>
            forall l :: Reading(s.gauge, l) != 0 ==> l in s.labels || l in LabelsOf(Exported(poll.snapshot))
    ensures Agrees(Next(s, poll).gauge, poll.snapshot) <==> Covered(Next(s, poll))
  {
    hide Exported, LabelsOf, Reading, LastCount;
    forall l
      ensures Reading(Next(s, poll).gauge, l) ==
              (if l in s.labels || l in LabelsOf(Exported(poll.snapshot)) then LastCount(Exported(poll.snapshot), l)
              else Reading(s.gauge, l))
      ensures l !in LabelsOf(Exported(poll.snapshot)) ==> LastCount(Exported(poll.snapshot), l) == 0
    {
      ReadingAfterSnapshot(s, poll, l);
    }
  }

  /** An exception part-way keeps the remembered labels sufficient exactly when
      it left no new label at a count other than zero. */
  lemma FailureKeepsCoverIff(s: State, poll: Poll)
    requires Covered(s) && Walks(poll) && Due(s, poll) && !Completes(s, poll)
    ensures Covered(Next(s, poll)) <==>
            var written := Writes(s.labels, poll)[..poll.fault.value];
            forall l :: l in LabelsOf(written) && l !in s.labels ==> LastCount(written, l) == 0
  {
    hide Writes, LabelsOf, Reading, LastCount;
    var written := Writes(s.labels, poll)[..poll.fault.value];
    forall l
      ensures Reading(Next(s, poll).gauge, l) ==
              if l in LabelsOf(written) then LastCount(written, l) else Reading(s.gauge, l)
    {
      ReadingAfter(s.gauge, written, l);
    }
  }

  /** The smallest such failure: one count of a new queue goes out and the next
      publication raises. */
  lemma FailureStrands(poll: Poll, kind: Status)
    requires Walks(poll) && Due(FRESH, poll) && kind.count != 0
    requires poll.snapshot.background == [Family("jobs", [kind])] && poll.fault == Some(1)
    ensures !Covered(Next(FRESH, poll))
  {
    var w := Write(LabelOf("background:", "jobs", kind.kind), kind.count);
    assert StatusRows("background:", "jobs", [kind]) == [w];
    assert Rows("background:", poll.snapshot.background) == [w];
    assert Writes({}, poll)[..1] == [w];
    assert Apply(map[], [w]) == Apply(map[], [])[w.at := w.value];
    assert Reading(Next(FRESH, poll).gauge, w.at) == kind.count;
  }

  // ----- Runs -----

  function Run(s: State, polls: seq<Poll>): State {
    if polls == [] then s else Next(Run(s, polls[..|polls| - 1]), polls[|polls| - 1])
  }

  /** No call of the run raises; calls that are not due may be among them. */
  ghost predicate NeverFails(s: State, polls: seq<Poll>) {
    forall i :: 0 <= i < |polls| ==> Walks(polls[i]) && (Due(Run(s, polls[..i]), polls[i]) ==> Completes(Run(s, polls[..i]), polls[i]))
  }

  function Latest(s: State, polls: seq<Poll>): Option<Snapshot> {
    if polls == [] then None
    else
      var front, poll := polls[..|polls| - 1], polls[|polls| - 1];
      if Due(Run(s, front), poll) then Some(poll.snapshot) else Latest(s, front)
  }

  lemma NotDueStays(s: State, poll: Poll)
    requires !Due(s, poll)
    ensures Next(s, poll) == s
  {
  }

  /** After any run without a failure the gauges agree with the latest snapshot. */
  lemma {:induction false} GaugesAgree(polls: seq<Poll>)
    requires NeverFails(FRESH, polls)
    ensures Covered(Run(FRESH, polls))
    ensures match Latest(FRESH, polls)
            case None => Run(FRESH, polls) == FRESH
            case Some(snapshot) => Agrees(Run(FRESH, polls).gauge, snapshot)
  {
    hide Next, Exported, Agrees;
    if polls != [] {
      var front, poll := polls[..|polls| - 1], polls[|polls| - 1];
      assert NeverFails(FRESH, front) by {
        assert forall i :: 0 <= i < |front| ==> front[..i] == polls[..i] && front[i] == polls[i];
      }
      GaugesAgree(front);
      if Due(Run(FRESH, front), poll) {
        AgreementIff(Run(FRESH, front), poll);
      } else {
        NotDueStays(Run(FRESH, front), poll);
      }
    }
  }

  /** A count left behind by a failure is never corrected by snapshots that do
      not mention its label, however many of them complete. */
  lemma {:induction false} StrandedStays(s: State, polls: seq<Poll>, l: Label)
    requires l !in s.labels
    requires forall i :: 0 <= i < |polls| ==> Walks(polls[i]) && l !in LabelsOf(Exported(polls[i].snapshot))
    ensures Reading(Run(s, polls).gauge, l) == Reading(s.gauge, l) && l !in Run(s, polls).labels
  {
    hide Exported, LabelsOf, Reading, LastCount;
    if polls != [] {
      var front, poll := polls[..|polls| - 1], polls[|polls| - 1];
      StrandedStays(s, front, l);
      StrandedStep(Run(s, front), poll, l);
    }
  }

  lemma StrandedStep(s: State, poll: Poll, l: Label)
    requires l !in s.labels && Walks(poll) && l !in LabelsOf(Exported(poll.snapshot))
    ensures Reading(Next(s, poll).gauge, l) == Reading(s.gauge, l) && l !in Next(s, poll).labels
  {
    hide Exported, Reading, LastCount;
    if Due(s, poll) {
      var rows, all := Exported(poll.snapshot), Writes(s.labels, poll);
      var zeros := poll.walk(s.labels - LabelsOf(rows));
      ZerosFollow(rows, zeros, l);
      assert l !in LabelsOf(all);
      var n := if Completes(s, poll) then |all| else poll.fault.value;
      assert all == all[..|all|];
      assert all == all[..n] + all[n..];
      LabelsJoin(all[..n], all[n..]);
      ReadingAfter(s.gauge, all[..n], l);
    }
  }

  // ----- When truncated labels do not collide -----

  ghost predicate NoCollision(writes: seq<Write>) {
    forall i, j :: 0 <= i < j < |writes| ==> writes[i].at != writes[j].at
  }

  lemma {:induction false} CountIsExact(writes: seq<Write>, i: nat)
    requires NoCollision(writes) && i < |writes|
    ensures LastCount(writes, writes[i].at) == writes[i].value
  {
    if i < |writes| - 1 {
      CountIsExact(writes[..|writes| - 1], i);
    }
  }

  /** Names that fit the label beside their prefix, no two alike. */
  ghost predicate FitNames(prefix: string, families: seq<Family>) {
    && (forall i :: 0 <= i < |families| ==> |prefix + families[i].name| <= LABEL_WIDTH && FitStatuses(families[i].statuses))
    && (forall i, j :: 0 <= i < j < |families| ==> families[i].name != families[j].name)
  }

  ghost predicate FitStatuses(statuses: seq<Status>) {
    && (forall i :: 0 <= i < |statuses| ==> |statuses[i].kind| <= LABEL_WIDTH)
    && (forall i, j :: 0 <= i < j < |statuses| ==> statuses[i].kind != statuses[j].kind)
  }

  lemma JoinNoCollision(a: seq<Write>, b: seq<Write>)
    requires NoCollision(a) && NoCollision(b) && LabelsOf(a) !! LabelsOf(b)
    ensures NoCollision(a + b)
  {
    forall i, j | 0 <= i < j < |a + b| ensures (a + b)[i].at != (a + b)[j].at {
      if i < |a| <= j {
        assert a[i].at in LabelsOf(a) && b[j - |a|].at in LabelsOf(b);
      }
    }
  }

  lemma {:induction false} StatusLabels(prefix: string, name: string, statuses: seq<Status>)
    requires |prefix + name| <= LABEL_WIDTH && FitStatuses(statuses)
    ensures NoCollision(StatusRows(prefix, name, statuses))
    ensures forall l :: l in LabelsOf(StatusRows(prefix, name, statuses)) ==>
                          l.name == prefix + name && exists i :: 0 <= i < |statuses| && statuses[i].kind == l.kind
  {
    if statuses != [] {
      StatusLabels(prefix, name, statuses[1..]);
      var head := [Write(LabelOf(prefix, name, statuses[0].kind), statuses[0].count)];
      var rest := StatusRows(prefix, name, statuses[1..]);
      LabelsJoin(head, rest);
      JoinNoCollision(head, rest);
      forall l | l in LabelsOf(rest) ensures exists i :: 0 <= i < |statuses| && statuses[i].kind == l.kind {
        var i :| 0 <= i < |statuses[1..]| && statuses[1..][i].kind == l.kind;
        assert statuses[i + 1].kind == l.kind;
      }
    }
  }

  lemma {:induction false} FamilyLabels(prefix: string, families: seq<Family>)
    requires FitNames(prefix, families)
    ensures NoCollision(Rows(prefix, families))
    ensures forall l :: l in LabelsOf(Rows(prefix, families)) ==>
                          exists i :: 0 <= i < |families| && l.name == prefix + families[i].name
  {
    if families != [] {
      FamilyLabels(prefix, families[1..]);
      StatusLabels(prefix, families[0].name, families[0].statuses);
      var head, rest := StatusRows(prefix, families[0].name, families[0].statuses), Rows(prefix, families[1..]);
      LabelsJoin(head, rest);
      forall l | l in LabelsOf(rest) ensures l !in LabelsOf(head) && exists i :: 0 <= i < |families| && l.name == prefix + families[i].name {
        var i :| 0 <= i < |families[1..]| && l.name == prefix + families[1..][i].name;
        assert l.name[|prefix|..] == families[i + 1].name && (prefix + families[0].name)[|prefix|..] == families[0].name;
      }
      JoinNoCollision(head, rest);
    }
  }

  /** The names a queue or channel may not have, beside being short enough. */
  ghost predicate Fits(snapshot: Snapshot) {
    && FitNames("background:", snapshot.background) && FitNames("outbound:", snapshot.outbound)
    && (forall i :: 0 <= i < |snapshot.background| ==> snapshot.background[i].name != "all")
    && (forall i :: 0 <= i < |snapshot.outbound| ==> snapshot.outbound[i].name != "all")
  }

  lemma FitLabelsNeverCollide(snapshot: Snapshot)
    requires Fits(snapshot)
    ensures NoCollision(Exported(snapshot))
  {
    var b, o := Rows("background:", snapshot.background), Rows("outbound:", snapshot.outbound);
    FamilyLabels("background:", snapshot.background);
    FamilyLabels("outbound:", snapshot.outbound);
    forall l | l in LabelsOf(b) ensures l.name[0] == 'b' && l.name != "background:all" {
      var i :| 0 <= i < |snapshot.background| && l.name == "background:" + snapshot.background[i].name;
      assert l.name[11..] == snapshot.background[i].name && "background:all"[11..] == "all";
    }
    forall l | l in LabelsOf(o) ensures l.name[0] == 'o' && l.name != "outbound:all" {
      var i :| 0 <= i < |snapshot.outbound| && l.name == "outbound:" + snapshot.outbound[i].name;
      assert l.name[9..] == snapshot.outbound[i].name && "outbound:all"[9..] == "all";
    }
    JoinNoCollision(b, o);
    LabelsJoin(b, o);
    assert "background:all"[0] == 'b' && "outbound:all"[0] == 'o';
    JoinNoCollision(b + o, Aggregates(snapshot));
  }
}
