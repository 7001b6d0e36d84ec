/** The replay of lease comments, rule by rule: what an event does, in which
    order the events are taken, and which lease is selected. */
module LeaseMeaning {
  import opened Basics
  import opened Reports
  import opened Leases
  import opened LeaseLock

  /** The event is refused: one error about its run, and nothing else changes. */
  ghost predicate Refused(b: Book, e: Event, b': Book, code: Code) {
    b' == Book(b.leases, b.order, b.active, b.findings + [Finding(Error, code, RunSubject(e.run))])
  }

  /** The slot is taken: its lease has not ended, nor been released by now. */
  ghost predicate Taken(b: Book, at: Time)
    requires b.Wf()
  {
    b.active.Some? &&
    var l := b.leases[b.active.value];
    at < l.expires && (l.releasedAt.Some? ==> at < l.releasedAt.value)
  }

  /** Every event by its kind: when it is refused, with which code, and otherwise
      that it takes effect. */
  lemma StepTable(b: Book, e: Event)
    requires b.Wf()
    ensures var b' := Step(b, e);
            match e.kind
            case Claim => if Taken(b, e.at) then Refused(b, e, b', OverlappingActiveClaim) else Applied(b, e, b')
            case Reclaim => if Taken(b, e.at) then Refused(b, e, b', ReclaimBeforeReleaseOrExpiry) else Applied(b, e, b')
            case Heartbeat =>
              if e.run !in b.leases then Refused(b, e, b', LeaseEventWithoutClaim)
              else if b.leases[e.run].releasedAt.Some? then Refused(b, e, b', HeartbeatAfterRelease)
              else if e.at > b.leases[e.run].expires then Refused(b, e, b', HeartbeatAfterLeaseExpiry)
              else Applied(b, e, b')
            case Handoff =>
              if e.run !in b.leases then Refused(b, e, b', LeaseEventWithoutClaim)
              else if e.released then Applied(b, e, b') else b' == b
  {
    var b' := Step(b, e);
    match e.kind
    case Claim => if !Taken(b, e.at) { assert b' == Grant(b, e); }
    case Reclaim => if !Taken(b, e.at) { assert b' == Grant(b, e); }
    case Heartbeat =>
      if e.run in b.leases && b.leases[e.run].releasedAt.None? && e.at <= b.leases[e.run].expires { assert b' == Renew(b, e); }
    case Handoff =>
      if e.run in b.leases && e.released { assert b' == Release(b, e); }
  }

  /** A new run joins the end of the order; nobody else moves. */
  lemma OrderGrows(b: Book, e: Event)
    requires b.Wf()
    ensures Step(b, e).order == b.order || (e.run !in b.leases && Step(b, e).order == b.order + [e.run])
  {
  }

  // ----- The order of the events -----

  /** The events of one instant, in their order. */
  function At(events: seq<Event>, t: Time): seq<Event> {
    if events == [] then []
    else At(events[..|events| - 1], t) + if events[|events| - 1].at == t then [events[|events| - 1]] else []
  }

  lemma AtEnd(events: seq<Event>, e: Event, t: Time)
    ensures At(events + [e], t) == At(events, t) + if e.at == t then [e] else []
  {
    assert (events + [e])[..|events|] == events;
  }

  lemma InsertStep(events: seq<Event>, e: Event)
    ensures if events == [] || events[|events| - 1].at <= e.at then Insert(events, e) == events + [e]
            else Insert(events, e) == Insert(events[..|events| - 1], e) + [events[|events| - 1]]
  {
  }

  lemma {:induction false} InsertGoesLast(events: seq<Event>, e: Event, t: Time)
    ensures At(Insert(events, e), t) == At(events, t) + if e.at == t then [e] else []
  {
    hide At, Insert;
    InsertStep(events, e);
    if events == [] || events[|events| - 1].at <= e.at {
      AtEnd(events, e, t);
    } else {
      var front, last := events[..|events| - 1], events[|events| - 1];
      assert events == front + [last];
      InsertGoesLast(front, e, t);
      AtEnd(front, last, t);
      AtEnd(Insert(front, e), last, t);
    }
  }

  /** Comments of one instant are taken in the order in which they stand. */
  lemma {:induction false} SortIsStable(events: seq<Event>, t: Time)
    ensures At(SortByTime(events), t) == At(events, t)
  {
    if events != [] {
      var front := events[..|events| - 1];
      SortIsStable(front, t);
      InsertGoesLast(SortByTime(front), events[|events| - 1], t);
    }
  }

  /** The events stand in the order of their comments; other comments leave none. */
  lemma {:induction false} EventsJoin(a: seq<Comment>, b: seq<Comment>)
    ensures Events(a + b).Some? <==> Events(a).Some? && Events(b).Some?
    ensures Events(a + b).Some? ==> Events(a + b).value == Events(a).value + Events(b).value
  {
    if b == [] {
      assert a + b == a;
    } else {
      EventsJoin(a, b[..|b| - 1]);
      assert (a + b)[..|a + b| - 1] == a + b[..|b| - 1];
    }
  }

  lemma OneComment(c: Comment)
    ensures match c
            case Prose => Events([c]) == Some([])
            case Undated => Events([c]) == None
            case Dated(e) => Events([c]) == Some([e])
  {
    assert [c][..0] == [] && Events([]) == Some([]);
    if c.Dated? {
      var none: seq<Event> := [];
      assert Events([c]) == Some(none + [c.event]) && none + [c.event] == [c.event];
    }
  }

  // ----- The selected lease -----

  /** The active lease that started last, the first listed of several. */
  ghost predicate LatestAt(leases: seq<Lease>, now: Time, i: nat) {
    && i < |leases| && leases[i].ActiveAt(now)
    && forall j :: 0 <= j < |leases| && leases[j].ActiveAt(now) ==>
         leases[j].start <= leases[i].start && (j < i ==> leases[j].start < leases[i].start)
  }

  lemma {:induction false} LatestActiveIsLatest(leases: seq<Lease>, now: Time)
    ensures match LatestActive(leases, now)
            case Some(l) => exists i: nat :: LatestAt(leases, now, i) && leases[i] == l
            case None => forall j :: 0 <= j < |leases| ==> !leases[j].ActiveAt(now)
  {
    if leases != [] {
      var front, last := leases[..|leases| - 1], leases[|leases| - 1];
      LatestActiveIsLatest(front, now);
      assert forall j :: 0 <= j < |front| ==> front[j] == leases[j];
      if LatestActive(leases, now) == LatestActive(front, now) {
        if LatestActive(front, now).Some? {
          var i: nat :| LatestAt(front, now, i) && front[i] == LatestActive(front, now).value;
          assert LatestAt(leases, now, i);
        }
      } else {
        assert LatestAt(leases, now, |front|);
      }
    }
  }

  /** The leases are listed in the order in which their runs came. */
  lemma {:induction false} ValuesAre(leases: map<string, Lease>, order: seq<string>)
    requires forall run :: run in order ==> run in leases
    ensures |Values(leases, order)| == |order| && forall i :: 0 <= i < |order| ==> Values(leases, order)[i] == leases[order[i]]
  {
    if order != [] {
      ValuesAre(leases, order[..|order| - 1]);
    }
  }
}
