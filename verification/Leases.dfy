/** Replays the claim, heartbeat, hand-off and reclaim comments of one work item
    into time-bounded leases. Times are seconds; a lease lives 120 minutes. */
module Leases {
  import opened Basics
  import opened Reports

  type Time = int

  const LEASE: Time := 120 * 60

  datatype Kind = Claim | Reclaim | Heartbeat | Handoff
  datatype Event = Event(kind: Kind, run: string, at: Time, released: bool)

  /** A parsed comment: no lease heading or run id, an unreadable timestamp, or a lease event. */
  datatype Comment = Prose | Undated | Dated(event: Event)

  datatype Lease = Lease(run: string, start: Time, expires: Time, releasedAt: Option<Time>) {
    predicate ActiveAt(instant: Time) {
      start <= instant < expires && releasedAt.None?
    }
  }

  /** The replay state. `order` is the insertion order of the keys of `leases`. */
  datatype Book = Book(leases: map<string, Lease>, order: seq<string>, active: Option<string>,
                       findings: seq<Finding>) {
    ghost predicate Wf() {
      && (active.Some? ==> active.value in leases)
      && (forall run :: run in leases <==> run in order)
      && (forall i, j :: 0 <= i < j < |order| ==> order[i] != order[j])
    }

    function Refuse(code: Code, run: string): Book {
      this.(findings := findings + [Finding(Error, code, RunSubject(run))])
    }

    function Put(lease: Lease): Book {
      this.(leases := leases[lease.run := lease],
            order := if lease.run in leases then order else order + [lease.run])
    }
  }

  const EMPTY_BOOK := Book(map[], [], None, [])

  predicate Blocked(b: Book, at: Time)
    requires b.Wf()
  {
    b.active.Some? &&
    var prior := b.leases[b.active.value];
    !(prior.releasedAt.Some? && prior.releasedAt.value <= at) && !(prior.expires <= at)
  }

  function Min(a: int, b: int): int {
    if a <= b then a else b
  }

  function Step(b: Book, e: Event): (b': Book)
    requires b.Wf()
    ensures b'.Wf()
  {
    match e.kind
    case Claim =>
      if Blocked(b, e.at) then b.Refuse(OverlappingActiveClaim, e.run) else Grant(b, e)
    case Reclaim =>
      if Blocked(b, e.at) then b.Refuse(ReclaimBeforeReleaseOrExpiry, e.run) else Grant(b, e)
    case Heartbeat =>
      if e.run !in b.leases then b.Refuse(LeaseEventWithoutClaim, e.run)
      else if b.leases[e.run].releasedAt.Some? then b.Refuse(HeartbeatAfterRelease, e.run)
      else if e.at > b.leases[e.run].expires then b.Refuse(HeartbeatAfterLeaseExpiry, e.run)
      else Renew(b, e)
    case Handoff =>
      if e.run !in b.leases then b.Refuse(LeaseEventWithoutClaim, e.run)
      else if e.released then Release(b, e)
      else b
  }

  function Grant(b: Book, e: Event): (b': Book)
    requires b.Wf()
    ensures b'.Wf()
  {
    b.Put(Lease(e.run, e.at, e.at + LEASE, None)).(active := Some(e.run))
  }

  function Renew(b: Book, e: Event): (b': Book)
    requires b.Wf() && e.run in b.leases
    ensures b'.Wf()
  {
    var current := b.leases[e.run];
    b.(leases := b.leases[e.run := Lease(current.run, current.start, e.at + LEASE, None)])
  }

  function Release(b: Book, e: Event): (b': Book)
    requires b.Wf() && e.run in b.leases
    ensures b'.Wf()
  {
    var current := b.leases[e.run];
    b.(leases := b.leases[e.run := Lease(current.run, current.start, Min(current.expires, e.at), Some(e.at))],
       active := if b.active == Some(e.run) then None else b.active)
  }

  function Replay(events: seq<Event>): (b: Book)
    ensures b.Wf()
  {
    if events == [] then EMPTY_BOOK
    else Step(Replay(events[..|events| - 1]), events[|events| - 1])
  }

  /** The lease events of a comment list, or None when one has an unreadable timestamp. */
  function Events(comments: seq<Comment>): Option<seq<Event>> {
    if comments == [] then Some([])
    else
      var front := Events(comments[..|comments| - 1]);
      match comments[|comments| - 1]
      case Prose => front
      case Undated => None
      case Dated(e) => if front.None? then None else Some(front.value + [e])
  }

  /** Stable insertion: `e` goes after every element that is not later than it. */
  function Insert(events: seq<Event>, e: Event): (r: seq<Event>)
    ensures multiset(r) == multiset(events) + multiset{e}
  {
    if events == [] || events[|events| - 1].at <= e.at then events + [e]
    else
      assert events == events[..|events| - 1] + [events[|events| - 1]];
      Insert(events[..|events| - 1], e) + [events[|events| - 1]]
  }

  function SortByTime(events: seq<Event>): (r: seq<Event>)
    ensures multiset(r) == multiset(events)
  {
    if events == [] then []
    else
      assert events == events[..|events| - 1] + [events[|events| - 1]];
      Insert(SortByTime(events[..|events| - 1]), events[|events| - 1])
  }

  /** The pure meaning of a whole comment list. */
  function BookOf(comments: seq<Comment>): (r: Result<Book>)
    ensures r.Ok? ==> r.value.Wf()
  {
    match Events(comments)
    case None => Raised("comment_created_at_invalid")
    case Some(events) => Ok(Replay(SortByTime(events)))
  }

  method CollectEvents(comments: seq<Comment>) returns (events: Option<seq<Event>>)
    ensures events == Events(comments)
  {
    var found: seq<Event> := [];
    for i := 0 to |comments|
      invariant Events(comments[..i]) == Some(found)
    {
      assert comments[..i + 1][..i] == comments[..i];
      match comments[i]
      case Prose =>
      case Undated =>
        UndatedSpoils(comments, i);
        return None;
      case Dated(e) =>
        found := found + [e];
    }
    assert comments[..|comments|] == comments;
    return Some(found);
  }

  lemma {:induction false} UndatedSpoils(comments: seq<Comment>, i: nat)
    requires i < |comments| && comments[i].Undated?
    ensures Events(comments).None?
  {
    if i < |comments| - 1 {
      UndatedSpoils(comments[..|comments| - 1], i);
    }
  }

  /** A claim or reclaim: refused while the slot is held, granted otherwise. */
  method ApplyClaim(leases: map<string, Lease>, order: seq<string>, activeRun: Option<string>,
                    findings: seq<Finding>, event: Event)
    returns (leases': map<string, Lease>, order': seq<string>, activeRun': Option<string>, findings': seq<Finding>)
    requires Book(leases, order, activeRun, findings).Wf()
    requires event.kind == Claim || event.kind == Reclaim
    ensures Book(leases', order', activeRun', findings') == Step(Book(leases, order, activeRun, findings), event)
  {
    leases', order', activeRun', findings' := leases, order, activeRun, findings;
    if activeRun.Some? {
      var prior := leases[activeRun.value];
      var priorReleased := prior.releasedAt.Some? && prior.releasedAt.value <= event.at;
      var priorExpired := prior.expires <= event.at;
      if event.kind == Claim && !(priorReleased || priorExpired) {
        findings' := findings + [Finding(Error, OverlappingActiveClaim, RunSubject(event.run))];
        return;
      }
      if event.kind == Reclaim && !(priorReleased || priorExpired) {
        findings' := findings + [Finding(Error, ReclaimBeforeReleaseOrExpiry, RunSubject(event.run))];
        return;
      }
    }
    activeRun' := Some(event.run);
    order' := if event.run in leases then order else order + [event.run];
    leases' := leases[event.run := Lease(event.run, event.at, event.at + LEASE, None)];
  }

  /** A heartbeat or hand-off: needs a lease of its own run. */
  method ApplyLeaseEvent(leases: map<string, Lease>, order: seq<string>, activeRun: Option<string>,
                         findings: seq<Finding>, event: Event)
    returns (leases': map<string, Lease>, activeRun': Option<string>, findings': seq<Finding>)
    requires Book(leases, order, activeRun, findings).Wf()
    requires event.kind == Heartbeat || event.kind == Handoff
    ensures Book(leases', order, activeRun', findings') == Step(Book(leases, order, activeRun, findings), event)
  {
    leases', activeRun', findings' := leases, activeRun, findings;
    if event.run !in leases {
      findings' := findings + [Finding(Error, LeaseEventWithoutClaim, RunSubject(event.run))];
      return;
    }
    var current := leases[event.run];
    if event.kind == Heartbeat {
      if current.releasedAt.Some? {
        findings' := findings + [Finding(Error, HeartbeatAfterRelease, RunSubject(event.run))];
      } else if event.at > current.expires {
        findings' := findings + [Finding(Error, HeartbeatAfterLeaseExpiry, RunSubject(event.run))];
      } else {
        leases' := leases[event.run := Lease(current.run, current.start, event.at + LEASE, None)];
      }
    } else if event.released {
      leases' := leases[event.run := Lease(current.run, current.start, Min(current.expires, event.at), Some(event.at))];
      if activeRun == Some(event.run) {
        activeRun' := None;
      }
    }
  }

  /** The loop over the sorted events, with the variables the source updates. */
  method ParseLeases(comments: seq<Comment>)
    returns (error: bool, leases: map<string, Lease>, order: seq<string>, findings: seq<Finding>)
    ensures error <==> BookOf(comments).Raised?
    ensures !error ==>
              var book := BookOf(comments).value;
              leases == book.leases && order == book.order && findings == book.findings
  {
    leases, order, findings := map[], [], [];
    var collected := CollectEvents(comments);
    if collected.None? {
      return true, leases, order, findings;
    }
    error := false;
    var events := SortByTime(collected.value);
    var activeRun: Option<string> := None;
    for i := 0 to |events|
      invariant Replay(events[..i]) == Book(leases, order, activeRun, findings)
    {
      assert events[..i + 1][..i] == events[..i];
      assert Replay(events[..i]).Wf();
      if events[i].kind == Claim || events[i].kind == Reclaim {
        leases, order, activeRun, findings := ApplyClaim(leases, order, activeRun, findings, events[i]);
      } else {
        leases, activeRun, findings := ApplyLeaseEvent(leases, order, activeRun, findings, events[i]);
      }
    }
    assert events[..|events|] == events;
  }

  /** The values of the lease map in key order. */
  function Values(leases: map<string, Lease>, order: seq<string>): seq<Lease>
    requires forall run :: run in order ==> run in leases
  {
    seq(|order|, i requires 0 <= i < |order| => leases[order[i]])
  }

  /** `max` over the active leases by start time; the first maximum wins. */
  function LatestActive(leases: seq<Lease>, now: Time): Option<Lease> {
    if leases == [] then None
    else
      var best, lease := LatestActive(leases[..|leases| - 1], now), leases[|leases| - 1];
      if lease.ActiveAt(now) && (best.None? || best.value.start < lease.start) then Some(lease) else best
  }

  function ActiveLease(leases: map<string, Lease>, order: seq<string>, now: Time): Option<Lease>
    requires forall run :: run in order ==> run in leases
  {
    LatestActive(Values(leases, order), now)
  }
}
