/** The lease map as a lock: it refines a single slot with a 120-minute
    time-to-live, and exactly one kind of event at a tie can break that. */
module LeaseLock {
  import opened Basics
  import opened Reports
  import opened Leases

  ghost predicate Sorted(events: seq<Event>) {
    forall i, j :: 0 <= i < j < |events| ==> events[i].at <= events[j].at
  }

  ghost predicate StrictlySorted(events: seq<Event>) {
    forall i, j :: 0 <= i < j < |events| ==> events[i].at < events[j].at
  }

  ghost predicate Apart(l: Lease, m: Lease) {
    l.expires <= m.start || m.expires <= l.start
  }

  /** Up to time `t` only the slot holder may still have time left, every other
      lease ended before the holder's began, and no two leases overlap. */
  ghost predicate Locked(b: Book, t: Time) {
    && b.Wf()
    && (forall run :: run in b.leases ==>
          var l := b.leases[run]; l.run == run && l.start <= l.expires && l.start <= t)
    && (b.active.Some? ==> b.leases[b.active.value].releasedAt.None?)
    && (forall run :: run in b.leases && b.active != Some(run) ==>
          && b.leases[run].expires <= t
          && (b.active.Some? ==> b.leases[run].expires <= b.leases[b.active.value].start))
    && (forall run, other :: run in b.leases && other in b.leases && run != other ==>
          Apart(b.leases[run], b.leases[other]))
  }

  /** The boundary heartbeat: a run that has lost the slot renews at the very
      instant its lease ends. The source accepts it, since it only refuses later ones. */
  ghost predicate StaleHeartbeat(b: Book, e: Event) {
    && e.kind == Heartbeat && e.run in b.leases && b.active != Some(e.run)
    && b.leases[e.run].releasedAt.None? && b.leases[e.run].expires == e.at
  }

  /** Keeping a book's lock needs only the time bound to grow. */
  lemma LaterStillLocked(b: Book, t: Time, t': Time)
    requires Locked(b, t) && t <= t'
    ensures Locked(b, t')
  {
  }

  lemma GrantKeepsLock(b: Book, e: Event)
    requires Locked(b, e.at) && !Blocked(b, e.at)
    ensures Locked(Grant(b, e), e.at)
  {
    var b' := Grant(b, e);
    forall run | run in b.leases && run != e.run
      ensures run in b'.leases && b'.leases[run] == b.leases[run] && b.leases[run].expires <= e.at
    {
    }
  }

  lemma RenewKeepsLockIff(b: Book, e: Event)
    requires Locked(b, e.at) && e.run in b.leases
    requires b.leases[e.run].releasedAt.None? && e.at <= b.leases[e.run].expires
    ensures Locked(Renew(b, e), e.at) <==> b.active == Some(e.run)
    ensures b.active != Some(e.run) ==> b.leases[e.run].expires == e.at
  {
    var b' := Renew(b, e);
    assert b'.leases[e.run].expires == e.at + LEASE;
    assert forall run :: run in b.leases && run != e.run ==> b'.leases[run] == b.leases[run];
  }

  lemma ApartShrinks(l: Lease, l': Lease, m: Lease)
    requires Apart(l, m) && l'.start == l.start && l'.expires <= l.expires
    ensures Apart(l', m) && Apart(m, l')
  {
  }

  lemma ReleaseKeepsLock(b: Book, e: Event)
    requires Locked(b, e.at) && e.run in b.leases
    ensures Locked(Release(b, e), e.at)
  {
    var b' := Release(b, e);
    var l, l' := b.leases[e.run], b'.leases[e.run];
    assert l'.start == l.start && l'.start <= l'.expires && l'.expires <= l.expires;
    hide Apart;
    forall run | run in b.leases && run != e.run ensures b'.leases[run] == b.leases[run] && Apart(l', b'.leases[run]) && Apart(b'.leases[run], l') {
      ApartShrinks(l, l', b.leases[run]);
    }
  }

  /** One event keeps the lock exactly when it is not a boundary heartbeat. */
  lemma StepKeepsLockIff(b: Book, e: Event)
    requires Locked(b, e.at)
    ensures Locked(Step(b, e), e.at) <==> !StaleHeartbeat(b, e)
  {
    match e.kind
    case Claim | Reclaim =>
      if !Blocked(b, e.at) { GrantKeepsLock(b, e); }
    case Heartbeat =>
      if e.run in b.leases && b.leases[e.run].releasedAt.None? && e.at <= b.leases[e.run].expires {
        RenewKeepsLockIff(b, e);
      }
    case Handoff =>
      if e.run in b.leases && e.released { ReleaseKeepsLock(b, e); }
  }

  ghost predicate LockedThroughout(events: seq<Event>) {
    forall k :: 0 < k <= |events| ==> Locked(Replay(events[..k]), events[k - 1].at)
  }

  ghost predicate NoStaleHeartbeat(events: seq<Event>) {
    forall k :: 0 <= k < |events| ==> !StaleHeartbeat(Replay(events[..k]), events[k])
  }

  lemma ReplayStep(events: seq<Event>, k: nat)
    requires k < |events|
    ensures Replay(events[..k + 1]) == Step(Replay(events[..k]), events[k])
  {
    assert events[..k + 1][..k] == events[..k];
  }

  /** Over a whole history, ties included, the lock holds after every event
      exactly when no boundary heartbeat occurs in it. */
  lemma HistoryKeepsLockIff(events: seq<Event>)
    requires Sorted(events)
    ensures LockedThroughout(events) <==> NoStaleHeartbeat(events)
  {
    if NoStaleHeartbeat(events) {
      forall k | 0 < k <= |events| ensures Locked(Replay(events[..k]), events[k - 1].at) {
        PrefixLocked(events, k);
      }
    }
    if LockedThroughout(events) {
      forall k | 0 <= k < |events| ensures !StaleHeartbeat(Replay(events[..k]), events[k]) {
        ReplayStep(events, k);
        assert Locked(Replay(events[..k + 1]), events[k].at);
        if k > 0 {
          LaterStillLocked(Replay(events[..k]), events[k - 1].at, events[k].at);
          StepKeepsLockIff(Replay(events[..k]), events[k]);
        }
      }
    }
  }

  lemma NextLocked(b: Book, t: Time, e: Event, b': Book)
    requires Locked(b, t) && t <= e.at && b' == Step(b, e) && !StaleHeartbeat(b, e)
    ensures Locked(b', e.at)
  {
    LaterStillLocked(b, t, e.at);
    StepKeepsLockIff(b, e);
  }

  lemma {:induction false} PrefixLocked(events: seq<Event>, k: nat)
    requires Sorted(events) && NoStaleHeartbeat(events) && 0 < k <= |events|
    ensures Locked(Replay(events[..k]), events[k - 1].at)
  {
    ReplayStep(events, k - 1);
    if k > 1 {
      PrefixLocked(events, k - 1);
      NextLocked(Replay(events[..k - 1]), events[k - 2].at, events[k - 1], Replay(events[..k]));
    } else {
      NextLocked(EMPTY_BOOK, events[0].at, events[0], Replay(events[..1]));
    }
  }

  /** With strictly increasing times no boundary heartbeat can occur. */
  lemma StrictHistoryIsLocked(events: seq<Event>)
    requires StrictlySorted(events)
    ensures LockedThroughout(events)
  {
    forall k | 0 <= k < |events| ensures !StaleHeartbeat(Replay(events[..k]), events[k]) {
      StrictStep(events, k);
    }
    HistoryKeepsLockIff(events);
  }

  lemma {:induction false} StrictStep(events: seq<Event>, k: nat)
    requires StrictlySorted(events) && k < |events|
    ensures !StaleHeartbeat(Replay(events[..k]), events[k])
    ensures k > 0 ==> Locked(Replay(events[..k]), events[k - 1].at)
  {
    if k > 0 {
      StrictStep(events, k - 1);
      ReplayStep(events, k - 1);
      NextLocked(Replay(events[..k - 1]), if k == 1 then events[0].at else events[k - 2].at,
                 events[k - 1], Replay(events[..k]));
    }
  }

  /** Leases of different runs never overlap, so at no instant, past or future,
      are two of them active. */
  lemma LeasesExclude(events: seq<Event>, run: string, other: string, instant: Time)
    requires StrictlySorted(events)
    requires run in Replay(events).leases && other in Replay(events).leases && run != other
    ensures Apart(Replay(events).leases[run], Replay(events).leases[other])
    ensures !(Replay(events).leases[run].ActiveAt(instant) && Replay(events).leases[other].ActiveAt(instant))
  {
    StrictHistoryIsLocked(events);
    assert events[..|events|] == events;
  }

  // ----- Refinement of a single slot -----

  datatype Slot = Free | Held(run: string, start: Time, expires: Time)

  function SlotStep(slot: Slot, e: Event): Slot {
    match e.kind
    case Claim | Reclaim =>
      if slot.Held? && e.at < slot.expires then slot else Held(e.run, e.at, e.at + LEASE)
    case Heartbeat =>
      if slot.Held? && slot.run == e.run && e.at <= slot.expires then slot.(expires := e.at + LEASE) else slot
    case Handoff =>
      if slot.Held? && slot.run == e.run && e.released then Free else slot
  }

  function SlotRun(events: seq<Event>): Slot {
    if events == [] then Free
    else SlotStep(SlotRun(events[..|events| - 1]), events[|events| - 1])
  }

  function Holder(slot: Slot, now: Time): Option<Lease> {
    if slot.Held? && slot.start <= now < slot.expires
    then Some(Lease(slot.run, slot.start, slot.expires, None)) else None
  }

  ghost function SlotOf(b: Book): Slot
    requires b.Wf()
  {
    if b.active.None? then Free
    else var l := b.leases[b.active.value]; Held(b.active.value, l.start, l.expires)
  }

  lemma SlotStepSimulates(b: Book, e: Event)
    requires Locked(b, e.at)
    ensures SlotOf(Step(b, e)) == SlotStep(SlotOf(b), e)
  {
    HolderIsLive(b, e.at);
    hide Locked;
  }

  lemma HolderIsLive(b: Book, t: Time)
    requires Locked(b, t)
    ensures b.Wf() && (b.active.Some? ==> b.leases[b.active.value].releasedAt.None?)
  {
  }

  lemma {:induction false} SlotSimulates(events: seq<Event>)
    requires Sorted(events) && LockedThroughout(events)
    ensures SlotOf(Replay(events)) == SlotRun(events)
  {
    if events != [] {
      var n := |events| - 1;
      FrontLocked(events);
      SlotSimulates(events[..n]);
      SlotStepSimulates(Replay(events[..n]), events[n]);
    }
  }

  lemma FrontLocked(events: seq<Event>)
    requires Sorted(events) && LockedThroughout(events) && events != []
    ensures LockedThroughout(events[..|events| - 1])
    ensures Locked(Replay(events[..|events| - 1]), events[|events| - 1].at)
  {
    var n := |events| - 1;
    forall k | 0 < k <= n ensures Locked(Replay(events[..n][..k]), events[..n][k - 1].at) {
      assert events[..n][..k] == events[..k];
    }
    if n > 0 {
      LaterStillLocked(Replay(events[..n]), events[n - 1].at, events[n].at);
    }
  }

  ghost predicate Lists(leases: map<string, Lease>, order: seq<string>) {
    forall run :: run in order <==> run in leases
  }

  lemma {:induction false} LatestActiveIsActive(leases: seq<Lease>, now: Time)
    ensures match LatestActive(leases, now)
            case Some(l) => l in leases && l.ActiveAt(now)
            case None => forall i :: 0 <= i < |leases| ==> !leases[i].ActiveAt(now)
  {
    if leases != [] {
      LatestActiveIsActive(leases[..|leases| - 1], now);
    }
  }

  lemma LockedSharesNoInstant(b: Book, t: Time, run: string, other: string, now: Time)
    requires Locked(b, t) && run in b.leases && other in b.leases
    requires b.leases[run].ActiveAt(now) && b.leases[other].ActiveAt(now)
    ensures run == other
  {
  }

  /** In a locked book every choice among the active leases is the same choice. */
  lemma OnlyActiveLease(b: Book, t: Time, order: seq<string>, now: Time, run: string)
    requires Locked(b, t) && Lists(b.leases, order)
    requires run in b.leases && b.leases[run].ActiveAt(now)
    ensures ActiveLease(b.leases, order, now) == Some(b.leases[run])
  {
    var values := Values(b.leases, order);
    LatestActiveIsActive(values, now);
    var j :| 0 <= j < |order| && order[j] == run;
    assert values[j] == b.leases[run];
    var chosen := LatestActive(values, now);
    var i :| 0 <= i < |values| && values[i] == chosen.value;
    LockedSharesNoInstant(b, t, order[i], run, now);
  }

  lemma NoActiveLease(b: Book, order: seq<string>, now: Time)
    requires Lists(b.leases, order)
    requires forall run :: run in b.leases ==> !b.leases[run].ActiveAt(now)
    ensures ActiveLease(b.leases, order, now) == None
  {
    var values := Values(b.leases, order);
    LatestActiveIsActive(values, now);
    assert forall i :: 0 <= i < |values| ==> values[i] == b.leases[order[i]];
  }

  /** From time `t` on only the slot holder can be active. */
  lemma LockedHolder(b: Book, t: Time, order: seq<string>, now: Time)
    requires Locked(b, t) && Lists(b.leases, order) && t <= now
    ensures ActiveLease(b.leases, order, now) == Holder(SlotOf(b), now)
  {
    if b.active.Some? && b.leases[b.active.value].ActiveAt(now) {
      OnlyActiveLease(b, t, order, now, b.active.value);
    } else {
      NoActiveLease(b, order, now);
    }
  }

  /** From the last event on, the gate's choice of active lease is the holder of
      a single slot, in whatever order the map is listed. */
  lemma ActiveLeaseRefinesSlot(events: seq<Event>, order: seq<string>, now: Time)
    requires StrictlySorted(events)
    requires Lists(Replay(events).leases, order)
    requires events != [] ==> events[|events| - 1].at <= now
    ensures ActiveLease(Replay(events).leases, order, now) == Holder(SlotRun(events), now)
  {
    StrictHistoryIsLocked(events);
    SlotSimulates(events);
    if events == [] {
      LockedHolder(EMPTY_BOOK, now, order, now);
    } else {
      assert events[..|events|] == events;
      LockedHolder(Replay(events), events[|events| - 1].at, order, now);
    }
  }

  /** At any instant, past or future, the answer is the one active lease there
      is, whatever the order of the map. */
  lemma ActiveLeaseIsTheOnlyOne(events: seq<Event>, order: seq<string>, now: Time, run: string)
    requires StrictlySorted(events)
    requires Lists(Replay(events).leases, order)
    requires run in Replay(events).leases
    ensures ActiveLease(Replay(events).leases, order, now) == Some(Replay(events).leases[run])
            <==> Replay(events).leases[run].ActiveAt(now)
  {
    var b := Replay(events);
    StrictHistoryIsLocked(events);
    assert events[..|events|] == events;
    if b.leases[run].ActiveAt(now) {
      OnlyActiveLease(b, events[|events| - 1].at, order, now, run);
    }
    LatestActiveIsActive(Values(b.leases, order), now);
  }

  /** Two runs hold active leases at once after one tie: a rival claim and a
      heartbeat both at the instant the first lease ends. */
  lemma TieBreaksExclusion()
    ensures var events := [Event(Claim, "a", 0, false), Event(Claim, "b", LEASE, false), Event(Heartbeat, "a", LEASE, false)];
            var b := Replay(events);
            && Sorted(events) && b.findings == []
            && "a" in b.leases && b.leases["a"].ActiveAt(LEASE)
            && "b" in b.leases && b.leases["b"].ActiveAt(LEASE)
  {
    var e0, e1, e2 := Event(Claim, "a", 0, false), Event(Claim, "b", LEASE, false), Event(Heartbeat, "a", LEASE, false);
    var events := [e0, e1, e2];
    assert events[..2] == [e0, e1] && [e0, e1][..1] == [e0] && [e0][..0] == [];
    assert Replay([e0]) == Step(EMPTY_BOOK, e0);
    assert Replay([e0, e1]) == Step(Replay([e0]), e1);
    assert Replay(events) == Step(Replay([e0, e1]), e2);
  }

  ghost predicate TwoActive(b: Book, now: Time) {
    exists run, other :: run in b.leases && other in b.leases && run != other
                         && b.leases[run].ActiveAt(now) && b.leases[other].ActiveAt(now)
  }

  /** The holder's lease has time in it, and no lease starts in the future. */
  ghost predicate Timed(b: Book, t: Time) {
    && b.Wf()
    && (forall run :: run in b.leases ==> b.leases[run].start <= t)
    && (b.active.Some? ==> b.leases[b.active.value].start < b.leases[b.active.value].expires)
  }

  lemma GrantIsTimed(b: Book, t: Time, e: Event)
    requires Timed(b, t) && t <= e.at
    ensures Timed(Grant(b, e), e.at)
  {
    var b' := Grant(b, e);
    assert forall run :: run in b'.leases && run != e.run ==> b'.leases[run] == b.leases[run];
  }

  lemma RenewIsTimed(b: Book, t: Time, e: Event)
    requires Timed(b, t) && t <= e.at && e.run in b.leases
    ensures Timed(Renew(b, e), e.at)
  {
    var b' := Renew(b, e);
    assert forall run :: run in b.leases && run != e.run ==> b'.leases[run] == b.leases[run];
  }

  lemma ReleaseIsTimed(b: Book, t: Time, e: Event)
    requires Timed(b, t) && t <= e.at && e.run in b.leases
    ensures Timed(Release(b, e), e.at)
  {
    var b' := Release(b, e);
    assert forall run :: run in b.leases && run != e.run ==> b'.leases[run] == b.leases[run];
  }

  lemma TimedHasBook(b: Book, t: Time)
    requires Timed(b, t)
    ensures b.Wf()
  {
  }

  lemma RefusalIsTimed(b: Book, t: Time, e: Event)
    requires Timed(b, t) && t <= e.at
    ensures Timed(b, e.at) && forall code :: Timed(b.Refuse(code, e.run), e.at)
  {
  }

  lemma StepIsTimed(b: Book, t: Time, e: Event)
    requires Timed(b, t) && t <= e.at
    ensures Timed(Step(b, e), e.at)
  {
    TimedHasBook(b, t);
    hide Grant, Renew, Release, Timed;
    RefusalIsTimed(b, t, e);
    GrantIsTimed(b, t, e);
    if e.run in b.leases {
      RenewIsTimed(b, t, e);
      ReleaseIsTimed(b, t, e);
    }
  }

  lemma {:induction false} ReplayIsTimed(events: seq<Event>, k: nat)
    requires Sorted(events) && k < |events|
    ensures Timed(Replay(events[..k]), events[k].at)
  {
    if k > 0 {
      hide Step;
      ReplayIsTimed(events, k - 1);
      assert events[..k][..k - 1] == events[..k - 1];
      StepIsTimed(Replay(events[..k - 1]), events[k - 1].at, events[k - 1]);
      assert events[k - 1].at <= events[k].at;
    }
  }

  /** From a locked book, two runs are active after an event at its own time
      exactly when it is a boundary heartbeat while another run holds the slot. */
  lemma TwoActiveAfterStepIff(b: Book, e: Event)
    requires Locked(b, e.at) && Timed(b, e.at)
    ensures TwoActive(Step(b, e), e.at) <==> StaleHeartbeat(b, e) && b.active.Some?
  {
    StepKeepsLockIff(b, e);
    var b' := Step(b, e);
    if !StaleHeartbeat(b, e) {
      hide Locked, Step;
      if run, other :| run in b'.leases && other in b'.leases && run != other
                       && b'.leases[run].ActiveAt(e.at) && b'.leases[other].ActiveAt(e.at) {
        LockedSharesNoInstant(b', e.at, run, other, e.at);
      }
    } else {
      StaleStep(b, e);
    }
  }

  /** A boundary heartbeat revives its own lease and leaves the others alone. */
  lemma StaleStep(b: Book, e: Event)
    requires Locked(b, e.at) && Timed(b, e.at) && StaleHeartbeat(b, e)
    ensures TwoActive(Step(b, e), e.at) <==> b.active.Some?
  {
    var b' := Step(b, e);
    assert b' == Renew(b, e);
    assert b'.leases[e.run].ActiveAt(e.at);
    assert forall run :: run in b.leases && run != e.run ==> b'.leases[run] == b.leases[run];
    if b.active.Some? {
      assert b'.leases[b.active.value].ActiveAt(e.at);
    }
  }

  /** The same for a whole history: the first boundary heartbeat makes two runs
      active at once exactly when the slot is not free. */
  lemma TwoActiveIff(events: seq<Event>, k: nat)
    requires Sorted(events) && k < |events| && NoStaleHeartbeat(events[..k])
    ensures TwoActive(Replay(events[..k + 1]), events[k].at) <==>
            StaleHeartbeat(Replay(events[..k]), events[k]) && Replay(events[..k]).active.Some?
  {
    hide Step, TwoActive, StaleHeartbeat;
    var before := events[..k];
    ReplayStep(events, k);
    ReplayIsTimed(events, k);
    assert Locked(Replay(before), events[k].at) by {
      if k > 0 {
        assert before[..k] == before;
        PrefixLocked(before, k);
        LaterStillLocked(Replay(before), events[k - 1].at, events[k].at);
      }
    }
    TwoActiveAfterStepIff(Replay(before), events[k]);
  }

  // ----- Every leased instant was paid for -----

  ghost predicate Accepted(b: Book, e: Event)
    requires b.Wf()
  {
    e.kind != Handoff && Step(b, e).findings == b.findings
  }

  /** Times of the accepted claim and heartbeats of a run's current tenure. */
  ghost function Stamps(events: seq<Event>, run: string): seq<Time> {
    if events == [] then []
    else
      var front, e := events[..|events| - 1], events[|events| - 1];
      if e.run != run || !Accepted(Replay(front), e) then Stamps(front, run)
      else if e.kind == Heartbeat then Stamps(front, run) + [e.at]
      else [e.at]
  }

  ghost predicate Chained(stamps: seq<Time>) {
    forall i :: 0 <= i < |stamps| - 1 ==> stamps[i] <= stamps[i + 1] <= stamps[i] + LEASE
  }

  ghost predicate Measures(stamps: seq<Time>, l: Lease, t: Time) {
    && stamps != [] && stamps[0] == l.start && Chained(stamps)
    && stamps[|stamps| - 1] <= t
    && l.expires <= stamps[|stamps| - 1] + LEASE
    && (l.releasedAt.None? ==> l.expires == stamps[|stamps| - 1] + LEASE)
  }

  /** The three outcomes of an event, as they show from outside: it took
      effect on the lease of its own run, it raised one finding about that run
      and changed nothing else, or it was a hand-off that releases nothing. */
  ghost predicate Applied(b: Book, e: Event, b': Book) {
    && b'.findings == b.findings
    && e.run in b'.leases
    && b'.leases == b.leases[e.run := b'.leases[e.run]]
    && var l' := b'.leases[e.run];
    match e.kind
    case Claim | Reclaim =>
      l' == Lease(e.run, e.at, e.at + LEASE, None) && b'.active == Some(e.run)
    case Heartbeat =>
      && e.run in b.leases && b.leases[e.run].releasedAt.None? && e.at <= b.leases[e.run].expires
      && l' == b.leases[e.run].(expires := e.at + LEASE) && b'.active == b.active
    case Handoff =>
      && e.released && e.run in b.leases
      && l' == b.leases[e.run].(expires := Min(b.leases[e.run].expires, e.at), releasedAt := Some(e.at))
      && b'.active == (if b.active == Some(e.run) then None else b.active)
  }

  ghost predicate Reported(b: Book, e: Event, b': Book) {
    exists code :: b' == b.Refuse(code, e.run)
  }

  ghost predicate Idle(b: Book, e: Event, b': Book) {
    e.kind == Handoff && !e.released && e.run in b.leases && b' == b
  }

  /** Exactly one of the three happens. */
  lemma StepTrichotomy(b: Book, e: Event)
    requires b.Wf()
    ensures Applied(b, e, Step(b, e)) || Reported(b, e, Step(b, e)) || Idle(b, e, Step(b, e))
    ensures Reported(b, e, Step(b, e)) ==> !Applied(b, e, Step(b, e)) && !Idle(b, e, Step(b, e))
    ensures Idle(b, e, Step(b, e)) ==> !Applied(b, e, Step(b, e))
  {
    var b' := Step(b, e);
    match e.kind
    case Claim =>
      if Blocked(b, e.at) { assert b' == b.Refuse(OverlappingActiveClaim, e.run); }
      else { assert b' == Grant(b, e); }
    case Reclaim =>
      if Blocked(b, e.at) { assert b' == b.Refuse(ReclaimBeforeReleaseOrExpiry, e.run); }
      else { assert b' == Grant(b, e); }
    case Heartbeat =>
      if e.run !in b.leases { assert b' == b.Refuse(LeaseEventWithoutClaim, e.run); }
      else if b.leases[e.run].releasedAt.Some? { assert b' == b.Refuse(HeartbeatAfterRelease, e.run); }
      else if e.at > b.leases[e.run].expires { assert b' == b.Refuse(HeartbeatAfterLeaseExpiry, e.run); }
      else { assert b' == Renew(b, e); }
    case Handoff =>
      if e.run !in b.leases { assert b' == b.Refuse(LeaseEventWithoutClaim, e.run); }
      else if e.released { assert b' == Release(b, e); }
  }

  lemma StepMeasures(b: Book, e: Event, b': Book, run: string, stamps: seq<Time>)
    requires run in b'.leases
    requires Applied(b, e, b') || Reported(b, e, b') || Idle(b, e, b')
    requires run in b.leases ==> Measures(stamps, b.leases[run], e.at)
    ensures Measures(if e.run != run || e.kind == Handoff || b'.findings != b.findings then stamps
                     else if e.kind == Heartbeat then stamps + [e.at] else [e.at],
                     b'.leases[run], e.at)
  {
  }

  lemma {:induction false} StampsMeasureLease(events: seq<Event>, run: string)
    requires Sorted(events) && run in Replay(events).leases
    ensures Measures(Stamps(events, run), Replay(events).leases[run], events[|events| - 1].at)
  {
    var front, e := events[..|events| - 1], events[|events| - 1];
    var b := Replay(front);
    if run in b.leases {
      StampsMeasureLease(front, run);
    }
    StepTrichotomy(b, e);
    StepMeasures(b, e, Step(b, e), run, Stamps(front, run));
  }

  lemma {:induction false} StampIsAccepted(events: seq<Event>, run: string, i: nat) returns (k: nat)
    requires i < |Stamps(events, run)|
    ensures k < |events| && events[k].run == run && events[k].at == Stamps(events, run)[i]
    ensures Accepted(Replay(events[..k]), events[k])
  {
    var front, e := events[..|events| - 1], events[|events| - 1];
    if e.run == run && Accepted(Replay(front), e) && (i == |Stamps(events, run)| - 1) {
      k := |events| - 1;
    } else {
      k := StampIsAccepted(front, run, i);
      assert front[..k] == events[..k];
    }
  }

  /** The latest stamp belongs to the last accepted event of the run. */
  lemma {:induction false} LastStampIsLast(events: seq<Event>, run: string) returns (last: nat)
    requires Stamps(events, run) != []
    ensures last < |events| && events[last].run == run && Accepted(Replay(events[..last]), events[last])
    ensures events[last].at == Stamps(events, run)[|Stamps(events, run)| - 1]
    ensures forall j :: last < j < |events| && events[j].run == run ==> !Accepted(Replay(events[..j]), events[j])
  {
    hide Step, Accepted, Replay;
    var front, e := events[..|events| - 1], events[|events| - 1];
    if e.run == run && Accepted(Replay(front), e) {
      last := |events| - 1;
    } else {
      last := LastStampIsLast(front, run);
      assert front[..last] == events[..last];
      forall j | last < j < |events| && events[j].run == run ensures !Accepted(Replay(events[..j]), events[j]) {
        if j < |front| {
          assert front[..j] == events[..j] && front[j] == events[j];
        }
      }
    }
  }

  lemma {:induction false} ChainCovers(stamps: seq<Time>, instant: Time) returns (i: nat)
    requires stamps != [] && Chained(stamps)
    requires stamps[0] <= instant < stamps[|stamps| - 1] + LEASE
    ensures i < |stamps| && stamps[i] <= instant < stamps[i] + LEASE
  {
    i := |stamps| - 1;
    if instant < stamps[i] {
      assert Chained(stamps[..i]);
      i := ChainCovers(stamps[..i], instant);
    }
  }

  /** Every instant of a lease lies less than 120 minutes after an accepted
      claim or heartbeat of its run, and an unreleased lease ends exactly 120
      minutes after the last accepted one. */
  lemma LeaseIsCovered(events: seq<Event>, run: string, instant: Time) returns (k: nat, last: nat)
    requires Sorted(events) && run in Replay(events).leases
    requires Replay(events).leases[run].start <= instant < Replay(events).leases[run].expires
    ensures k < |events| && events[k].run == run && Accepted(Replay(events[..k]), events[k])
    ensures events[k].at <= instant < events[k].at + LEASE
    ensures last < |events| && events[last].run == run && Accepted(Replay(events[..last]), events[last])
    ensures forall j :: last < j < |events| && events[j].run == run ==> !Accepted(Replay(events[..j]), events[j])
    ensures Replay(events).leases[run].expires <= events[last].at + LEASE
    ensures Replay(events).leases[run].releasedAt.None? ==>
              Replay(events).leases[run].expires == events[last].at + LEASE
  {
    StampsMeasureLease(events, run);
    var stamps := Stamps(events, run);
    var i := ChainCovers(stamps, instant);
    k := StampIsAccepted(events, run, i);
    last := LastStampIsLast(events, run);
  }

  lemma StepOnRun(b: Book, e: Event, b': Book, run: string)
    requires Applied(b, e, b') || Reported(b, e, b') || Idle(b, e, b')
    ensures b.leases.Keys <= b'.leases.Keys
    ensures run in b.leases && b.leases[run].releasedAt.Some? && b'.leases[run].releasedAt.None? ==>
              e.run == run && (e.kind == Claim || e.kind == Reclaim) && b'.findings == b.findings
  {
  }

  /** A released lease comes back to life only through an accepted claim. */
  lemma {:induction false} RevivalNeedsClaim(events: seq<Event>, run: string, i: nat, j: nat) returns (k: nat)
    requires i <= j <= |events|
    requires run in Replay(events[..i]).leases && Replay(events[..i]).leases[run].releasedAt.Some?
    requires run in Replay(events[..j]).leases && Replay(events[..j]).leases[run].releasedAt.None?
    ensures i <= k < j && events[k].run == run && (events[k].kind == Claim || events[k].kind == Reclaim)
    ensures Accepted(Replay(events[..k]), events[k])
  {
    if i == j {
      assert false;
    }
    var m := j - 1;
    ReplayStep(events, m);
    StepTrichotomy(Replay(events[..m]), events[m]);
    StepOnRun(Replay(events[..m]), events[m], Replay(events[..j]), run);
    KeepsKeys(events, i, m);
    if Replay(events[..m]).leases[run].releasedAt.None? {
      k := RevivalNeedsClaim(events, run, i, m);
    } else {
      k := m;
    }
  }

  lemma {:induction false} KeepsKeys(events: seq<Event>, i: nat, j: nat)
    requires i <= j <= |events|
    ensures Replay(events[..i]).leases.Keys <= Replay(events[..j]).leases.Keys
  {
    if i < j {
      KeepsKeys(events, i, j - 1);
      ReplayStep(events, j - 1);
      StepTrichotomy(Replay(events[..j - 1]), events[j - 1]);
      StepOnRun(Replay(events[..j - 1]), events[j - 1], Replay(events[..j]), "");
    }
  }

  // ----- Accounting and order independence -----

  datatype Outcomes = Outcomes(applied: nat, reported: nat, idle: nat)

  /** How many events of a history ended in each of the three outcomes. */
  ghost function Tally(events: seq<Event>): Outcomes {
    if events == [] then Outcomes(0, 0, 0)
    else
      var front, e := events[..|events| - 1], events[|events| - 1];
      var b, t := Replay(front), Tally(front);
      if Applied(b, e, Step(b, e)) then t.(applied := t.applied + 1)
      else if Reported(b, e, Step(b, e)) then t.(reported := t.reported + 1)
      else t.(idle := t.idle + 1)
  }

  /** No event is lost: each is applied, idle, or one finding of the result. */
  lemma {:induction false} EventsAreConserved(events: seq<Event>)
    ensures Tally(events).reported == |Replay(events).findings|
    ensures Tally(events).applied + Tally(events).reported + Tally(events).idle == |events|
  {
    if events != [] {
      var front, e := events[..|events| - 1], events[|events| - 1];
      EventsAreConserved(front);
      StepTrichotomy(Replay(front), e);
    }
  }

  lemma {:induction false} InsertSorted(events: seq<Event>, e: Event)
    requires Sorted(events)
    ensures Sorted(Insert(events, e))
    ensures forall i :: 0 <= i < |Insert(events, e)| ==> Insert(events, e)[i] == e || Insert(events, e)[i] in events
  {
    if events != [] && events[|events| - 1].at > e.at {
      InsertSorted(events[..|events| - 1], e);
    }
  }

  lemma {:induction false} SortIsSorted(events: seq<Event>)
    ensures Sorted(SortByTime(events))
  {
    if events != [] {
      SortIsSorted(events[..|events| - 1]);
      InsertSorted(SortByTime(events[..|events| - 1]), events[|events| - 1]);
    }
  }

  /** No two lease events of the bag share an instant. */
  ghost predicate DistinctTimes(bag: multiset<Event>) {
    && (forall e, f :: e in bag && f in bag && e != f ==> e.at != f.at)
    && (forall e :: e in bag ==> bag[e] == 1)
  }

  lemma RepeatCountsTwice(s: seq<Event>, i: nat, j: nat)
    requires i < j < |s|
    ensures s[i] == s[j] ==> multiset(s)[s[i]] >= 2
  {
    assert s == s[..j] + s[j..];
    assert s[i] in s[..j] && s[j] in s[j..];
  }

  lemma SortIsStrict(events: seq<Event>)
    requires DistinctTimes(multiset(events))
    ensures StrictlySorted(SortByTime(events))
  {
    SortIsSorted(events);
    var s := SortByTime(events);
    forall i, j | 0 <= i < j < |s| ensures s[i].at < s[j].at {
      assert s[i] in multiset(s) && s[j] in multiset(s);
      RepeatCountsTwice(s, i, j);
    }
  }

  lemma LastIsLatest(s: seq<Event>, e: Event)
    requires StrictlySorted(s) && e in multiset(s)
    ensures s != [] && e.at <= s[|s| - 1].at && (e.at == s[|s| - 1].at ==> e == s[|s| - 1])
  {
    var i :| 0 <= i < |s| && s[i] == e;
  }

  lemma StrictFront(s: seq<Event>)
    requires StrictlySorted(s) && s != []
    ensures StrictlySorted(s[..|s| - 1])
    ensures multiset(s[..|s| - 1]) == multiset(s) - multiset{s[|s| - 1]}
    ensures s[|s| - 1] in multiset(s) && s == s[..|s| - 1] + [s[|s| - 1]]
  {
    FrontBag(s);
  }

  lemma {:induction false} StrictOrderIsUnique(s: seq<Event>, t: seq<Event>)
    requires StrictlySorted(s) && StrictlySorted(t) && multiset(s) == multiset(t)
    ensures s == t
  {
    hide StrictlySorted;
    if s == [] {
      assert |multiset(t)| == 0;
    } else {
      StrictFront(s);
      LastIsLatest(t, s[|s| - 1]);
      StrictFront(t);
      LastIsLatest(s, t[|t| - 1]);
      StrictOrderIsUnique(s[..|s| - 1], t[..|t| - 1]);
    }
  }

  lemma FrontOfEvents(comments: seq<Comment>)
    requires comments != [] && Events(comments).Some?
    ensures Events(comments[..|comments| - 1]).Some?
    ensures var front, c := Events(comments[..|comments| - 1]).value, comments[|comments| - 1];
            multiset(Events(comments).value) == if c.Dated? then multiset(front) + multiset{c.event} else multiset(front)
  {
  }

  lemma {:induction false} EventBag(comments: seq<Comment>, e: Event)
    ensures Events(comments).None? <==> Undated in multiset(comments)
    ensures Events(comments).Some? ==> multiset(Events(comments).value)[e] == multiset(comments)[Dated(e)]
  {
    if comments != [] {
      EventBag(comments[..|comments| - 1], e);
      FrontBag(comments);
      if Events(comments).Some? {
        FrontOfEvents(comments);
      }
    }
  }

  /** Comments may be listed in any order: with distinct lease-event times the
      leases, their insertion order and the findings are the same. */
  lemma CommentOrderIsIrrelevant(comments: seq<Comment>, shuffled: seq<Comment>)
    requires multiset(comments) == multiset(shuffled)
    requires Events(comments).Some? ==> DistinctTimes(multiset(Events(comments).value))
    ensures BookOf(comments) == BookOf(shuffled)
  {
    var e0 := Event(Claim, "", 0, false);
    EventBag(comments, e0);
    EventBag(shuffled, e0);
    if Events(comments).Some? {
      var events, events' := Events(comments).value, Events(shuffled).value;
      forall e: Event ensures multiset(events)[e] == multiset(events')[e] {
        EventBag(comments, e);
        EventBag(shuffled, e);
      }
      assert multiset(events) == multiset(events');
      SortIsStrict(events);
      SortIsStrict(events');
      StrictOrderIsUnique(SortByTime(events), SortByTime(events'));
    }
  }

  /** End to end: with distinct lease-event times two runs are never active
      together under the parsed leases. */
  lemma ParsedLeasesExclude(comments: seq<Comment>, run: string, other: string, instant: Time)
    requires Events(comments).Some? && DistinctTimes(multiset(Events(comments).value))
    requires run in BookOf(comments).value.leases && other in BookOf(comments).value.leases && run != other
    ensures !(BookOf(comments).value.leases[run].ActiveAt(instant) && BookOf(comments).value.leases[other].ActiveAt(instant))
  {
    SortIsStrict(Events(comments).value);
    LeasesExclude(SortByTime(Events(comments).value), run, other, instant);
  }
}
