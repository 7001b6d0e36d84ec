/** Compensation, rollback and run invariants of the room controller. */
module TelephonySafety {
  import opened Basics
  import opened Telephony

  /** Clean-up calls do not fail; primary calls may fail in any pattern. */
  ghost predicate Reliable(f: Faults) {
    forall n :: !f(n, Cleanup)
  }

  ghost predicate WfRoom(room: Room) {
    && room.publishing <= room.present
    && forall e :: e in room.edges ==> e.0 in room.present && e.1 in room.present
  }

  ghost predicate Cut(room: Room, a: Id, b: Id) {
    (a, b) !in room.edges && (b, a) !in room.edges
  }

  function Both(room: Room, a: Id, b: Id, on: bool): Room {
    WithEdge(WithEdge(room, (b, a), on), (a, b), on)
  }

  // ----- One bidirectional change -----

  /** The first direction was switched and the second call failed. */
  ghost predicate HalfDone(s: Site, f: Faults, purpose: Purpose, a: Id, b: Id, on: bool) {
    var t1 := Tracks(s, f, purpose, a);
    var t2 := Tracks(t1.site, f, purpose, b);
    var u1 := Update(t2.site, f, purpose, b, a, t1.any, on);
    t1.ok && t2.ok && u1.ok && !Update(u1.site, f, purpose, a, b, t2.any, on).ok
  }

  /** All or nothing: success switches both directions; failure leaves the room
      as it was exactly when nothing had been switched, or the direction that
      was switched and undone had the opposite value before. */
  lemma BidirectionalIsAtomic(s: Site, f: Faults, purpose: Purpose, a: Id, b: Id, on: bool)
    requires Reliable(f)
    ensures var r := SetBoth(s, f, purpose, a, b, on);
            if r.ok then r.site.room == Both(s.room, a, b, on)
            else (r.site.room == s.room <==> !HalfDone(s, f, purpose, a, b, on) || ((b, a) in s.room.edges <==> !on))
                 && (HalfDone(s, f, purpose, a, b, on) ==> r.site.room == WithEdge(s.room, (b, a), !on))
  {
    var edges := s.room.edges;
    assert edges + {(b, a)} - {(b, a)} == edges - {(b, a)};
    assert edges - {(b, a)} + {(b, a)} == edges + {(b, a)};
    assert (b, a) in edges <==> edges + {(b, a)} == edges;
    assert (b, a) !in edges <==> edges - {(b, a)} == edges;
  }

  /** All four calls of the change go through. */
  predicate Switches(s: Site, f: Faults, purpose: Purpose, a: Id, b: Id) {
    && a in s.room.publishing && b in s.room.publishing
    && !f(s.calls, purpose) && !f(s.calls + 1, purpose) && !f(s.calls + 2, purpose) && !f(s.calls + 3, purpose)
  }

  /** The first direction is switched, the second fails and so does the undo. A
      participant without tracks fails the second without a call. */
  predicate Torn(s: Site, f: Faults, purpose: Purpose, a: Id, b: Id) {
    && a in s.room.publishing && b in s.room.present
    && !f(s.calls, purpose) && !f(s.calls + 1, purpose) && !f(s.calls + 2, purpose)
    && if b in s.room.publishing then f(s.calls + 3, purpose) && f(s.calls + 4, Cleanup) else f(s.calls + 3, Cleanup)
  }

  /** What a bidirectional change does, under any pattern of failures at all. */
  lemma SetBothOutcome(s: Site, f: Faults, purpose: Purpose, a: Id, b: Id, on: bool)
    requires WfRoom(s.room)
    ensures var r, room := SetBoth(s, f, purpose, a, b, on), s.room;
            && WfRoom(r.site.room) && r.site.room.present == room.present && r.site.room.publishing == room.publishing
            && (r.ok <==> Switches(s, f, purpose, a, b))
            && (r.ok ==> r.site == Site(Both(room, a, b, on), s.calls + 4))
            && (Torn(s, f, purpose, a, b) ==> !r.ok && r.site.room == WithEdge(room, (b, a), on))
            && (!r.ok && !Torn(s, f, purpose, a, b) ==> r.site.room == room || r.site.room == WithEdge(room, (b, a), !on))
  {
    var edges := s.room.edges;
    assert edges + {(b, a)} - {(b, a)} == edges - {(b, a)};
    assert edges - {(b, a)} + {(b, a)} == edges + {(b, a)};
  }

  /** The same when clean-up calls do not fail. */
  lemma SetBothFacts(s: Site, f: Faults, purpose: Purpose, a: Id, b: Id, on: bool)
    requires Reliable(f) && WfRoom(s.room)
    ensures var r, room := SetBoth(s, f, purpose, a, b, on), s.room;
            && WfRoom(r.site.room) && r.site.room.present == room.present && r.site.room.publishing == room.publishing
            && (r.ok ==> r.site.room == Both(room, a, b, on) && a in room.publishing && b in room.publishing)
            && (!r.ok ==> r.site.room == room || r.site.room == WithEdge(room, (b, a), !on))
            && (purpose == Cleanup && a in room.publishing && b in room.publishing ==> r.ok)
  {
    SetBothOutcome(s, f, purpose, a, b, on);
  }

  // ----- The run invariant -----

  ghost predicate Safe(c: Session, caller: Id, human: Id) {
    && WfRoom(c.site.room)
    && (c.music ==> Cut(c.site.room, caller, human))
    && (c.consultation.Some? ==>
          var st := c.consultation.value;
          && c.music && st.caller == caller && st.human == human && st.target != caller
          && Cut(c.site.room, caller, st.target))
  }

  lemma HoldIsSafe(c: Session, f: Faults, caller: Id, human: Id)
    requires Safe(c, caller, human)
    ensures Safe(SetHold(c, f, caller, human, true).session, caller, human)
  {
    SetBothOutcome(c.site, f, Primary, caller, human, false);
    hide SetBoth;
  }

  /** A resume that fails must have undone what it switched. */
  predicate ResumeLeaks(c: Session, f: Faults, caller: Id, human: Id) {
    && caller != "" && human != "" && c.consultation.None? && c.music
    && Torn(c.site, f, Primary, caller, human)
  }

  lemma ResumeIsSafeIff(c: Session, f: Faults, caller: Id, human: Id)
    requires Safe(c, caller, human)
    ensures Safe(SetHold(c, f, caller, human, false).session, caller, human) <==> !ResumeLeaks(c, f, caller, human)
  {
    SetBothOutcome(c.site, f, Primary, caller, human, true);
    hide SetBoth, Torn, Switches;
  }

  lemma RemoveFacts(s: Site, f: Faults, purpose: Purpose, who: Id)
    requires WfRoom(s.room)
    ensures var r := Remove(s, f, purpose, who).site.room;
            WfRoom(r) && r.edges <= s.room.edges && r.present <= s.room.present && r.publishing <= s.room.publishing
  {
  }

  /** A room in which a new leg has joined and is heard. */
  function Answered(room: Room, target: Id): Room {
    var joined := Joined(room, target);
    joined.(publishing := joined.publishing + {target})
  }

  lemma DialFacts(s: Site, f: Faults, target: Id)
    requires WfRoom(s.room)
    ensures var d := Dial(s, f, target);
            && WfRoom(d.site.room)
            && (d.ok ==> target !in s.room.present && d.site.room == Joined(s.room, target))
            && (!d.ok ==> d.site.room == s.room)
            && var h := Await(d.site, f, target);
            && (d.ok ==> WfRoom(h.site.room))
            && (d.ok && h.ok ==> h.site.room == Answered(s.room, target))
            && (!h.ok ==> h.site.room == d.site.room)
  {
  }

  /** Undoing leaves a well-formed room. */
  lemma UndoIsWf(s: Site, f: Faults, caller: Id, human: Id, target: Id, created: bool)
    requires WfRoom(s.room)
    ensures WfRoom(Undo(s, f, caller, human, target, created).room)
  {
    RemoveFacts(s, f, Cleanup, target);
    SetBothOutcome(if created then Remove(s, f, Cleanup, target).site else s, f, Cleanup, caller, human, true);
    hide SetBoth;
  }

  lemma StartIsSafe(c: Session, f: Faults, identity: string -> Id, cmd: Command)
    requires Safe(c, cmd.caller, cmd.human)
    ensures Safe(StartConsultation(c, f, identity, cmd).session, cmd.caller, cmd.human)
  {
    hide SetBoth, Dial, Await, Undo, Torn;
    if cmd.caller != "" && cmd.human != "" && cmd.target != "" && cmd.trunk != "" && c.consultation.None? {
      var target := identity(cmd.id);
      var isolated := SetBoth(c.site, f, Primary, cmd.caller, cmd.human, false);
      SetBothOutcome(c.site, f, Primary, cmd.caller, cmd.human, false);
      DialFacts(isolated.site, f, target);
      var dialed := Dial(isolated.site, f, target);
      UndoIsWf(dialed.site, f, cmd.caller, cmd.human, target, false);
      if isolated.ok && dialed.ok {
        var heard := Await(dialed.site, f, target);
        UndoIsWf(heard.site, f, cmd.caller, cmd.human, target, true);
        SetBothOutcome(heard.site, f, Primary, cmd.caller, target, false);
        var cut := SetBoth(heard.site, f, Primary, cmd.caller, target, false);
        UndoIsWf(cut.site, f, cmd.caller, cmd.human, target, true);
      }
    }
  }

  /** The bridge stands, the human cannot be removed, and one of the calls that
      take the bridge down again fails. When caller and target are the same, the
      last of these can be made good by the failure of its own undo. */
  predicate BridgeStays(s: Site, f: Faults, caller: Id, target: Id, human: Id) {
    && Switches(s, f, Primary, caller, target)
    && (f(s.calls + 4, Primary) || human !in s.room.present)
    && (f(s.calls + 5, Cleanup) || f(s.calls + 6, Cleanup) || f(s.calls + 7, Cleanup)
        || (f(s.calls + 8, Cleanup) && (caller == target ==> !f(s.calls + 9, Cleanup))))
  }

  /** Without a recorded consultation the bridged target is the first listed
      participant that looks like one; a bridge to it matters only if it is the human. */
  predicate CompleteLeaks(c: Session, f: Faults, view: seq<Id>, caller: Id, human: Id) {
    var target := FindTarget(c, view);
    && caller != "" && human != "" && target.Some? && target.value != ""
    && c.music && (c.consultation.Some? || target.value == human)
    && (Torn(c.site, f, Primary, caller, target.value) || BridgeStays(c.site, f, caller, target.value, human))
  }

  lemma BridgeStaysIff(s: Site, f: Faults, caller: Id, target: Id, human: Id)
    requires WfRoom(s.room) && Switches(s, f, Primary, caller, target)
    ensures var bridged := SetBoth(s, f, Primary, caller, target, true);
            var removed := Remove(bridged.site, f, Primary, human);
            var after := SetBoth(removed.site, f, Cleanup, caller, target, false).site.room;
            && (removed.ok <==> !f(s.calls + 4, Primary) && human in s.room.present)
            && (!removed.ok ==> WfRoom(after) && (Cut(after, caller, target) <==> !BridgeStays(s, f, caller, target, human)))
            && (!removed.ok ==> forall e :: e != (caller, target) && e != (target, caller) ==> (e in after.edges <==> e in s.room.edges))
  {
    SetBothOutcome(s, f, Primary, caller, target, true);
    var bridged := SetBoth(s, f, Primary, caller, target, true);
    var removed := Remove(bridged.site, f, Primary, human);
    if !removed.ok {
      SetBothOutcome(removed.site, f, Cleanup, caller, target, false);
    }
  }

  lemma CompleteIsSafeIff(c: Session, f: Faults, view: seq<Id>, caller: Id, human: Id)
    requires Safe(c, caller, human)
    ensures Safe(CompleteConsultation(c, f, view, caller, human).session, caller, human) <==>
            !CompleteLeaks(c, f, view, caller, human)
  {
    hide SetBoth, Remove, Torn, Switches;
    var found := FindTarget(c, view);
    if caller != "" && human != "" && found.Some? && found.value != "" {
      var target := found.value;
      var bridged := SetBoth(c.site, f, Primary, caller, target, true);
      SetBothOutcome(c.site, f, Primary, caller, target, true);
      if bridged.ok {
        RemoveFacts(bridged.site, f, Primary, human);
        BridgeStaysIff(c.site, f, caller, target, human);
      }
    }
  }

  lemma FailedRemoveChangesNothing(s: Site, f: Faults, purpose: Purpose, who: Id)
    ensures !Remove(s, f, purpose, who).ok ==> Remove(s, f, purpose, who).site.room == s.room
  {
  }

  /** The room as a cancel reconnects it, with the target hung up if possible. */
  function HungUp(c: Session, f: Faults, view: seq<Id>): Site {
    var target := FindTarget(c, view);
    if target.Some? && target.value != "" then Remove(c.site, f, Primary, target.value).site else c.site
  }

  predicate CancelLeaks(c: Session, f: Faults, view: seq<Id>, caller: Id, human: Id) {
    caller != "" && human != "" && c.music && Torn(HungUp(c, f, view), f, Primary, caller, human)
  }

  lemma CancelIsSafeIff(c: Session, f: Faults, view: seq<Id>, caller: Id, human: Id)
    requires Safe(c, caller, human)
    ensures Safe(CancelConsultation(c, f, view, caller, human).session, caller, human) <==>
            !CancelLeaks(c, f, view, caller, human)
  {
    hide SetBoth, Remove, Torn, Switches;
    var found := FindTarget(c, view);
    if found.Some? {
      RemoveFacts(c.site, f, Primary, found.value);
    }
    SetBothOutcome(HungUp(c, f, view), f, Primary, caller, human, true);
  }

  lemma RecoverIsSafe(c: Session, f: Faults, who: Id, caller: Id, human: Id)
    requires Safe(c, caller, human)
    ensures Safe(RecoverLocked(c, f, who), caller, human)
  {
    hide SetBoth, Remove;
    if c.consultation.Some? {
      var st := c.consultation.value;
      SetBothOutcome(c.site, f, Primary, st.caller, st.human, true);
      RemoveFacts(c.site, f, Primary, st.target);
    }
  }

  /** The commands of one call, one at a time, with recovery and departures;
      nobody joins or comes back except the target a transfer dials. */
  datatype Event =
    | Hold | Resume
    | WarmTransfer(id: string, target: string, trunk: string)
    | Complete(view: seq<Id>) | Cancel(view: seq<Id>)
    | Disconnected(who: Id)  // a recovery task runs
    | Leave(gone: Id)        // a participant drops out of the room

  function Next(c: Session, f: Faults, identity: string -> Id, caller: Id, human: Id, e: Event): Session {
    match e
    case Hold => SetHold(c, f, caller, human, true).session
    case Resume => SetHold(c, f, caller, human, false).session
    case WarmTransfer(id, target, trunk) => StartConsultation(c, f, identity, Command(id, caller, human, target, trunk)).session
    case Complete(view) => CompleteConsultation(c, f, view, caller, human).session
    case Cancel(view) => CancelConsultation(c, f, view, caller, human).session
    case Disconnected(who) => Recover(c, f, who)
    case Leave(who) => c.(site := c.site.(room := Without(c.site.room, who)))
  }

  function Run(c: Session, f: Faults, identity: string -> Id, caller: Id, human: Id, events: seq<Event>): Session {
    if events == [] then c
    else Next(Run(c, f, identity, caller, human, events[..|events| - 1]), f, identity, caller, human, events[|events| - 1])
  }

  /** Only three commands can break the invariant, and exactly then. */
  predicate Leaks(c: Session, f: Faults, caller: Id, human: Id, e: Event) {
    match e
    case Resume => ResumeLeaks(c, f, caller, human)
    case Complete(view) => CompleteLeaks(c, f, view, caller, human)
    case Cancel(view) => CancelLeaks(c, f, view, caller, human)
    case _ => false
  }

  lemma NextIsSafeIff(c: Session, f: Faults, identity: string -> Id, caller: Id, human: Id, e: Event)
    requires Safe(c, caller, human)
    ensures Safe(Next(c, f, identity, caller, human, e), caller, human) <==> !Leaks(c, f, caller, human, e)
  {
    hide SetHold, StartConsultation, CompleteConsultation, CancelConsultation, RecoverLocked, ResumeLeaks, CompleteLeaks, CancelLeaks;
    match e
    case Hold => HoldIsSafe(c, f, caller, human);
    case Resume => ResumeIsSafeIff(c, f, caller, human);
    case WarmTransfer(id, target, trunk) => StartIsSafe(c, f, identity, Command(id, caller, human, target, trunk));
    case Complete(view) => CompleteIsSafeIff(c, f, view, caller, human);
    case Cancel(view) => CancelIsSafeIff(c, f, view, caller, human);
    case Disconnected(who) => RecoverIsSafe(c, f, who, caller, human);
    case Leave(who) =>
  }

  /** A run is safe at every point exactly when no step of it leaks, whichever
      calls fail, clean-up calls included. */
  lemma RunIsSafeIff(site: Site, f: Faults, identity: string -> Id, caller: Id, human: Id, events: seq<Event>)
    requires WfRoom(site.room)
    ensures (forall k :: 0 <= k <= |events| ==> Safe(Run(Session(site, None, false), f, identity, caller, human, events[..k]), caller, human))
            <==> (forall k :: 0 <= k < |events| ==>
                    !Leaks(Run(Session(site, None, false), f, identity, caller, human, events[..k]), f, caller, human, events[k]))
  {
    hide Safe, Leaks;
    var idle := Session(site, None, false);
    forall k | 0 <= k < |events|
      ensures Run(idle, f, identity, caller, human, events[..k + 1])
              == Next(Run(idle, f, identity, caller, human, events[..k]), f, identity, caller, human, events[k])
    {
      assert events[..k + 1][..k] == events[..k];
    }
    if forall k :: 0 <= k <= |events| ==> Safe(Run(idle, f, identity, caller, human, events[..k]), caller, human) {
      forall k | 0 <= k < |events| ensures !Leaks(Run(idle, f, identity, caller, human, events[..k]), f, caller, human, events[k]) {
        assert Safe(Run(idle, f, identity, caller, human, events[..k + 1]), caller, human);
        NextIsSafeIff(Run(idle, f, identity, caller, human, events[..k]), f, identity, caller, human, events[k]);
      }
    }
    if forall k :: 0 <= k < |events| ==> !Leaks(Run(idle, f, identity, caller, human, events[..k]), f, caller, human, events[k]) {
      forall k | 0 <= k <= |events| ensures Safe(Run(idle, f, identity, caller, human, events[..k]), caller, human) {
        PrefixIsSafe(site, f, identity, caller, human, events, k);
      }
    }
  }

  lemma {:induction false} PrefixIsSafe(site: Site, f: Faults, identity: string -> Id, caller: Id, human: Id, events: seq<Event>, k: nat)
    requires WfRoom(site.room) && k <= |events|
    requires forall j :: 0 <= j < |events| ==>
               !Leaks(Run(Session(site, None, false), f, identity, caller, human, events[..j]), f, caller, human, events[j])
    ensures Safe(Run(Session(site, None, false), f, identity, caller, human, events[..k]), caller, human)
  {
    if k > 0 {
      hide Safe, Leaks;
      PrefixIsSafe(site, f, identity, caller, human, events, k - 1);
      assert events[..k][..k - 1] == events[..k - 1];
      NextIsSafeIff(Run(Session(site, None, false), f, identity, caller, human, events[..k - 1]), f, identity, caller, human, events[k - 1]);
    }
  }

  lemma ReliableNeverLeaks(c: Session, f: Faults, caller: Id, human: Id, e: Event)
    requires Reliable(f)
    ensures !Leaks(c, f, caller, human, e)
  {
  }

  lemma NextIsSafe(c: Session, f: Faults, identity: string -> Id, caller: Id, human: Id, e: Event)
    requires Reliable(f) && Safe(c, caller, human)
    ensures Safe(Next(c, f, identity, caller, human, e), caller, human)
  {
    hide Safe, Leaks, Next;
    NextIsSafeIff(c, f, identity, caller, human, e);
    ReliableNeverLeaks(c, f, caller, human, e);
  }

  /** Over every run, whichever primary calls fail: hold music means caller and
      human do not hear each other, and a recorded consultation means hold music
      and a caller cut off from human and target in both directions. */
  lemma {:induction false} RunIsSafe(site: Site, f: Faults, identity: string -> Id, caller: Id, human: Id, events: seq<Event>)
    requires Reliable(f) && WfRoom(site.room)
    ensures Safe(Run(Session(site, None, false), f, identity, caller, human, events), caller, human)
  {
    if events != [] {
      RunIsSafe(site, f, identity, caller, human, events[..|events| - 1]);
      NextIsSafe(Run(Session(site, None, false), f, identity, caller, human, events[..|events| - 1]), f, identity, caller, human,
                 events[|events| - 1]);
    }
  }

  // ----- Each leak is possible -----

  /** A resume whose second update and whose undo both fail leaves the music
      playing while the human hears the caller. */
  lemma FailedUndoLeaksAudio()
    ensures var f: Faults := (n, p) => n == 3 || n == 4;
            var c := Session(Site(Room({"a", "b"}, {"a", "b"}, {}), 0), None, true);
            var r := SetHold(c, f, "a", "b", false);
            Safe(c, "a", "b") && !r.ok && r.session.music && !Cut(r.session.site.room, "a", "b")
  {
    var f: Faults := (n, p) => n == 3 || n == 4;
    var room := Room({"a", "b"}, {"a", "b"}, {});
    assert SetBoth(Site(room, 0), f, Primary, "a", "b", true).site.room == WithEdge(room, ("b", "a"), true);
  }

  function Consulting(): Session {
    var all: set<Id> := {"a", "b", "t"};
    Session(Site(Room(all, all, {}), 0), Some(Consultation("x", "t", "a", "b")), true)
  }

  /** A completion that cannot remove the human and then cannot take the bridge
      down leaves the caller and the target connected under the music. */
  lemma FailedUnbridgeLeaksAudio()
    ensures var f: Faults := (n, p) => n == 4 || n == 5;
            var r := CompleteConsultation(Consulting(), f, [], "a", "b");
            && Safe(Consulting(), "a", "b") && !r.ok && r.session.music && r.session.consultation.Some?
            && !Safe(r.session, "a", "b")
  {
    CompleteIsSafeIff(Consulting(), (n, p) => n == 4 || n == 5, [], "a", "b");
  }

  /** A cancel whose reconnection fails half-way leaves the human hearing the
      caller under the music, with the consultation still recorded. */
  lemma FailedReconnectLeaksAudio()
    ensures var f: Faults := (n, p) => n == 4 || n == 5;
            var r := CancelConsultation(Consulting(), f, [], "a", "b");
            && Safe(Consulting(), "a", "b") && !r.ok && r.session.music && r.session.consultation.Some?
            && !Safe(r.session, "a", "b")
  {
    CancelIsSafeIff(Consulting(), (n, p) => n == 4 || n == 5, [], "a", "b");
  }

  // ----- The warm-transfer saga -----

  ghost predicate Connected(room: Room, caller: Id, human: Id) {
    && caller in room.publishing && human in room.publishing
    && (caller, human) in room.edges && (human, caller) in room.edges
  }

  /** Room `r` differs from `room` only by one extra participant. */
  ghost predicate OnlyAdds(r: Room, room: Room, target: Id) {
    && target !in room.present
    && r.present == room.present + {target} && r.publishing - {target} == room.publishing
    && forall e: (Id, Id) :: e.0 != target && e.1 != target ==> (e in r.edges <==> e in room.edges)
  }

  lemma RemovingRestores(r: Room, room: Room, target: Id)
    requires WfRoom(room) && OnlyAdds(r, room, target)
    ensures Without(r, target) == room
  {
    assert r.present - {target} == room.present;
    assert (set e | e in r.edges && e.0 != target && e.1 != target) == room.edges;
  }

  lemma ReconnectingRestores(room: Room, caller: Id, human: Id)
    requires Connected(room, caller, human)
    ensures Both(Both(room, caller, human, false), caller, human, true) == room
  {
    assert Both(Both(room, caller, human, false), caller, human, true).edges == room.edges;
  }

  /** Undoing an isolated call, with or without the extra leg, gives back the
      connected room it started from. */
  lemma UndoRestores(s: Site, f: Faults, room: Room, caller: Id, human: Id, target: Id, created: bool)
    requires Reliable(f) && WfRoom(room) && WfRoom(s.room) && Connected(room, caller, human)
    requires if created then OnlyAdds(s.room, Both(room, caller, human, false), target) else s.room == Both(room, caller, human, false)
    ensures Undo(s, f, caller, human, target, created).room == room
  {
    hide SetBoth;
    var isolated := Both(room, caller, human, false);
    if created {
      RemovingRestores(s.room, isolated, target);
    }
    var s' := if created then Remove(s, f, Cleanup, target).site else s;
    assert s'.room == isolated;
    SetBothFacts(s', f, Cleanup, caller, human, true);
    ReconnectingRestores(room, caller, human);
  }

  /** From a connected call: either the consultation stands, with the caller cut
      off from human and target, these two hearing each other and everything
      else as it was; or nothing is recorded, the music is off and the room is
      exactly the initial one. */
  lemma SagaIsAtomic(c: Session, f: Faults, identity: string -> Id, cmd: Command)
    requires Reliable(f) && WfRoom(c.site.room) && c.consultation.None? && !c.music
    requires Connected(c.site.room, cmd.caller, cmd.human) && identity(cmd.id) !in c.site.room.present
    ensures var r, target, room := StartConsultation(c, f, identity, cmd), identity(cmd.id), c.site.room;
            var after := r.session.site.room;
            if r.ok then
              && r.session.consultation == Some(Consultation(cmd.id, target, cmd.caller, cmd.human)) && r.session.music
              && after == Both(Answered(Both(room, cmd.caller, cmd.human, false), target), cmd.caller, target, false)
              && target in after.publishing && Cut(after, cmd.caller, cmd.human) && Cut(after, cmd.caller, target)
              && (cmd.caller != cmd.human ==> (cmd.human, target) in after.edges && (target, cmd.human) in after.edges)
            else r.session.consultation == None && !r.session.music && after == room
  {
    hide SetBoth, Dial, Await, Undo;
    if cmd.caller != "" && cmd.human != "" && cmd.target != "" && cmd.trunk != "" {
      var target, room := identity(cmd.id), c.site.room;
      var isolated := SetBoth(c.site, f, Primary, cmd.caller, cmd.human, false);
      SetBothFacts(c.site, f, Primary, cmd.caller, cmd.human, false);
      if !isolated.ok {
        assert room.edges + {(cmd.human, cmd.caller)} == room.edges;
      } else {
        DialFacts(isolated.site, f, target);
        var dialed := Dial(isolated.site, f, target);
        if !dialed.ok {
          UndoRestores(dialed.site, f, room, cmd.caller, cmd.human, target, false);
        } else {
          SagaTail(dialed.site, f, room, cmd, target);
        }
      }
    }
  }

  /** The part of the saga after the leg exists. */
  lemma SagaTail(s: Site, f: Faults, room: Room, cmd: Command, target: Id)
    requires Reliable(f) && WfRoom(room) && WfRoom(s.room) && Connected(room, cmd.caller, cmd.human) && target !in room.present
    requires s.room == Joined(Both(room, cmd.caller, cmd.human, false), target)
    ensures var heard := Await(s, f, target);
            if !heard.ok then Undo(heard.site, f, cmd.caller, cmd.human, target, true).room == room
            else
              var cut := SetBoth(heard.site, f, Primary, cmd.caller, target, false);
              && heard.site.room == Answered(Both(room, cmd.caller, cmd.human, false), target)
              && (cut.ok ==> cut.site.room == Both(heard.site.room, cmd.caller, target, false))
              && (!cut.ok ==> Undo(cut.site, f, cmd.caller, cmd.human, target, true).room == room)
  {
    hide SetBoth, Undo;
    var isolated := Both(room, cmd.caller, cmd.human, false);
    var heard := Await(s, f, target);
    assert OnlyAdds(heard.site.room, isolated, target);
    if !heard.ok {
      UndoRestores(heard.site, f, room, cmd.caller, cmd.human, target, true);
    } else {
      var cut := SetBoth(heard.site, f, Primary, cmd.caller, target, false);
      SetBothFacts(heard.site, f, Primary, cmd.caller, target, false);
      if !cut.ok {
        assert OnlyAdds(cut.site.room, isolated, target);
        UndoRestores(cut.site, f, room, cmd.caller, cmd.human, target, true);
      }
    }
  }

  /** A command replayed while its consultation stands is acknowledged without a
      single call, hence without a second leg; a different one is refused. */
  lemma ReplayMakesNoCall(c: Session, f: Faults, identity: string -> Id, cmd: Command, again: Command)
    requires c.consultation.None? && StartConsultation(c, f, identity, cmd).ok
    ensures var started := StartConsultation(c, f, identity, cmd).session;
            var r := StartConsultation(started, f, identity, again);
            && r.session == started
            && (r.ok <==> again.id == cmd.id && again.caller != "" && again.human != "" && again.target != "" && again.trunk != "")
  {
    hide SetBoth, Dial, Await, Undo;
  }

  /** Completing a standing consultation is atomic too: the caller and target
      are bridged and the human is gone, or everything is exactly as before. */
  lemma CompletionIsAtomic(c: Session, f: Faults, view: seq<Id>, caller: Id, human: Id)
    requires Reliable(f) && Safe(c, caller, human) && c.consultation.Some?
    requires var target := c.consultation.value.target; human != caller && human != target
    ensures var r, target := CompleteConsultation(c, f, view, caller, human), c.consultation.value.target;
            var after := r.session.site.room;
            if r.ok then
              && r.session.consultation == None && !r.session.music && human !in after.present
              && (caller, target) in after.edges && (target, caller) in after.edges
            else r.session.consultation == c.consultation && r.session.music && after == c.site.room
  {
    hide SetBoth;
    var target, room := c.consultation.value.target, c.site.room;
    if caller != "" && human != "" && target != "" {
      var bridged := SetBoth(c.site, f, Primary, caller, target, true);
      SetBothFacts(c.site, f, Primary, caller, target, true);
      if !bridged.ok {
        assert room.edges - {(target, caller)} == room.edges;
      } else {
        var removed := Remove(bridged.site, f, Primary, human);
        FailedRemoveChangesNothing(bridged.site, f, Primary, human);
        if !removed.ok {
          SetBothFacts(removed.site, f, Cleanup, caller, target, false);
          assert Both(Both(room, caller, target, true), caller, target, false).edges == room.edges;
        }
      }
    }
  }

  /** Cancelling reconnects caller and human and hangs up the target unless that
      very call failed; when the reconnection fails the consultation stands. */
  lemma CancellationOutcome(c: Session, f: Faults, view: seq<Id>, caller: Id, human: Id)
    requires Reliable(f) && Safe(c, caller, human) && c.consultation.Some? && c.consultation.value.target != ""
    ensures var r, target := CancelConsultation(c, f, view, caller, human), c.consultation.value.target;
            var after := r.session.site.room;
            if r.ok then
              && r.session.consultation == None && !r.session.music
              && (caller, human) in after.edges && (human, caller) in after.edges
              && (target in after.present ==> f(c.site.calls, Primary))
            else
              && r.session.consultation == c.consultation && r.session.music
              && (after == c.site.room || after == Without(c.site.room, target))
  {
    hide SetBoth;
    var target := c.consultation.value.target;
    var hung := Remove(c.site, f, Primary, target);
    FailedRemoveChangesNothing(c.site, f, Primary, target);
    RemoveFacts(c.site, f, Primary, target);
    SetBothFacts(hung.site, f, Primary, caller, human, true);
    assert hung.site.room.edges - {(human, caller)} == hung.site.room.edges;
  }
}
