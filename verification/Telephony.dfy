/** The room controller: hold, resume and the warm-transfer saga over a remote
    room whose every call may fail. */
module Telephony {
  import opened Basics

  type Id = string

  /** A call made to undo earlier ones is a clean-up call. */
  datatype Purpose = Primary | Cleanup

  /** Which calls fail, by call number and purpose; a failed call changes nothing. */
  type Faults = (nat, Purpose) -> bool

  /** `edges` holds a pair (subscriber, publisher) when the first hears the second. */
  datatype Room = Room(present: set<Id>, publishing: set<Id>, edges: set<(Id, Id)>)

  datatype Site = Site(room: Room, calls: nat)
  datatype Reply = Reply(site: Site, ok: bool)
  datatype TrackReply = TrackReply(site: Site, ok: bool, any: bool)

  // ----- The remote service -----

  function Count(s: Site): Site {
    s.(calls := s.calls + 1)
  }

  function Tracks(s: Site, f: Faults, purpose: Purpose, who: Id): TrackReply {
    if f(s.calls, purpose) || who !in s.room.present then TrackReply(Count(s), false, false)
    else TrackReply(Count(s), true, who in s.room.publishing)
  }

  function WithEdge(room: Room, edge: (Id, Id), on: bool): Room {
    room.(edges := if on then room.edges + {edge} else room.edges - {edge})
  }

  /** Without a track there is nothing to subscribe to and no call is made. */
  function Update(s: Site, f: Faults, purpose: Purpose, subscriber: Id, publisher: Id, any: bool, on: bool): Reply {
    if !any then Reply(s, false)
    else if f(s.calls, purpose) || subscriber !in s.room.present then Reply(Count(s), false)
    else Reply(Count(s).(room := WithEdge(s.room, (subscriber, publisher), on)), true)
  }

  function Without(room: Room, who: Id): Room {
    Room(room.present - {who}, room.publishing - {who}, set e | e in room.edges && e.0 != who && e.1 != who)
  }

  function Remove(s: Site, f: Faults, purpose: Purpose, who: Id): Reply {
    if f(s.calls, purpose) || who !in s.room.present then Reply(Count(s), false)
    else Reply(Count(s).(room := Without(s.room, who)), true)
  }

  /** A new leg hears everyone and is heard by everyone. */
  function Joined(room: Room, who: Id): Room {
    room.(present := room.present + {who},
          edges := room.edges + (set p | p in room.present :: (who, p)) + (set p | p in room.present :: (p, who)))
  }

  function Dial(s: Site, f: Faults, who: Id): Reply {
    if f(s.calls, Primary) || who in s.room.present then Reply(Count(s), false)
    else Reply(Count(s).(room := Joined(s.room, who)), true)
  }

  /** Waiting for the first track of a participant, as one step. */
  function Await(s: Site, f: Faults, who: Id): Reply {
    if f(s.calls, Primary) || who !in s.room.present then Reply(Count(s), false)
    else Reply(Count(s).(room := s.room.(publishing := s.room.publishing + {who})), true)
  }

  /** Both directions between two participants, with the first undone when the
      second fails. */
  function SetBoth(s: Site, f: Faults, purpose: Purpose, caller: Id, human: Id, on: bool): Reply {
    var t1 := Tracks(s, f, purpose, caller);
    if !t1.ok then Reply(t1.site, false)
    else
      var t2 := Tracks(t1.site, f, purpose, human);
      if !t2.ok then Reply(t2.site, false)
      else
        var u1 := Update(t2.site, f, purpose, human, caller, t1.any, on);
        if !u1.ok then u1
        else
          var u2 := Update(u1.site, f, purpose, caller, human, t2.any, on);
          if u2.ok then u2
          else Reply(Update(u2.site, f, Cleanup, human, caller, t1.any, !on).site, false)
  }

  // ----- The controller's state and commands -----

  datatype Consultation = Consultation(command: string, target: Id, caller: Id, human: Id)

  datatype Session = Session(site: Site, consultation: Option<Consultation>, music: bool) {
    function Idle(site': Site): Session {
      Session(site', None, false)
    }
  }

  datatype Outcome = Outcome(session: Session, ok: bool)

  datatype Command = Command(id: string, caller: Id, human: Id, target: string, trunk: string)

  const CONSULTATION_PREFIX := "consult_"

  function SetHold(c: Session, f: Faults, caller: Id, human: Id, held: bool): Outcome {
    if caller == "" || human == "" || c.consultation.Some? then Outcome(c, false)
    else
      var r := SetBoth(c.site, f, Primary, caller, human, !held);
      if held then Outcome(Session(r.site, None, r.ok), r.ok)
      else Outcome(Session(r.site, None, c.music && !r.ok), r.ok)
  }

  /** Undoing a half-built consultation: hang up the target, reconnect the call. */
  function Undo(s: Site, f: Faults, caller: Id, human: Id, target: Id, created: bool): Site {
    var s' := if created then Remove(s, f, Cleanup, target).site else s;
    SetBoth(s', f, Cleanup, caller, human, true).site
  }

  function StartConsultation(c: Session, f: Faults, identity: string -> Id, cmd: Command): Outcome {
    var target := identity(cmd.id);
    if cmd.caller == "" || cmd.human == "" || cmd.target == "" || cmd.trunk == "" then Outcome(c, false)
    else if c.consultation.Some? then Outcome(c, c.consultation.value.command == cmd.id)
    else
      var isolated := SetBoth(c.site, f, Primary, cmd.caller, cmd.human, false);
      if !isolated.ok then Outcome(c.Idle(isolated.site), false)
      else
        var dialed := Dial(isolated.site, f, target);
        if !dialed.ok then Outcome(c.Idle(Undo(dialed.site, f, cmd.caller, cmd.human, target, false)), false)
        else
          var heard := Await(dialed.site, f, target);
          if !heard.ok then Outcome(c.Idle(Undo(heard.site, f, cmd.caller, cmd.human, target, true)), false)
          else
            var cut := SetBoth(heard.site, f, Primary, cmd.caller, target, false);
            if !cut.ok then Outcome(c.Idle(Undo(cut.site, f, cmd.caller, cmd.human, target, true)), false)
            else Outcome(Session(cut.site, Some(Consultation(cmd.id, target, cmd.caller, cmd.human)), true), true)
  }

  /** The recorded target, or else the first listed participant with a
      consultation identity. `view` is the controller's own participant list. */
  function FindTarget(c: Session, view: seq<Id>): Option<Id> {
    if c.consultation.Some? then Some(c.consultation.value.target) else FirstConsultant(view)
  }

  function FirstConsultant(view: seq<Id>): Option<Id> {
    if view == [] then None
    else if CONSULTATION_PREFIX <= view[0] then Some(view[0])
    else FirstConsultant(view[1..])
  }

  function CompleteConsultation(c: Session, f: Faults, view: seq<Id>, caller: Id, human: Id): Outcome {
    var target := FindTarget(c, view);
    if caller == "" || human == "" || target.None? || target.value == "" then Outcome(c, false)
    else
      var bridged := SetBoth(c.site, f, Primary, caller, target.value, true);
      if !bridged.ok then Outcome(c.(site := bridged.site), false)
      else
        var removed := Remove(bridged.site, f, Primary, human);
        if removed.ok then Outcome(c.Idle(removed.site), true)
        else Outcome(c.(site := SetBoth(removed.site, f, Cleanup, caller, target.value, false).site), false)
  }

  function CancelConsultation(c: Session, f: Faults, view: seq<Id>, caller: Id, human: Id): Outcome {
    if caller == "" || human == "" then Outcome(c, false)
    else
      var target := FindTarget(c, view);
      var hung := if target.Some? && target.value != "" then Remove(c.site, f, Primary, target.value).site else c.site;
      var restored := SetBoth(hung, f, Primary, caller, human, true);
      if restored.ok then Outcome(c.Idle(restored.site), true) else Outcome(c.(site := restored.site), false)
  }

  /** The check made before the lock is asked for. */
  predicate Concerns(c: Session, who: Id) {
    c.consultation.Some? &&
    var st := c.consultation.value;
    who in {st.target, st.caller, st.human}
  }

  /** What recovery does once it holds the lock. */
  function RecoverLocked(c: Session, f: Faults, who: Id): Session {
    match c.consultation
    case None => c
    case Some(st) =>
      if who == st.target then c.Idle(SetBoth(c.site, f, Primary, st.caller, st.human, true).site)
      else c.Idle(Remove(c.site, f, Primary, st.target).site)
  }

  function Recover(c: Session, f: Faults, who: Id): Session {
    if Concerns(c, who) then RecoverLocked(c, f, who) else c
  }

  // ----- The controller object -----

  class TelephonyController {
    const faults: Faults
    const identity: string -> Id
    var site: Site
    var consultation: Option<Consultation>
    var music: bool

    constructor (faults: Faults, identity: string -> Id, site: Site)
      ensures View() == Session(site, None, false) && this.faults == faults && this.identity == identity
    {
      this.faults, this.identity, this.site := faults, identity, site;
      consultation, music := None, false;
    }

    function View(): Session
      reads this
    {
      Session(site, consultation, music)
    }

    method FetchTracks(purpose: Purpose, who: Id) returns (ok: bool, any: bool)
      modifies `site
      ensures TrackReply(site, ok, any) == Tracks(old(site), faults, purpose, who)
    {
      var r := Tracks(site, faults, purpose, who);
      site := r.site;
      return r.ok, r.any;
    }

    method UpdateSubscription(purpose: Purpose, subscriber: Id, publisher: Id, any: bool, on: bool) returns (ok: bool)
      modifies `site
      ensures Reply(site, ok) == Update(old(site), faults, purpose, subscriber, publisher, any, on)
    {
      var r := Update(site, faults, purpose, subscriber, publisher, any, on);
      site := r.site;
      return r.ok;
    }

    method RemoveParticipant(purpose: Purpose, who: Id) returns (ok: bool)
      modifies `site
      ensures Reply(site, ok) == Remove(old(site), faults, purpose, who)
    {
      var r := Remove(site, faults, purpose, who);
      site := r.site;
      return r.ok;
    }

    /** The two updates run in order; when one fails, the completed ones are
        undone last to first. */
    method SetBidirectional(purpose: Purpose, caller: Id, human: Id, on: bool) returns (ok: bool)
      modifies `site
      ensures Reply(site, ok) == SetBoth(old(site), faults, purpose, caller, human, on)
    {
      var callerOk, callerTracks := FetchTracks(purpose, caller);
      if !callerOk {
        return false;
      }
      var humanOk, humanTracks := FetchTracks(purpose, human);
      if !humanOk {
        return false;
      }
      ghost var start := site;
      var operations := [(human, caller, callerTracks), (caller, human, humanTracks)];
      var completed: seq<(Id, Id, bool)> := [];
      ghost var first := Update(start, faults, purpose, human, caller, callerTracks, on);
      for i := 0 to |operations|
        invariant completed == operations[..i]
        invariant i == 0 ==> site == start
        invariant i == 1 ==> first.ok && site == first.site
        invariant i == 2 ==> first.ok && Reply(site, true) == Update(first.site, faults, purpose, caller, human, humanTracks, on)
      {
        var done := UpdateSubscription(purpose, operations[i].0, operations[i].1, operations[i].2, on);
        if !done {
          ghost var failed := site;
          var j := |completed|;
          while j > 0
            invariant 0 <= j <= |completed| == i <= 1
            invariant j == i ==> site == failed
            invariant j < i ==> site == Update(failed, faults, Cleanup, human, caller, callerTracks, !on).site
          {
            j := j - 1;
            var _ := UpdateSubscription(Cleanup, completed[j].0, completed[j].1, completed[j].2, !on);
          }
          return false;
        }
        completed := completed + [operations[i]];
      }
      return true;
    }

    method SetHoldState(caller: Id, human: Id, held: bool) returns (ok: bool)
      modifies this
      ensures Outcome(View(), ok) == SetHold(old(View()), faults, caller, human, held)
    {
      if caller == "" || human == "" || consultation.Some? {
        return false;
      }
      if held {
        music := true;
      }
      ok := SetBidirectional(Primary, caller, human, !held);
      if !ok {
        if held {
          music := false;
        }
        return;
      }
      if !held {
        music := false;
      }
    }

    method StartWarmConsultation(cmd: Command) returns (ok: bool)
      modifies this
      ensures Outcome(View(), ok) == StartConsultation(old(View()), faults, identity, cmd)
    {
      if cmd.caller == "" || cmd.human == "" || cmd.target == "" || cmd.trunk == "" {
        return false;
      }
      var target := identity(cmd.id);
      if consultation.Some? {
        return consultation.value.command == cmd.id;
      }
      music := true;
      var isolated, created := false, false;
      ok := SetBidirectional(Primary, cmd.caller, cmd.human, false);
      if ok {
        isolated := true;
        var dialed := Dial(site, faults, target);
        site, ok := dialed.site, dialed.ok;
      }
      if ok {
        created := true;
        var heard := Await(site, faults, target);
        site, ok := heard.site, heard.ok;
      }
      if ok {
        ok := SetBidirectional(Primary, cmd.caller, target, false);
      }
      if !ok {
        if created {
          var _ := RemoveParticipant(Cleanup, target);
        }
        if isolated {
          var _ := SetBidirectional(Cleanup, cmd.caller, cmd.human, true);
        }
        music := false;
        return;
      }
      consultation := Some(Consultation(cmd.id, target, cmd.caller, cmd.human));
    }

    method CompleteWarmConsultation(view: seq<Id>, caller: Id, human: Id) returns (ok: bool)
      modifies this
      ensures Outcome(View(), ok) == CompleteConsultation(old(View()), faults, view, caller, human)
    {
      var target := FindTarget(View(), view);
      if caller == "" || human == "" || target.None? || target.value == "" {
        return false;
      }
      ok := SetBidirectional(Primary, caller, target.value, true);
      if !ok {
        return;
      }
      ok := RemoveParticipant(Primary, human);
      if !ok {
        var _ := SetBidirectional(Cleanup, caller, target.value, false);
        return;
      }
      consultation, music := None, false;
    }

    method CancelWarmConsultation(view: seq<Id>, caller: Id, human: Id) returns (ok: bool)
      modifies this
      ensures Outcome(View(), ok) == CancelConsultation(old(View()), faults, view, caller, human)
    {
      if caller == "" || human == "" {
        return false;
      }
      var target := FindTarget(View(), view);
      if target.Some? && target.value != "" {
        var _ := RemoveParticipant(Primary, target.value);
      }
      ok := SetBidirectional(Primary, caller, human, true);
      if !ok {
        return;
      }
      consultation, music := None, false;
    }

    method RecoverDisconnected(who: Id)
      modifies this
      ensures View() == Recover(old(View()), faults, who)
    {
      if !Concerns(View(), who) {
        return;
      }
      var st := consultation.value;
      if who == st.target {
        var _ := SetBidirectional(Primary, st.caller, st.human, true);
      } else {
        var _ := RemoveParticipant(Primary, st.target);
      }
      consultation, music := None, false;
    }
  }
}
