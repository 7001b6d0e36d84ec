/** When each command succeeds, by call number, and the room it leaves. */
module TelephonyOutcomes {
  import opened Basics
  import opened Telephony
  import opened TelephonySafety

  /** No primary call fails from number `from` on, for `count` calls. */
  ghost predicate Clear(f: Faults, from: nat, count: nat) {
    forall n :: from <= n < from + count ==> !f(n, Primary)
  }

  ghost predicate BothHear(room: Room, a: Id, b: Id) {
    (a, b) in room.edges && (b, a) in room.edges
  }

  /** The two rooms differ at most in what `a` and `b` hear of each other. */
  ghost predicate SameBut(room: Room, after: Room, a: Id, b: Id) {
    && after.present == room.present && after.publishing == room.publishing
    && forall e: (Id, Id) :: e != (a, b) && e != (b, a) ==> (e in after.edges <==> e in room.edges)
  }

  lemma SwitchesIff(s: Site, f: Faults, a: Id, b: Id)
    ensures Switches(s, f, Primary, a, b) <==> a in s.room.publishing && b in s.room.publishing && Clear(f, s.calls, 4)
  {
    if Switches(s, f, Primary, a, b) {
      forall n | s.calls <= n < s.calls + 4 ensures !f(n, Primary) {
        assert n == s.calls || n == s.calls + 1 || n == s.calls + 2 || n == s.calls + 3;
      }
    }
  }

  /** A bidirectional change as its callers see it when it succeeds. */
  lemma ChangeOutcome(s: Site, f: Faults, a: Id, b: Id, on: bool)
    requires WfRoom(s.room)
    ensures var r := SetBoth(s, f, Primary, a, b, on);
            && (r.ok <==> a in s.room.publishing && b in s.room.publishing && Clear(f, s.calls, 4))
            && (r.ok ==> r.site.calls == s.calls + 4 && WfRoom(r.site.room) && SameBut(s.room, r.site.room, a, b)
                         && if on then BothHear(r.site.room, a, b) else Cut(r.site.room, a, b))
  {
    SetBothOutcome(s, f, Primary, a, b, on);
    SwitchesIff(s, f, a, b);
    hide SetBoth, Switches, Torn;
  }

  /** A hold that succeeds starts the music and cuts caller and human off from
      each other, and nobody else; one that fails leaves the music off. */
  lemma HoldOutcome(c: Session, f: Faults, caller: Id, human: Id)
    requires WfRoom(c.site.room)
    ensures var r, room := SetHold(c, f, caller, human, true), c.site.room;
            && (r.ok <==> caller != "" && human != "" && c.consultation.None?
                          && caller in room.publishing && human in room.publishing && Clear(f, c.site.calls, 4))
            && (r.ok ==> r.session.music && r.session.consultation.None?
                         && Cut(r.session.site.room, caller, human) && SameBut(room, r.session.site.room, caller, human))
            && (!r.ok && caller != "" && human != "" && c.consultation.None? ==> !r.session.music)
            && (caller == "" || human == "" || c.consultation.Some? ==> r.session == c)
  {
    ChangeOutcome(c.site, f, caller, human, false);
    hide SetBoth;
  }

  /** A resume that succeeds stops the music and connects the two; one that
      fails leaves the music as it was. */
  lemma ResumeOutcome(c: Session, f: Faults, caller: Id, human: Id)
    requires WfRoom(c.site.room)
    ensures var r, room := SetHold(c, f, caller, human, false), c.site.room;
            && (r.ok <==> caller != "" && human != "" && c.consultation.None?
                          && caller in room.publishing && human in room.publishing && Clear(f, c.site.calls, 4))
            && (r.ok ==> !r.session.music && r.session.consultation.None?
                         && BothHear(r.session.site.room, caller, human) && SameBut(room, r.session.site.room, caller, human))
            && (!r.ok ==> r.session.music == c.music && r.session.consultation == c.consultation)
            && (caller == "" || human == "" || c.consultation.Some? ==> r.session == c)
  {
    ChangeOutcome(c.site, f, caller, human, true);
    hide SetBoth;
  }

  /** A disconnect of any of the three ends the consultation and the music. If
      it was the target, caller and human are connected again; otherwise the
      target is removed; nothing else in the room changes. */
  lemma RecoveryOutcome(c: Session, f: Faults, who: Id)
    requires WfRoom(c.site.room) && c.consultation.Some?
    requires var st := c.consultation.value; who in {st.target, st.caller, st.human}
    ensures var st, r, room := c.consultation.value, Recover(c, f, who), c.site.room;
            && r.consultation.None? && !r.music
            && if who == st.target then
                 st.caller in room.publishing && st.human in room.publishing && Clear(f, c.site.calls, 4) ==>
                   BothHear(r.site.room, st.caller, st.human) && SameBut(room, r.site.room, st.caller, st.human)
               else
                 && (st.target in room.present && !f(c.site.calls, Primary) ==> IsWithout(room, r.site.room, st.target))
                 && (st.target !in room.present || f(c.site.calls, Primary) ==> r.site.room == room)
  {
    var st := c.consultation.value;
    ChangeOutcome(c.site, f, st.caller, st.human, true);
    hide SetBoth;
  }

  /** A disconnect of anybody else changes nothing. */
  lemma OthersDoNotMatter(c: Session, f: Faults, who: Id)
    requires c.consultation.Some? ==> var st := c.consultation.value; who !in {st.target, st.caller, st.human}
    ensures Recover(c, f, who) == c
  {
  }

  /** `after` is `room` without one participant and all that it heard or was heard by. */
  ghost predicate IsWithout(room: Room, after: Room, who: Id) {
    && (forall p :: p in after.present <==> p in room.present && p != who)
    && (forall p :: p in after.publishing <==> p in room.publishing && p != who)
    && (forall e: (Id, Id) :: e in after.edges <==> e in room.edges && e.0 != who && e.1 != who)
  }

  /** A new consultation starts exactly when the command is complete, caller and
      human publish, the target is not in the room, and ten calls in a row succeed. */
  lemma StartSucceedsIff(c: Session, f: Faults, identity: string -> Id, cmd: Command)
    requires WfRoom(c.site.room) && c.consultation.None?
    ensures var room := c.site.room;
            StartConsultation(c, f, identity, cmd).ok <==>
            && cmd.caller != "" && cmd.human != "" && cmd.target != "" && cmd.trunk != ""
            && cmd.caller in room.publishing && cmd.human in room.publishing && identity(cmd.id) !in room.present
            && Clear(f, c.site.calls, 10)
  {
    hide SetBoth, Undo;
    var target := identity(cmd.id);
    ClearParts(f, c.site.calls);
    var isolated := SetBoth(c.site, f, Primary, cmd.caller, cmd.human, false);
    ChangeOutcome(c.site, f, cmd.caller, cmd.human, false);
    if isolated.ok {
      var dialed := Dial(isolated.site, f, target);
      var heard := Await(dialed.site, f, target);
      DialFacts(isolated.site, f, target);
      if dialed.ok && heard.ok {
        ChangeOutcome(heard.site, f, cmd.caller, target, false);
      }
    }
    hide Clear;
  }

  lemma ClearParts(f: Faults, from: nat)
    ensures Clear(f, from, 10) <==> Clear(f, from, 4) && !f(from + 4, Primary) && !f(from + 5, Primary) && Clear(f, from + 6, 4)
    ensures Clear(f, from, 5) <==> Clear(f, from, 4) && !f(from + 4, Primary)
  {
  }

  /** While a consultation stands, a start succeeds exactly when it repeats it. */
  lemma RepeatSucceedsIff(c: Session, f: Faults, identity: string -> Id, cmd: Command)
    requires c.consultation.Some?
    ensures StartConsultation(c, f, identity, cmd).ok <==>
            && cmd.caller != "" && cmd.human != "" && cmd.target != "" && cmd.trunk != ""
            && cmd.id == c.consultation.value.command
    ensures StartConsultation(c, f, identity, cmd).session == c
  {
  }

  /** Completion needs the bridge and the removal of the human: five calls. */
  lemma CompleteSucceedsIff(c: Session, f: Faults, view: seq<Id>, caller: Id, human: Id)
    requires WfRoom(c.site.room)
    ensures var room, target := c.site.room, TargetOf(c, view);
            CompleteConsultation(c, f, view, caller, human).ok <==>
            && caller != "" && human != "" && target.Some? && target.value != ""
            && caller in room.publishing && target.value in room.publishing && human in room.present && Clear(f, c.site.calls, 5)
  {
    hide SetBoth;
    TargetIs(c, view);
    var target := FindTarget(c, view);
    ClearParts(f, c.site.calls);
    if target.Some? {
      ChangeOutcome(c.site, f, caller, target.value, true);
    }
    hide Clear;
  }

  /** A cancel succeeds exactly when the reconnection does, in the room as it is
      after the attempt to hang up the target. */
  lemma CancelSucceedsIff(c: Session, f: Faults, view: seq<Id>, caller: Id, human: Id)
    requires WfRoom(c.site.room)
    ensures var room, target, calls := c.site.room, TargetOf(c, view), c.site.calls;
            var hangs := target.Some? && target.value != "";
            var gone := hangs && target.value in room.present && !f(calls, Primary);
            var r := CancelConsultation(c, f, view, caller, human);
            && (r.ok <==>
                && caller != "" && human != "" && caller in room.publishing && human in room.publishing
                && (gone ==> caller != target.value && human != target.value)
                && Clear(f, if hangs then calls + 1 else calls, 4))
            && (r.ok ==> r.session.consultation.None? && !r.session.music && BothHear(r.session.site.room, caller, human))
            && (!r.ok ==> r.session.consultation == c.consultation && r.session.music == c.music)
  {
    hide SetBoth;
    TargetIs(c, view);
    var target := FindTarget(c, view);
    var hung := HungUp(c, f, view);
    if target.Some? {
      RemoveFacts(c.site, f, Primary, target.value);
    }
    ChangeOutcome(hung, f, caller, human, true);
    hide Clear;
  }

  // ----- The target -----

  /** The recorded target; without a record, the first participant listed whose
      identity has the consultation prefix. */
  ghost function TargetOf(c: Session, view: seq<Id>): Option<Id> {
    if c.consultation.Some? then Some(c.consultation.value.target)
    else if exists i :: IsFirstConsultant(view, i) then
      var i :| IsFirstConsultant(view, i);
      Some(view[i])
    else None
  }

  ghost predicate IsFirstConsultant(view: seq<Id>, i: int) {
    && 0 <= i < |view| && "consult_" <= view[i]
    && forall j :: 0 <= j < i ==> !("consult_" <= view[j])
  }

  lemma {:induction false} FirstConsultantIs(view: seq<Id>)
    ensures match FirstConsultant(view)
            case Some(id) => exists i :: IsFirstConsultant(view, i) && view[i] == id
            case None => forall i :: 0 <= i < |view| ==> !("consult_" <= view[i])
  {
    if view != [] {
      if "consult_" <= view[0] {
        assert IsFirstConsultant(view, 0);
      } else {
        FirstConsultantIs(view[1..]);
        if FirstConsultant(view[1..]).Some? {
          var i :| IsFirstConsultant(view[1..], i) && view[1..][i] == FirstConsultant(view[1..]).value;
          assert forall j :: 0 < j < i + 1 ==> view[j] == view[1..][j - 1];
          assert IsFirstConsultant(view, i + 1);
        } else {
          assert forall i :: 0 < i < |view| ==> view[i] == view[1..][i - 1];
        }
      }
    }
  }

  lemma TargetIs(c: Session, view: seq<Id>)
    ensures FindTarget(c, view) == TargetOf(c, view)
  {
    FirstConsultantIs(view);
    if c.consultation.None? && exists i :: IsFirstConsultant(view, i) {
      forall i, j | IsFirstConsultant(view, i) && IsFirstConsultant(view, j) ensures i == j {
      }
    }
  }
}
