/** Disconnect recovery at the granularity of the consultation lock: a task
    checks the consultation before it asks for the lock and again once it has it. */
module Recovery {
  import opened Basics
  import opened Telephony

  datatype Task = Spawned(who: Id) | Waiting(who: Id) | Finished

  /** What the lock holder will write when its last call has returned. */
  datatype Pending = Pending(consultation: Option<Consultation>, music: bool)

  datatype System = System(session: Session, holder: Option<Pending>, tasks: seq<Task>, failedEvents: nat)

  datatype Locked = Start(cmd: Command) | Complete(view: seq<Id>, caller: Id, human: Id) | Cancel(view: seq<Id>, caller: Id, human: Id)

  /** Begin takes the lock and makes the calls; Finish writes the fields and
      frees the lock. Disconnect, Check and Acquire are the steps of a task. */
  datatype Move = Begin(command: Locked) | Finish | Disconnect(who: Id) | Check(task: nat) | Acquire(task: nat)

  function Perform(c: Session, f: Faults, identity: string -> Id, command: Locked): Outcome {
    match command
    case Start(cmd) => StartConsultation(c, f, identity, cmd)
    case Complete(view, caller, human) => CompleteConsultation(c, f, view, caller, human)
    case Cancel(view, caller, human) => CancelConsultation(c, f, view, caller, human)
  }

  /** A move that is not possible changes nothing. */
  function Do(s: System, f: Faults, identity: string -> Id, move: Move): System {
    match move
    case Begin(command) =>
      if s.holder.Some? then s
      else
        var after := Perform(s.session, f, identity, command).session;
        s.(session := s.session.(site := after.site), holder := Some(Pending(after.consultation, after.music)))
    case Finish =>
      if s.holder.None? then s
      else s.(session := Session(s.session.site, s.holder.value.consultation, s.holder.value.music), holder := None)
    case Disconnect(who) => s.(tasks := s.tasks + [Spawned(who)])
    case Check(i) =>
      if i < |s.tasks| && s.tasks[i].Spawned? then
        s.(tasks := s.tasks[i := if Concerns(s.session, s.tasks[i].who) then Waiting(s.tasks[i].who) else Finished])
      else s
    case Acquire(i) =>
      if i < |s.tasks| && s.tasks[i].Waiting? && s.holder.None? then
        var found := s.session.consultation.Some?;
        s.(session := RecoverLocked(s.session, f, s.tasks[i].who), tasks := s.tasks[i := Finished],
           failedEvents := s.failedEvents + if found then 1 else 0)
      else s
  }

  function DoAll(s: System, f: Faults, identity: string -> Id, moves: seq<Move>): System {
    if moves == [] then s
    else Do(DoAll(s, f, identity, moves[..|moves| - 1]), f, identity, moves[|moves| - 1])
  }

  predicate StartsNothing(moves: seq<Move>) {
    forall i :: 0 <= i < |moves| ==> !(moves[i].Begin? && moves[i].command.Start?)
  }

  /** No consultation stands once the lock is free. */
  predicate Ending(s: System) {
    match s.holder
    case None => s.session.consultation.None?
    case Some(p) => p.consultation.None?
  }

  lemma EndingStep(s: System, f: Faults, identity: string -> Id, move: Move)
    requires Ending(s) && !(move.Begin? && move.command.Start?)
    ensures Ending(Do(s, f, identity, move)) && Do(s, f, identity, move).failedEvents == s.failedEvents
    ensures move.Acquire? ==> Do(s, f, identity, move).session == s.session
  {
    hide SetBoth, Remove;
  }

  lemma {:induction false} EndingRun(s: System, f: Faults, identity: string -> Id, moves: seq<Move>)
    requires Ending(s) && StartsNothing(moves)
    ensures Ending(DoAll(s, f, identity, moves)) && DoAll(s, f, identity, moves).failedEvents == s.failedEvents
  {
    if moves != [] {
      EndingRun(s, f, identity, moves[..|moves| - 1]);
      EndingStep(DoAll(s, f, identity, moves[..|moves| - 1]), f, identity, moves[|moves| - 1]);
    }
  }

  /** From the moment a complete or cancel that will succeed takes the lock, no
      recovery task, whichever participants drop out and whenever the tasks run,
      reports a failed consultation or touches the session, as long as no new
      consultation is started. */
  lemma SuccessIsNeverReportedAsFailure(s: System, f: Faults, identity: string -> Id, command: Locked, moves: seq<Move>, task: nat)
    requires s.holder.None? && !command.Start? && Perform(s.session, f, identity, command).ok
    requires StartsNothing(moves)
    ensures var after := DoAll(Do(s, f, identity, Begin(command)), f, identity, moves);
            && after.failedEvents == s.failedEvents
            && Do(after, f, identity, Acquire(task)).session == after.session
            && (after.holder.None? ==> after.session.consultation.None?)
  {
    hide SetBoth, Remove;
    var begun := Do(s, f, identity, Begin(command));
    assert Ending(begun);
    EndingRun(begun, f, identity, moves);
    EndingStep(DoAll(begun, f, identity, moves), f, identity, Acquire(task));
  }

  // ----- After a failed cancel -----

  predicate BeginsNothing(moves: seq<Move>) {
    forall i :: 0 <= i < |moves| ==> !moves[i].Begin?
  }

  /** What the lock holder will leave recorded, or what is recorded if there is none. */
  function Outlook(s: System): Pending {
    match s.holder
    case Some(p) => p
    case None => Pending(s.session.consultation, s.session.music)
  }

  /** Only the consultation `st` can be recorded, now or when the lock is freed;
      once it is gone it stays gone and the music is off; it has been reported
      as failed at most once, and never while it is recorded. */
  ghost predicate Fading(s: System, st: Consultation, reported: nat) {
    var seen, next := s.session.consultation, Outlook(s);
    && (seen == Some(st) || (seen == None && !s.session.music))
    && (next.consultation == Some(st) || (next.consultation == None && !next.music))
    && (seen == None ==> next.consultation == None)
    && (next.consultation == Some(st) ==> s.failedEvents == reported)
    && reported <= s.failedEvents <= reported + 1
    && (seen == Some(st) ==> s.failedEvents == reported)
  }

  /** Task `i` was spawned by the target's disconnect; once it is finished, the
      consultation is over. */
  ghost predicate Watched(s: System, st: Consultation, i: nat) {
    && i < |s.tasks|
    && (!s.tasks[i].Finished? ==> s.tasks[i].who == st.target)
    && (s.tasks[i].Finished? ==> Outlook(s).consultation == None)
  }

  /** As long as no command begins, the consultation can end only by being
      reported. */
  ghost predicate EndsByReport(s: System, st: Consultation, reported: nat) {
    && (s.holder.Some? ==> s.session.consultation == Some(st) && Outlook(s).consultation == Some(st))
    && (s.session.consultation == None ==> s.failedEvents == reported + 1)
  }

  lemma FadingBegin(s: System, f: Faults, identity: string -> Id, command: Locked, st: Consultation, reported: nat)
    requires Fading(s, st, reported) && !command.Start?
    ensures Fading(Do(s, f, identity, Begin(command)), st, reported)
  {
    hide SetBoth, Remove, FirstConsultant;
  }

  lemma FadingStep(s: System, f: Faults, identity: string -> Id, move: Move, st: Consultation, reported: nat)
    requires Fading(s, st, reported) && !(move.Begin? && move.command.Start?)
    ensures Fading(Do(s, f, identity, move), st, reported)
  {
    hide SetBoth, Remove, Perform;
    if move.Begin? {
      FadingBegin(s, f, identity, move.command, st, reported);
    }
  }

  lemma WatchedStep(s: System, f: Faults, identity: string -> Id, move: Move, st: Consultation, reported: nat, i: nat)
    requires Fading(s, st, reported) && Watched(s, st, i) && !(move.Begin? && move.command.Start?)
    ensures Watched(Do(s, f, identity, move), st, i)
  {
    hide SetBoth, Remove, Perform;
    FadingStep(s, f, identity, move, st, reported);
    if move.Begin? && s.holder.None? && s.session.consultation.None? {
      BeginKeepsNothing(s, f, identity, move.command);
    }
  }

  lemma BeginKeepsNothing(s: System, f: Faults, identity: string -> Id, command: Locked)
    requires s.session.consultation.None? && !command.Start?
    ensures Perform(s.session, f, identity, command).session.consultation.None?
  {
    hide SetBoth, Remove, FirstConsultant;
  }

  lemma ReportStep(s: System, f: Faults, identity: string -> Id, move: Move, st: Consultation, reported: nat)
    requires Fading(s, st, reported) && EndsByReport(s, st, reported) && !move.Begin?
    ensures EndsByReport(Do(s, f, identity, move), st, reported)
  {
    hide SetBoth, Remove;
  }

  lemma {:induction false} FadingRun(s: System, f: Faults, identity: string -> Id, moves: seq<Move>, st: Consultation, reported: nat)
    requires Fading(s, st, reported) && StartsNothing(moves)
    ensures Fading(DoAll(s, f, identity, moves), st, reported)
    ensures BeginsNothing(moves) && EndsByReport(s, st, reported) ==> EndsByReport(DoAll(s, f, identity, moves), st, reported)
  {
    if moves != [] {
      var front, last := moves[..|moves| - 1], moves[|moves| - 1];
      FadingRun(s, f, identity, front, st, reported);
      hide Fading, EndsByReport, Do;
      FadingStep(DoAll(s, f, identity, front), f, identity, last, st, reported);
      if BeginsNothing(moves) && EndsByReport(s, st, reported) {
        ReportStep(DoAll(s, f, identity, front), f, identity, last, st, reported);
      }
    }
  }

  lemma {:induction false} WatchedRun(s: System, f: Faults, identity: string -> Id, moves: seq<Move>, st: Consultation, reported: nat, i: nat)
    requires Fading(s, st, reported) && Watched(s, st, i) && StartsNothing(moves)
    ensures Watched(DoAll(s, f, identity, moves), st, i)
  {
    if moves != [] {
      var front, last := moves[..|moves| - 1], moves[|moves| - 1];
      WatchedRun(s, f, identity, front, st, reported, i);
      FadingRun(s, f, identity, front, st, reported);
      hide Fading, Watched, Do;
      WatchedStep(DoAll(s, f, identity, front), f, identity, last, st, reported, i);
    }
  }

  lemma FailedCancelKeepsRecord(s: System, f: Faults, identity: string -> Id, view: seq<Id>, caller: Id, human: Id)
    requires s.holder.None? && s.session.consultation.Some?
    requires !CancelConsultation(s.session, f, view, caller, human).ok
    ensures var begun := Do(s, f, identity, Begin(Cancel(view, caller, human)));
            && Fading(begun, s.session.consultation.value, s.failedEvents)
            && EndsByReport(begun, s.session.consultation.value, s.failedEvents)
  {
    hide SetBoth, Remove;
  }

  /** A cancel fails after hanging up the target, and the target's disconnect
      arrives at any point after the cancel took the lock, whatever other tasks
      there are. Under every schedule without a new start: once the task of that
      disconnect is finished, no consultation is recorded when the lock is free,
      and the music is off; at most one failure is reported; and exactly one is
      reported if no other command begins, whichever task gets there first. */
  lemma FailedCancelIsRecovered(s: System, f: Faults, identity: string -> Id, view: seq<Id>, caller: Id, human: Id,
                                before: seq<Move>, moves: seq<Move>)
    requires s.holder.None? && s.session.consultation.Some?
    requires !CancelConsultation(s.session, f, view, caller, human).ok
    requires StartsNothing(before) && StartsNothing(moves)
    ensures var target := s.session.consultation.value.target;
            var waiting := DoAll(Do(s, f, identity, Begin(Cancel(view, caller, human))), f, identity, before);
            var after, task := DoAll(Do(waiting, f, identity, Disconnect(target)), f, identity, moves), |waiting.tasks|;
            && s.failedEvents <= after.failedEvents <= s.failedEvents + 1
            && task < |after.tasks|
            && (after.tasks[task].Finished? ==>
                  && Ending(after)
                  && (after.holder.None? ==> !after.session.music)
                  && (BeginsNothing(before) && BeginsNothing(moves) ==> after.failedEvents == s.failedEvents + 1))
  {
    hide Do, Fading, EndsByReport, Watched, CancelConsultation;
    var st := s.session.consultation.value;
    var begun := Do(s, f, identity, Begin(Cancel(view, caller, human)));
    FailedCancelKeepsRecord(s, f, identity, view, caller, human);
    FadingRun(begun, f, identity, before, st, s.failedEvents);
    var waiting := DoAll(begun, f, identity, before);
    FadingStep(waiting, f, identity, Disconnect(st.target), st, s.failedEvents);
    if BeginsNothing(before) {
      ReportStep(waiting, f, identity, Disconnect(st.target), st, s.failedEvents);
    }
    var spawned := Do(waiting, f, identity, Disconnect(st.target));
    SpawnedIsWatched(waiting, f, identity, st);
    FadingRun(spawned, f, identity, moves, st, s.failedEvents);
    WatchedRun(spawned, f, identity, moves, st, s.failedEvents, |waiting.tasks|);
    ReadOff(DoAll(spawned, f, identity, moves), st, s.failedEvents, |waiting.tasks|);
  }

  lemma SpawnedIsWatched(s: System, f: Faults, identity: string -> Id, st: Consultation)
    ensures Watched(Do(s, f, identity, Disconnect(st.target)), st, |s.tasks|)
  {
  }

  lemma ReadOff(s: System, st: Consultation, reported: nat, i: nat)
    requires Fading(s, st, reported) && Watched(s, st, i)
    ensures reported <= s.failedEvents <= reported + 1 && i < |s.tasks|
    ensures s.tasks[i].Finished? ==> Ending(s) && (s.holder.None? ==> !s.session.music)
    ensures s.tasks[i].Finished? && EndsByReport(s, st, reported) ==> s.failedEvents == reported + 1
  {
  }

  /** A spawned task is never stuck: with the lock free, its two steps finish it. */
  lemma TaskCanFinish(s: System, f: Faults, identity: string -> Id, i: nat)
    requires i < |s.tasks| && s.holder.None?
    ensures var after := Do(Do(s, f, identity, Check(i)), f, identity, Acquire(i));
            after.holder.None? && |after.tasks| == |s.tasks| && after.tasks[i].Finished?
  {
    hide SetBoth, Remove;
  }

  // ----- A task that outlives its consultation -----

  /** The second check looks only at whether some consultation stands, not at
      whose disconnect the task was spawned for: a waiting task that gets the
      lock ends whatever consultation is recorded, and reports it. */
  lemma WaitingTaskEndsAny(s: System, f: Faults, identity: string -> Id, i: nat)
    requires i < |s.tasks| && s.tasks[i].Waiting? && s.holder.None?
    ensures var after := Do(s, f, identity, Acquire(i));
            && after.session.consultation.None? && (s.session.consultation.Some? ==> !after.session.music)
            && after.failedEvents == s.failedEvents + (if s.session.consultation.Some? then 1 else 0)
  {
    hide SetBoth, Remove;
  }

  /** A task left waiting by a completed consultation therefore tears down the
      next one. */
  lemma StaleTaskEndsNewConsultation(s: System, f: Faults, identity: string -> Id, view: seq<Id>, cmd: Command)
    requires s.holder.None? && s.tasks == [] && s.session.consultation.Some?
    requires Replaces(s.session, f, identity, view, cmd)
    ensures var human := s.session.consultation.value.human;
            var s1 := Do(s, f, identity, Begin(Complete(view, s.session.consultation.value.caller, human)));
            var s2 := Do(Do(s1, f, identity, Disconnect(human)), f, identity, Check(0));
            var s3 := Do(Do(Do(s2, f, identity, Finish), f, identity, Begin(Start(cmd))), f, identity, Finish);
            var s4 := Do(s3, f, identity, Acquire(0));
            && s3.session.consultation.Some? && s3.session.consultation.value.command == cmd.id && s3.failedEvents == s.failedEvents
            && s4.session.consultation.None? && s4.failedEvents == s.failedEvents + 1
  {
    hide SetBoth, Remove, Dial, Await, Undo;
  }

  /** The standing consultation can be completed and the command can then start
      another. */
  ghost predicate Replaces(c: Session, f: Faults, identity: string -> Id, view: seq<Id>, cmd: Command)
    requires c.consultation.Some?
  {
    var st := c.consultation.value;
    var completed := CompleteConsultation(c, f, view, st.caller, st.human);
    completed.ok && StartConsultation(completed.session, f, identity, cmd).ok
  }

  /** It can: when a second operator takes over in a room that answers every call. */
  lemma ReplacementIsPossible()
    ensures var all: set<Id> := {"a", "b", "t", "d"};
            var c := Session(Site(Room(all, all, {}), 0), Some(Consultation("x", "t", "a", "b")), true);
            Replaces(c, (n, p) => false, id => "u", [], Command("y", "a", "d", "number", "trunk"))
  {
    var all: set<Id> := {"a", "b", "t", "d"};
    var f: Faults := (n, p) => false;
    var site := Site(Room(all, all, {}), 0);
    BridgeInQuietRoom(site, f, "a", "t", true);
    var bridged := SetBoth(site, f, Primary, "a", "t", true).site;
    var removed := Remove(bridged, f, Primary, "b").site;
    BridgeInQuietRoom(removed, f, "a", "d", false);
    var isolated := SetBoth(removed, f, Primary, "a", "d", false).site;
    var heard := Await(Dial(isolated, f, "u").site, f, "u").site;
    BridgeInQuietRoom(heard, f, "a", "u", false);
    hide SetBoth;
  }

  lemma BridgeInQuietRoom(s: Site, f: Faults, a: Id, b: Id, on: bool)
    requires forall n, p :: !f(n, p)
    requires {a, b} <= s.room.publishing && {a, b} <= s.room.present
    ensures var r := SetBoth(s, f, Primary, a, b, on);
            r.ok && r.site.room.present == s.room.present && r.site.room.publishing == s.room.publishing
  {
  }
}
