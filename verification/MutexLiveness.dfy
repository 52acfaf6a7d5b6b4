/** No deadlock: the callers of the session protocol wait for two kinds of mutexes, and never for each other. */
module MutexLiveness {
  import opened Wrappers
  import opened SessionProtocol
  import opened MembershipMutexes

  // ---- Owned ensure mutexes are held ----

  /** An owned ensure mutex is held by its owner: nobody forgets to give one back. */
  predicate EnsureOwnerHolds(sh: Core, threads: seq<Thread>, e: LockId)
    requires e in sh.ensureOwner
  {
    var i := sh.ensureOwner[e];
    i < |threads| && HoldsEnsure(threads[i].pc) && threads[i].pc.e == e
  }

  ghost predicate EnsureOwnersHold(sv: Service) {
    forall e {:trigger sv.core.ensureOwner[e]} :: e in sv.core.ensureOwner ==> EnsureOwnerHolds(sv.core, sv.threads, e)
  }

  /** A step acquires the mutex that its thread waits for, or gives back the one that it holds, or keeps all owners. */
  predicate OwnersMove(before: map<LockId, ThreadId>, after: map<LockId, ThreadId>, i: ThreadId, pc: Pc, pc': Pc) {
    || (HoldsEnsure(pc') && after == before[pc'.e := i])
    || (HoldsEnsure(pc) && after == before - {pc.e})
    || (after == before && (HoldsEnsure(pc) ==> HoldsEnsure(pc') && pc'.e == pc.e))
  }

  lemma StarterMoves(sh: Core, ms: Members, i: ThreadId, th: Thread, ok: bool, number: nat)
    requires StartStep(th.pc)
    ensures OwnersMove(sh.ensureOwner, MoveCore(sh, i, th, ok, number).ensureOwner, i, th.pc, MovePc(sh, ms, th, ok))
  {
  }

  lemma HolderMoves(sh: Core, ms: Members, i: ThreadId, th: Thread, ok: bool, number: nat)
    requires HoldsEnsure(th.pc) && !StartStep(th.pc)
    ensures OwnersMove(sh.ensureOwner, MoveCore(sh, i, th, ok, number).ensureOwner, i, th.pc, MovePc(sh, ms, th, ok))
  {
  }

  lemma OtherMoves(sh: Core, ms: Members, i: ThreadId, th: Thread, ok: bool, number: nat)
    requires !HoldsEnsure(th.pc)
    ensures OwnersMove(sh.ensureOwner, MoveCore(sh, i, th, ok, number).ensureOwner, i, th.pc, MovePc(sh, ms, th, ok))
  {
  }

  /** An ensure mutex that is owned after a step was owned by the same thread before, or was just acquired. */
  lemma OwnersStillHold(sh: Core, after: Core, threads: seq<Thread>, i: ThreadId, pc: Pc, e: LockId)
    requires i < |threads| && (e in sh.ensureOwner ==> EnsureOwnerHolds(sh, threads, e)) && e in after.ensureOwner
    requires OwnersMove(sh.ensureOwner, after.ensureOwner, i, threads[i].pc, pc)
    requires HoldsEnsure(threads[i].pc) && HoldsEnsure(pc) ==> pc.e == threads[i].pc.e
    ensures EnsureOwnerHolds(after, threads[i := threads[i].(pc := pc)], e)
  {
  }

  lemma NextKeepsEnsureOwners(sv: Service, event: Event)
    requires EnsureOwnersHold(sv)
    ensures EnsureOwnersHold(Next(sv, event))
  {
    var t := Next(sv, event);
    forall e | e in t.core.ensureOwner
      ensures EnsureOwnerHolds(t.core, t.threads, e)
    {
      assert e in sv.core.ensureOwner ==> EnsureOwnerHolds(sv.core, sv.threads, e);
      if event.Advance? && event.thread < |sv.threads| {
        var i := event.thread;
        if StartStep(sv.threads[i].pc) {
          StarterMoves(sv.core, sv.members, i, sv.threads[i], event.ok, event.number);
        } else if HoldsEnsure(sv.threads[i].pc) {
          HolderMoves(sv.core, sv.members, i, sv.threads[i], event.ok, event.number);
        } else {
          OtherMoves(sv.core, sv.members, i, sv.threads[i], event.ok, event.number);
        }
        OwnersStillHold(sv.core, t.core, sv.threads, i, MovePc(sv.core, sv.members, sv.threads[i], event.ok), e);
      }
    }
  }

  lemma {:induction false} ExecuteKeepsEnsureOwners(events: seq<Event>)
    ensures EnsureOwnersHold(Execute(events))
  {
    if events == [] {
    } else {
      ExecuteKeepsEnsureOwners(events[..|events| - 1]);
      NextKeepsEnsureOwners(Execute(events[..|events| - 1]), events[|events| - 1]);
    }
  }

  // ---- Waiting ----

  /** The mutexes of both kinds are held by their owners. */
  ghost predicate OwnersHold(sv: Service) {
    MembersInv(sv) && EnsureOwnersHold(sv)
  }

  lemma OwnersAlwaysHold(events: seq<Event>)
    ensures OwnersHold(Execute(events))
  {
    ExecuteKeepsMembers(events);
    ExecuteKeepsEnsureOwners(events);
  }

  predicate Unfinished(sv: Service, i: ThreadId) {
    i < |sv.threads| && !sv.threads[i].pc.Finished?
  }

  /** No step of the thread, however what it awaits turns out, gets it past where it is. */
  predicate Stuck(sv: Service, i: ThreadId)
    requires i < |sv.threads|
  {
    forall ok :: MovePc(sv.core, sv.members, sv.threads[i], ok) == sv.threads[i].pc
  }

  /** A bound on the steps to the end that go well. */
  function Left(pc: Pc): nat {
    match pc
    case LookUpMembership => 12
    case AcquireMembership(_) => 11
    case LoadTeam(_) => 10
    case CheckPublished(_) => 9
    case LookUpEnsure(_) => 8
    case AcquireEnsure(_, _) => 7
    case Recheck(_, _) => 6
    case StartSession(_, _) => 5
    case Bootstrap(_, _, _) => 4
    case Publish(_, _, _) => 3
    case RemovePublished => 4
    case StopSession(_) => 3
    case KillRuntimes => 2
    case CleanupLookUp(_, _) => 4
    case CleanupAcquire(_, _, _) => 3
    case CleanupCheck(_, _, _) => 2
    case Finished => 0
    case _ => 1
  }

  /** The thread that holds the mutex that thread `i` waits for; `i` itself when it waits for none. */
  function WaitsFor(sv: Service, i: ThreadId): ThreadId
    requires i < |sv.threads|
  {
    match sv.threads[i].pc
    case AcquireMembership(m) => if m in sv.members.owner then sv.members.owner[m] else i
    case AcquireEnsure(_, e) => if e in sv.core.ensureOwner then sv.core.ensureOwner[e] else i
    case CleanupAcquire(_, _, e) => if e in sv.core.ensureOwner then sv.core.ensureOwner[e] else i
    case _ => i
  }

  /** An unfinished thread that does not wait gets on ... */
  lemma MovesUnlessWaiting(sv: Service, i: ThreadId)
    requires OwnersHold(sv) && Unfinished(sv, i) && WaitsFor(sv, i) == i
    ensures Left(MovePc(sv.core, sv.members, sv.threads[i], true)) < Left(sv.threads[i].pc)
  {
    var pc := sv.threads[i].pc;
    assert pc.AcquireMembership? && pc.m in sv.members.owner ==> OwnerHolds(sv.members, sv.threads, pc.m);
    assert (pc.AcquireEnsure? || pc.CleanupAcquire?) && pc.e in sv.core.ensureOwner ==>
      EnsureOwnerHolds(sv.core, sv.threads, pc.e);
  }

  /** ... and one that waits does not. */
  lemma WaitingIsStuck(sv: Service, i: ThreadId, ok: bool)
    requires i < |sv.threads| && WaitsFor(sv, i) != i
    ensures MovePc(sv.core, sv.members, sv.threads[i], ok) == sv.threads[i].pc
  {
  }

  /** How far a thread is from holding all that it may wait for: it takes the membership mutex first. */
  function Waits(pc: Pc): nat {
    if pc.AcquireMembership? then 2 else if pc.AcquireEnsure? || pc.CleanupAcquire? then 1 else 0
  }

  /** Who waits, waits for an unfinished thread that is further. */
  lemma OwnersAreFurther(sv: Service, i: ThreadId)
    requires OwnersHold(sv) && Unfinished(sv, i) && WaitsFor(sv, i) != i
    ensures Unfinished(sv, WaitsFor(sv, i)) && Waits(sv.threads[WaitsFor(sv, i)].pc) < Waits(sv.threads[i].pc)
  {
    var pc := sv.threads[i].pc;
    if pc.AcquireMembership? {
      assert OwnerHolds(sv.members, sv.threads, pc.m);
    } else {
      assert EnsureOwnerHolds(sv.core, sv.threads, pc.e);
    }
  }

  /** The thread at the end of the chain of waiting: `i`, whom it waits for, or whom that one waits for. */
  function Foremost(sv: Service, i: ThreadId): ThreadId
    requires i < |sv.threads|
  {
    var j := WaitsFor(sv, i);
    if j < |sv.threads| then WaitsFor(sv, j) else j
  }

  lemma ForemostMoves(sv: Service, i: ThreadId)
    requires OwnersHold(sv) && Unfinished(sv, i)
    ensures var j := Foremost(sv, i);
      Unfinished(sv, j) && Left(MovePc(sv.core, sv.members, sv.threads[j], true)) < Left(sv.threads[j].pc)
  {
    var next := WaitsFor(sv, i);
    if next != i {
      OwnersAreFurther(sv, i);
    }
    var j := WaitsFor(sv, next);
    if j != next {
      OwnersAreFurther(sv, next);
    }
    if WaitsFor(sv, j) != j {
      OwnersAreFurther(sv, j);
    }
    MovesUnlessWaiting(sv, j);
  }

  /** No deadlock, in any run: whoever is not finished can make a step, or waits, through at most one other thread, for
    * an unfinished one that can. */
  lemma NobodyWaitsInVain(events: seq<Event>, i: ThreadId)
    requires Unfinished(Execute(events), i)
    ensures var sv := Execute(events);
      Unfinished(sv, Foremost(sv, i)) && !Stuck(sv, Foremost(sv, i))
  {
    OwnersAlwaysHold(events);
    ForemostMoves(Execute(events), i);
  }

  /** A thread is stuck exactly when it is finished or another thread holds the mutex it waits for. */
  lemma StuckIff(events: seq<Event>, i: ThreadId)
    requires i < |Execute(events).threads|
    ensures var sv := Execute(events);
      Stuck(sv, i) <==> sv.threads[i].pc.Finished? || WaitsFor(sv, i) != i
  {
    OwnersAlwaysHold(events);
    var sv := Execute(events);
    if WaitsFor(sv, i) != i {
      WaitingIsStuck(sv, i, true);
      WaitingIsStuck(sv, i, false);
    } else if !sv.threads[i].pc.Finished? {
      MovesUnlessWaiting(sv, i);
    }
  }

  // ---- Everybody can finish ----

  function TotalLeft(threads: seq<Thread>): nat {
    if threads == [] then 0 else TotalLeft(threads[..|threads| - 1]) + Left(threads[|threads| - 1].pc)
  }

  lemma {:induction false} OneLess(threads: seq<Thread>, i: nat, th: Thread)
    requires i < |threads|
    ensures TotalLeft(threads[i := th]) == TotalLeft(threads) - Left(threads[i].pc) + Left(th.pc)
  {
    var last := |threads| - 1;
    if i == last {
      assert threads[i := th][..last] == threads[..last];
    } else {
      OneLess(threads[..last], i, th);
      assert threads[i := th][..last] == threads[..last][i := th];
    }
  }

  predicate AllFinished(threads: seq<Thread>) {
    forall i :: 0 <= i < |threads| ==> threads[i].pc.Finished?
  }

  predicate GoWell(events: seq<Event>) {
    forall k :: 0 <= k < |events| ==> events[k].Advance? && events[k].ok
  }

  /** Whoever is not finished, some step brings them all closer to the end. */
  lemma OneStepCloser(events: seq<Event>, i: ThreadId) returns (j: ThreadId)
    requires Unfinished(Execute(events), i)
    ensures Execute(events + [Advance(j, true, 0)]) == Next(Execute(events), Advance(j, true, 0))
    ensures var before, after := Execute(events).threads, Execute(events + [Advance(j, true, 0)]).threads;
      |after| == |before| && TotalLeft(after) < TotalLeft(before)
  {
    OwnersAlwaysHold(events);
    ForemostMoves(Execute(events), i);
    j := Foremost(Execute(events), i);
    var next, after := Append(events, Advance(j, true, 0));
    OneLess(Execute(events).threads, j, after.threads[j]);
  }

  lemma PrependStep(events: seq<Event>, step: Event, rest: seq<Event>)
    ensures events + ([step] + rest) == (events + [step]) + rest
    ensures step.Advance? && step.ok && GoWell(rest) ==> GoWell([step] + rest)
  {
  }

  /** Every run can be continued, by steps of the threads there are that go well, until all of them are finished, in at
    * most as many steps as are left. */
  lemma {:induction false} EverybodyCanFinish(events: seq<Event>) returns (more: seq<Event>)
    ensures GoWell(more) && |more| <= TotalLeft(Execute(events).threads)
    ensures |Execute(events + more).threads| == |Execute(events).threads| && AllFinished(Execute(events + more).threads)
    decreases TotalLeft(Execute(events).threads)
  {
    if AllFinished(Execute(events).threads) {
      more := [];
      assert events + more == events;
    } else {
      var i :| 0 <= i < |Execute(events).threads| && !Execute(events).threads[i].pc.Finished?;
      var j := OneStepCloser(events, i);
      var rest := EverybodyCanFinish(events + [Advance(j, true, 0)]);
      more := [Advance(j, true, 0)] + rest;
      PrependStep(events, Advance(j, true, 0), rest);
    }
  }
}
