/** Attach runs interleaved with everything else that happens to one session.
  *
  * An attach run is a sequence of steps over the session's registry and event loops with an await, or at
  * least a possible preemption, between any two of them. Between its steps any other call may happen:
  * reservations, removals, retries and stop on the registry, spawns, removals and shutdown on the loops,
  * and steps of other attach runs. Calls of the work coordinator, status broadcasts and mailbox notices
  * inside a run touch neither the registry nor the loops and are left out.
  */
module AttachProtocol {
  import opened Wrappers
  import opened MemberRuntime
  import opened MemberRuntimeRuns
  import opened EventLoops

  /** Where an attach run stands. */
  datatype Pc =
    | Warming                              // awaiting the agent process
    | FailureCleanup(failure: Failure)     // the process failed: clean up ...
    | FailureCommit(failure: Failure)      // ... record the failure ...
    | ReadStopped                          // ownership check, unlocked flag read
    | CheckOwner                           // ownership check, under the lock
    | LookUpLoop
    | RegisterLoop
    | LoopFailureCleanup
    | LoopFailureCommit
    | CommitReady
    | DropLoop                             // commit refused: remove the loop this run registered
    | StaleCleanup
    | Wait                                 // lease.waiter().wait(), shared by the four losing exits
    | PublishReady
    | DropUnpublishedLoop
    | UnpublishedCleanup
    | Joined(outcome: AttachOutcome)       // returned what wait returned
    | Attached                             // returned Ready
    | Unpublished                          // returned SessionStopped after committing

  /** `loop` is the task this run registered, if it registered one. */
  datatype Run = Run(lease: AttachLease, loop: Option<TaskId>, pc: Pc)

  datatype World = World(reg: Registry, loops: Loops, runs: seq<Run>)

  /** How the outside world decides a step: the warm-up's result, and whether the session is still published. */
  datatype Choice = Proceed | WarmupFailed(failure: Failure) | NoLongerPublished

  datatype Event =
    | RegistryCall(op: Op)                 // any call; a lease it hands out is dropped without a run
    | StartRun(op: Op)                     // a reservation whose lease is handed to a new attach run
    | LoopCall(lop: LoopOp)
    | RunStep(run: nat, choice: Choice)

  const LOOP_FAILURE := Failure("event_loop_registration_failed", "Agent runtime event loop could not be registered")

  /** One step of one attach run, on the registry and the loops it shares with everybody else. */
  ghost function Move(reg: Registry, loops: Loops, run: Run, choice: Choice): (Registry, Loops, Run) {
    var slot := run.lease.slot;
    match run.pc
    case Warming =>
      (reg, loops, run.(pc := if choice.WarmupFailed? then FailureCleanup(choice.failure) else ReadStopped))
    case FailureCleanup(f) => (reg, loops, run.(pc := FailureCommit(f)))
    case FailureCommit(f) => (MemberRuntime.CommitFailed(reg, run.lease, f).0, loops, run.(pc := Wait))
    case ReadStopped => (reg, loops, run.(pc := if reg.stopped then StaleCleanup else CheckOwner))
    case CheckOwner =>
      var owned := AttachingWith(reg, slot, run.lease.waiter.operationId);
      (reg, loops, run.(pc := if owned then LookUpLoop else StaleCleanup))
    case LookUpLoop => (reg, loops, run.(pc := if Has(loops, slot) then CommitReady else RegisterLoop))
    case RegisterLoop =>
      var (loops', result) := SpawnLoop(loops, slot);
      (reg, loops', match result
        case Spawned => run.(loop := Some(|loops.home|), pc := CommitReady)
        case Duplicate => run.(pc := CommitReady)
        case Stopped => run.(pc := LoopFailureCleanup))
    case LoopFailureCleanup => (reg, loops, run.(pc := LoopFailureCommit))
    case LoopFailureCommit => (MemberRuntime.CommitFailed(reg, run.lease, LOOP_FAILURE).0, loops, run.(pc := Wait))
    case CommitReady =>
      var (reg', ok) := MemberRuntime.CommitReady(reg, run.lease);
      (reg', loops, run.(pc := if ok then PublishReady else if run.loop.Some? then DropLoop else StaleCleanup))
    case DropLoop => (reg, RemoveLoop(loops, slot), run.(pc := StaleCleanup))
    case StaleCleanup => (reg, loops, run.(pc := Wait))
    case Wait =>
      (reg, loops, match PollWaiter(reg, run.lease.waiter)
        case Blocked => run
        case Returned(o) => run.(pc := Joined(o)))
    case PublishReady =>
      (reg, loops, run.(pc := if !choice.NoLongerPublished? then Attached
                              else if run.loop.Some? then DropUnpublishedLoop else UnpublishedCleanup))
    case DropUnpublishedLoop => (reg, RemoveLoop(loops, slot), run.(pc := UnpublishedCleanup))
    case UnpublishedCleanup => (reg, loops, run.(pc := Unpublished))
    case Joined(_) => (reg, loops, run)
    case Attached => (reg, loops, run)
    case Unpublished => (reg, loops, run)
  }

  ghost function StepRun(w: World, i: nat, choice: Choice): World
    requires i < |w.runs|
  {
    var (reg, loops, run) := Move(w.reg, w.loops, w.runs[i], choice);
    World(reg, loops, w.runs[i := run])
  }

  ghost function Next(w: World, event: Event): World {
    match event
    case RegistryCall(op) => w.(reg := Step(w.reg, op).0)
    case StartRun(op) =>
      var (reg, reply) := Step(w.reg, op);
      if reply.Reserved? && reply.reservation.Start?
        then w.(reg := reg, runs := w.runs + [Run(reply.reservation.lease, None, Warming)])
        else w.(reg := reg)
    case LoopCall(lop) => w.(loops := LoopStep(w.loops, lop))
    case RunStep(i, choice) => if i < |w.runs| then StepRun(w, i, choice) else w
  }

  ghost function Execute(generation: Generation, events: seq<Event>): World {
    if events == [] then World(New(generation), NewLoops(), [])
    else Next(Execute(generation, events[..|events| - 1]), events[|events| - 1])
  }

  // ---- The invariant ----

  /** Points a run reaches only after it found out that its lease is lost or settled. */
  predicate Lost(pc: Pc) {
    pc.DropLoop? || pc.StaleCleanup? || pc.Wait? || pc.Joined?
  }

  /** Points behind which a loop the run registered has been removed again. */
  predicate LoopDropped(pc: Pc) {
    pc.StaleCleanup? || pc.Wait? || pc.Joined? || pc.UnpublishedCleanup? || pc.Unpublished?
  }

  predicate BeforeLoop(pc: Pc) {
    || pc.Warming? || pc.FailureCleanup? || pc.FailureCommit? || pc.ReadStopped? || pc.CheckOwner?
    || pc.LookUpLoop? || pc.RegisterLoop? || pc.LoopFailureCleanup? || pc.LoopFailureCommit?
  }

  ghost predicate RunInv(reg: Registry, loops: Loops, run: Run) {
    && Accounted(reg, run.lease)
    && (Lost(run.pc) ==> reg.channels[run.lease.waiter.channel].Terminal?)
    && (run.pc.Joined? ==> reg.channels[run.lease.waiter.channel] == Terminal(run.pc.outcome))
    && (BeforeLoop(run.pc) ==> run.loop.None?)
    && (run.pc.DropLoop? || run.pc.DropUnpublishedLoop? ==> run.loop.Some?)
    && (run.loop.Some? ==> run.loop.value < |loops.home| && loops.home[run.loop.value] == run.lease.slot)
    && (run.loop.Some? && LoopDropped(run.pc) ==> run.loop.value in loops.aborted)
  }

  ghost predicate WorldInv(w: World) {
    && Inv(w.reg)
    && LoopInv(w.loops)
    && (forall i :: 0 <= i < |w.runs| ==> RunInv(w.reg, w.loops, w.runs[i]))
  }

  /** What others do to the registry and the loops leaves every run's invariant in place. */
  lemma RunInvStable(reg: Registry, op: Op, loops: Loops, lop: LoopOp, run: Run)
    requires Inv(reg) && LoopInv(loops) && RunInv(reg, loops, run)
    ensures RunInv(Step(reg, op).0, loops, run)
    ensures RunInv(reg, LoopStep(loops, lop), run)
  {
    AccountedStays(reg, op, run.lease);
    StepKeepsInv(reg, op);
    LoopStepKeepsInv(loops, lop);
  }

  lemma RunsStable(w: World, op: Op, lop: LoopOp)
    requires WorldInv(w)
    ensures WorldInv(w.(reg := Step(w.reg, op).0))
    ensures WorldInv(w.(loops := LoopStep(w.loops, lop)))
  {
    StepKeepsInv(w.reg, op);
    LoopStepKeepsInv(w.loops, lop);
    forall i | 0 <= i < |w.runs|
      ensures RunInv(Step(w.reg, op).0, w.loops, w.runs[i]) && RunInv(w.reg, LoopStep(w.loops, lop), w.runs[i])
    {
      RunInvStable(w.reg, op, w.loops, lop, w.runs[i]);
    }
  }

  /** The calls that a step of a run makes on the registry and on the loops, if it makes any. */
  lemma MoveIsCalls(reg: Registry, loops: Loops, run: Run, choice: Choice) returns (ops: seq<Op>, lops: seq<LoopOp>)
    ensures |ops| <= 1 && |lops| <= 1
    ensures Move(reg, loops, run, choice).0 == if ops == [] then reg else Step(reg, ops[0]).0
    ensures Move(reg, loops, run, choice).1 == if lops == [] then loops else LoopStep(loops, lops[0])
  {
    ops, lops := [], [];
    match run.pc
    case FailureCommit(f) => ops := [CommitFailedOp(run.lease, f)];
    case LoopFailureCommit => ops := [CommitFailedOp(run.lease, LOOP_FAILURE)];
    case CommitReady => ops := [CommitReadyOp(run.lease)];
    case RegisterLoop => lops := [SpawnOp(run.lease.slot)];
    case DropLoop => lops := [RemoveOp(run.lease.slot)];
    case DropUnpublishedLoop => lops := [RemoveOp(run.lease.slot)];
    case _ =>
  }

  /** A commit, accepted or refused, leaves the lease settled. */
  lemma CommitSettles(reg: Registry, loops: Loops, run: Run, op: Op)
    requires Inv(reg) && LoopInv(loops) && RunInv(reg, loops, run)
    requires op == CommitReadyOp(run.lease) || (op.CommitFailedOp? && op.lease == run.lease)
    ensures var t := Step(reg, op).0; RunInv(t, loops, run) && t.channels[run.lease.waiter.channel].Terminal?
  {
    RunInvStable(reg, op, loops, ShutdownOp, run);
    AccountedStays(reg, op, run.lease);
    assert !OwnsAttach(Step(reg, op).0, run.lease);
  }

  /** A run keeps its own invariant when it commits ... */
  lemma CommitMoveKeepsRunInv(reg: Registry, loops: Loops, run: Run, choice: Choice)
    requires Inv(reg) && LoopInv(loops) && RunInv(reg, loops, run)
    requires run.pc.FailureCommit? || run.pc.LoopFailureCommit? || run.pc.CommitReady?
    ensures var (reg', loops', run') := Move(reg, loops, run, choice); RunInv(reg', loops', run')
  {
    var op := match run.pc
      case FailureCommit(f) => CommitFailedOp(run.lease, f)
      case LoopFailureCommit => CommitFailedOp(run.lease, LOOP_FAILURE)
      case CommitReady => CommitReadyOp(run.lease);
    CommitSettles(reg, loops, run, op);
    assert Move(reg, loops, run, choice).0 == Step(reg, op).0;
  }

  /** ... when it calls the loop registry ... */
  lemma LoopMoveKeepsRunInv(reg: Registry, loops: Loops, run: Run, choice: Choice)
    requires Inv(reg) && LoopInv(loops) && RunInv(reg, loops, run)
    requires run.pc.RegisterLoop? || run.pc.DropLoop? || run.pc.DropUnpublishedLoop?
    ensures var (reg', loops', run') := Move(reg, loops, run, choice); RunInv(reg', loops', run')
  {
    var lop := if run.pc.RegisterLoop? then SpawnOp(run.lease.slot) else RemoveOp(run.lease.slot);
    RunInvStable(reg, StopOp, loops, lop, run);
    LoopStepKeepsInv(loops, lop);
    if !run.pc.RegisterLoop? {
      assert run.loop.value in loops.aborted || loops.handles[run.lease.slot] == run.loop.value;
    }
  }

  /** ... and at all its other steps. */
  lemma QuietMoveKeepsRunInv(reg: Registry, loops: Loops, run: Run, choice: Choice)
    requires Inv(reg) && LoopInv(loops) && RunInv(reg, loops, run)
    requires !run.pc.FailureCommit? && !run.pc.LoopFailureCommit? && !run.pc.CommitReady?
    requires !run.pc.RegisterLoop? && !run.pc.DropLoop? && !run.pc.DropUnpublishedLoop? && !run.pc.Wait?
    ensures var (reg', loops', run') := Move(reg, loops, run, choice); RunInv(reg', loops', run')
  {
  }

  lemma WaitMoveKeepsRunInv(reg: Registry, loops: Loops, run: Run, choice: Choice)
    requires Inv(reg) && LoopInv(loops) && RunInv(reg, loops, run) && run.pc.Wait?
    ensures var (reg', loops', run') := Move(reg, loops, run, choice); RunInv(reg', loops', run')
  {
  }

  lemma MoveKeepsRunInv(reg: Registry, loops: Loops, run: Run, choice: Choice)
    requires Inv(reg) && LoopInv(loops) && RunInv(reg, loops, run)
    ensures var (reg', loops', run') := Move(reg, loops, run, choice); RunInv(reg', loops', run')
  {
    match run.pc
    case FailureCommit(_) => CommitMoveKeepsRunInv(reg, loops, run, choice);
    case LoopFailureCommit => CommitMoveKeepsRunInv(reg, loops, run, choice);
    case CommitReady => CommitMoveKeepsRunInv(reg, loops, run, choice);
    case RegisterLoop => LoopMoveKeepsRunInv(reg, loops, run, choice);
    case DropLoop => LoopMoveKeepsRunInv(reg, loops, run, choice);
    case DropUnpublishedLoop => LoopMoveKeepsRunInv(reg, loops, run, choice);
    case Wait => WaitMoveKeepsRunInv(reg, loops, run, choice);
    case _ => QuietMoveKeepsRunInv(reg, loops, run, choice);
  }

  lemma StepRunKeepsInv(w: World, i: nat, choice: Choice)
    requires WorldInv(w) && i < |w.runs|
    ensures WorldInv(StepRun(w, i, choice))
  {
    var (reg, loops, run) := Move(w.reg, w.loops, w.runs[i], choice);
    assert RunInv(w.reg, w.loops, w.runs[i]);
    MoveKeepsRunInv(w.reg, w.loops, w.runs[i], choice);
    var ops, lops := MoveIsCalls(w.reg, w.loops, w.runs[i], choice);
    var mid := w.(reg := reg);
    if ops == [] {
    } else {
      RunsStable(w, ops[0], ShutdownOp);
    }
    if lops == [] {
    } else {
      RunsStable(mid, StopOp, lops[0]);
    }
    assert WorldInv(mid.(loops := loops));
  }

  lemma NextKeepsInv(w: World, event: Event)
    requires WorldInv(w)
    ensures WorldInv(Next(w, event))
  {
    match event
    case RegistryCall(op) => RunsStable(w, op, ShutdownOp);
    case StartRun(op) => RunsStable(w, op, ShutdownOp);
    case LoopCall(lop) => RunsStable(w, StopOp, lop);
    case RunStep(i, choice) =>
      if i < |w.runs| {
        StepRunKeepsInv(w, i, choice);
      }
  }

  lemma {:induction false} ExecuteKeepsInv(generation: Generation, events: seq<Event>)
    ensures WorldInv(Execute(generation, events))
  {
    if events == [] {
    } else {
      ExecuteKeepsInv(generation, events[..|events| - 1]);
      NextKeepsInv(Execute(generation, events[..|events| - 1]), events[|events| - 1]);
    }
  }

  /** No lease is handed to two runs. */
  ghost predicate OneRunPerLease(w: World) {
    forall i, j :: 0 <= i < j < |w.runs| ==> w.runs[i].lease.waiter.channel != w.runs[j].lease.waiter.channel
  }

  lemma MoveKeepsLease(reg: Registry, loops: Loops, run: Run, choice: Choice)
    ensures Move(reg, loops, run, choice).2.lease == run.lease
  {
  }

  lemma NewLeaseIsFresh(reg: Registry, op: Op)
    requires Inv(reg) && Step(reg, op).1.Reserved? && Step(reg, op).1.reservation.Start?
    ensures Step(reg, op).1.reservation.lease.waiter.channel == |reg.channels|
  {
  }

  lemma NextKeepsOneRunPerLease(w: World, event: Event)
    requires WorldInv(w) && OneRunPerLease(w)
    ensures OneRunPerLease(Next(w, event))
  {
    match event
    case RunStep(i, choice) =>
      if i < |w.runs| {
        MoveKeepsLease(w.reg, w.loops, w.runs[i], choice);
      }
    case StartRun(op) =>
      var r := Step(w.reg, op).1;
      if r.Reserved? && r.reservation.Start? {
        NewLeaseIsFresh(w.reg, op);
        assert forall i :: 0 <= i < |w.runs| ==> RunInv(w.reg, w.loops, w.runs[i]);
      }
    case _ =>
  }

  lemma {:induction false} RunsHaveTheirOwnLeases(generation: Generation, events: seq<Event>)
    ensures OneRunPerLease(Execute(generation, events))
  {
    if events == [] {
    } else {
      RunsHaveTheirOwnLeases(generation, events[..|events| - 1]);
      ExecuteKeepsInv(generation, events[..|events| - 1]);
      NextKeepsOneRunPerLease(Execute(generation, events[..|events| - 1]), events[|events| - 1]);
    }
  }

  /** Below the wrap-around, two runs never own the same slot: a slot's operation has one run. */
  lemma OneOwnerPerSlot(generation: Generation, events: seq<Event>, i: nat, j: nat)
    requires var w := Execute(generation, events);
      && i < |w.runs| && j < |w.runs| && |w.reg.channels| < U64 && w.runs[i].lease.slot == w.runs[j].lease.slot
      && OwnsAttach(w.reg, w.runs[i].lease) && OwnsAttach(w.reg, w.runs[j].lease)
    ensures i == j
  {
    var w := Execute(generation, events);
    ExecuteKeepsInv(generation, events);
    RunsHaveTheirOwnLeases(generation, events);
    assert RunInv(w.reg, w.loops, w.runs[i]) && RunInv(w.reg, w.loops, w.runs[j]);
    SameIdSameChannel(|w.reg.channels|, w.runs[i].lease.waiter.channel, w.runs[j].lease.waiter.channel);
  }

  // ---- No attach run can hang ----

  predicate Finished(pc: Pc) {
    pc.Joined? || pc.Attached? || pc.Unpublished?
  }

  /** How many steps of its own a run needs at most before it has returned. */
  function StepsLeft(pc: Pc): nat {
    match pc
    case Warming => 9
    case FailureCleanup(_) => 3
    case FailureCommit(_) => 2
    case ReadStopped => 8
    case CheckOwner => 7
    case LookUpLoop => 6
    case RegisterLoop => 5
    case LoopFailureCleanup => 3
    case LoopFailureCommit => 2
    case CommitReady => 4
    case DropLoop => 3
    case StaleCleanup => 2
    case Wait => 1
    case PublishReady => 3
    case DropUnpublishedLoop => 2
    case UnpublishedCleanup => 1
    case _ => 0
  }

  /** At `wait` the outcome is already there, in any interleaving, on each of the exits that lead to it. */
  lemma WaitNeverBlocks(generation: Generation, events: seq<Event>, i: nat)
    requires i < |Execute(generation, events).runs| && Execute(generation, events).runs[i].pc.Wait?
    ensures var w := Execute(generation, events);
      var c := w.runs[i].lease.waiter.channel;
      && c < |w.reg.channels| && w.reg.channels[c].Terminal?
      && StepRun(w, i, Proceed).runs[i].pc == Joined(w.reg.channels[c].outcome)
  {
    ExecuteKeepsInv(generation, events);
    assert RunInv(Execute(generation, events).reg, Execute(generation, events).loops,
      Execute(generation, events).runs[i]);
  }

  lemma MoveProgresses(reg: Registry, loops: Loops, run: Run, choice: Choice)
    requires !Finished(run.pc) && (run.pc.Wait? ==> PollWaiter(reg, run.lease.waiter).Returned?)
    ensures StepsLeft(Move(reg, loops, run, choice).2.pc) < StepsLeft(run.pc)
  {
  }

  /** Every step of a run brings it closer to returning, whatever happened in between. */
  lemma EveryStepProgresses(generation: Generation, events: seq<Event>, i: nat, choice: Choice)
    requires i < |Execute(generation, events).runs| && !Finished(Execute(generation, events).runs[i].pc)
    ensures var w := Execute(generation, events);
      StepsLeft(StepRun(w, i, choice).runs[i].pc) < StepsLeft(w.runs[i].pc)
  {
    var w := Execute(generation, events);
    if w.runs[i].pc.Wait? {
      WaitNeverBlocks(generation, events, i);
      assert PollWaiter(w.reg, w.runs[i].lease.waiter).Returned?;
    }
    MoveProgresses(w.reg, w.loops, w.runs[i], choice);
  }

  predicate IsStepOf(event: Event, i: nat) {
    event.RunStep? && event.run == i
  }

  function CountSteps(events: seq<Event>, i: nat): nat {
    if events == [] then 0
    else CountSteps(events[..|events| - 1], i) + if IsStepOf(events[|events| - 1], i) then 1 else 0
  }

  /** A run moves only by its own steps. */
  lemma OthersLeaveRun(w: World, event: Event, i: nat)
    requires i < |w.runs| && !IsStepOf(event, i)
    ensures i < |Next(w, event).runs| && Next(w, event).runs[i] == w.runs[i]
  {
  }

  lemma FinishedStays(w: World, i: nat, choice: Choice)
    requires i < |w.runs| && Finished(w.runs[i].pc)
    ensures StepRun(w, i, choice).runs[i] == w.runs[i]
  {
  }

  /** One more event of any kind, seen by one run. */
  lemma EventProgresses(generation: Generation, events: seq<Event>, event: Event, i: nat)
    requires i < |Execute(generation, events).runs|
    ensures var w, t := Execute(generation, events), Next(Execute(generation, events), event);
      && i < |t.runs|
      && (Finished(t.runs[i].pc)
          || StepsLeft(t.runs[i].pc) + (if IsStepOf(event, i) then 1 else 0) <= StepsLeft(w.runs[i].pc))
      && (Finished(w.runs[i].pc) ==> Finished(t.runs[i].pc))
  {
    var w := Execute(generation, events);
    if !IsStepOf(event, i) {
      OthersLeaveRun(w, event, i);
    } else if Finished(w.runs[i].pc) {
      FinishedStays(w, i, event.choice);
    } else {
      EveryStepProgresses(generation, events, i, event.choice);
    }
  }

  /** A run that was scheduled often enough has returned: nine steps of its own suffice. */
  lemma {:induction false} NineStepsFinish(generation: Generation, events: seq<Event>, i: nat, more: seq<Event>)
    requires i < |Execute(generation, events).runs|
    ensures i < |Execute(generation, events + more).runs|
    ensures var pc := Execute(generation, events + more).runs[i].pc;
      Finished(pc) || StepsLeft(pc) + CountSteps(more, i) <= StepsLeft(Execute(generation, events).runs[i].pc)
    ensures CountSteps(more, i) >= 9 ==> Finished(Execute(generation, events + more).runs[i].pc)
  {
    if more == [] {
      assert events + more == events;
    } else {
      var fewer, last := more[..|more| - 1], more[|more| - 1];
      NineStepsFinish(generation, events, i, fewer);
      ExecuteMore(generation, events, more);
      EventProgresses(generation, events + fewer, last, i);
    }
  }

  lemma ExecuteMore(generation: Generation, events: seq<Event>, more: seq<Event>)
    requires more != []
    ensures Execute(generation, events + more) ==
      Next(Execute(generation, events + more[..|more| - 1]), more[|more| - 1])
  {
    assert (events + more)[..|events + more| - 1] == events + more[..|more| - 1];
  }

  // ---- Event loops of losing runs ----

  /** A run that lost its lease, or was no longer published, leaves no loop of its own behind. */
  lemma LosingRunLeavesNoLoop(generation: Generation, events: seq<Event>, i: nat)
    requires i < |Execute(generation, events).runs|
    requires var run := Execute(generation, events).runs[i];
      run.loop.Some? && (run.pc.Wait? || run.pc.Joined? || run.pc.Unpublished?)
    ensures var w := Execute(generation, events);
      var task := w.runs[i].loop.value;
      task in w.loops.aborted && (forall slot :: slot in w.loops.handles ==> w.loops.handles[slot] != task)
  {
    ExecuteKeepsInv(generation, events);
    assert RunInv(Execute(generation, events).reg, Execute(generation, events).loops,
      Execute(generation, events).runs[i]);
  }

  /** The removal is by slot, not by task: it spares other runs' loops exactly when this run's own loop is still
    * alive, or no loop is registered on the slot any more. */
  lemma DroppingSparesOthersIff(generation: Generation, events: seq<Event>, i: nat)
    requires i < |Execute(generation, events).runs|
    requires var pc := Execute(generation, events).runs[i].pc; pc.DropLoop? || pc.DropUnpublishedLoop?
    ensures var w := Execute(generation, events);
      var t := StepRun(w, i, Proceed);
      && w.runs[i].loop.Some?
      && var own := w.runs[i].loop.value;
      t.loops.aborted - w.loops.aborted <= {own} <==>
        own !in w.loops.aborted || !Has(w.loops, w.runs[i].lease.slot)
  {
    ExecuteKeepsInv(generation, events);
    var w := Execute(generation, events);
    assert RunInv(w.reg, w.loops, w.runs[i]);
    var own, slot := w.runs[i].loop.value, w.runs[i].lease.slot;
    var t := StepRun(w, i, Proceed);
    if slot in w.loops.handles {
      assert w.loops.handles[slot] in t.loops.aborted - w.loops.aborted;
    }
  }

  lemma Append(generation: Generation, events: seq<Event>, event: Event) returns (longer: seq<Event>, w: World)
    ensures longer == events + [event]
    ensures w == Execute(generation, longer) == Next(Execute(generation, events), event)
  {
    longer := events + [event];
    assert longer[..|longer| - 1] == events;
    w := Execute(generation, longer);
  }

  /** One step of run `i` in a world in which it stands at `run`. */
  lemma StepsTo(w: World, i: nat, run: Run, reg: Registry, loops: Loops, next: Run)
    requires i < |w.runs| && Move(w.reg, w.loops, run, Proceed) == (reg, loops, next)
    ensures StepRun(w.(runs := w.runs[i := run]), i, Proceed) == World(reg, loops, w.runs[i := next])
  {
  }

  ghost function StepFour(w: World, i: nat): World
    requires i < |w.runs|
  {
    StepRun(StepRun(StepRun(StepRun(w, i, Proceed), i, Proceed), i, Proceed), i, Proceed)
  }

  lemma FourSteps(events: seq<Event>, i: nat) returns (longer: seq<Event>)
    requires i < |Execute(7, events).runs|
    ensures Execute(7, longer) == StepFour(Execute(7, events), i)
  {
    var w: World;
    longer, w := Append(7, events, RunStep(i, Proceed));
    longer, w := Append(7, longer, RunStep(i, Proceed));
    longer, w := Append(7, longer, RunStep(i, Proceed));
    longer, w := Append(7, longer, RunStep(i, Proceed));
  }

  ghost function StepFive(w: World, i: nat): World
    requires i < |w.runs|
  {
    StepRun(StepFour(w, i), i, Proceed)
  }

  /** From a warmed-up process to just short of the commit, with a loop registered on the way. */
  lemma UpToCommit(w: World, i: nat, run: Run)
    requires i < |w.runs| && w.runs[i] == run && run.pc == Warming && run.loop == None
    requires !w.reg.stopped && AttachingWith(w.reg, run.lease.slot, run.lease.waiter.operationId)
    requires !w.loops.stopped && !Has(w.loops, run.lease.slot)
    ensures StepFive(w, i) == World(w.reg, SpawnLoop(w.loops, run.lease.slot).0,
                                    w.runs[i := run.(loop := Some(|w.loops.home|), pc := CommitReady)])
  {
    assert w.runs[i := run] == w.runs;
    StepsTo(w, i, run, w.reg, w.loops, run.(pc := ReadStopped));
    StepsTo(w, i, run.(pc := ReadStopped), w.reg, w.loops, run.(pc := CheckOwner));
    StepsTo(w, i, run.(pc := CheckOwner), w.reg, w.loops, run.(pc := LookUpLoop));
    StepsTo(w, i, run.(pc := LookUpLoop), w.reg, w.loops, run.(pc := RegisterLoop));
    StepsTo(w, i, run.(pc := RegisterLoop), w.reg, SpawnLoop(w.loops, run.lease.slot).0,
            run.(loop := Some(|w.loops.home|), pc := CommitReady));
  }

  lemma AttachUpToCommit(before: seq<Event>, i: nat, run: Run) returns (events: seq<Event>)
    requires var w := Execute(7, before);
      && i < |w.runs| && w.runs[i] == run && run.pc == Warming && run.loop == None
      && !w.reg.stopped && AttachingWith(w.reg, run.lease.slot, run.lease.waiter.operationId)
      && !w.loops.stopped && !Has(w.loops, run.lease.slot)
    ensures var w, t := Execute(7, before), Execute(7, events);
      && t.reg == w.reg
      && t.loops == SpawnLoop(w.loops, run.lease.slot).0
      && t.runs == w.runs[i := run.(loop := Some(|w.loops.home|), pc := CommitReady)]
  {
    UpToCommit(Execute(7, before), i, run);
    events := FourSteps(before, i);
    var w;
    events, w := Append(7, events, RunStep(i, Proceed));
  }

  const UNSAVED := Failure("membership_persist_failed", "Agent runtime needs to restart after membership update failed")

  /** The first run registers its loop and stops short of its commit; then its member is removed, the removal cannot be
    * persisted, and the slot is reserved again. */
  lemma AttachThenReplace(first: AttachLease, second: AttachLease) returns (events: seq<Event>)
    requires first == AttachLease(7, 1, AttachWaiter(1, 0)) && second == AttachLease(7, 1, AttachWaiter(3, 2))
    ensures Execute(7, events) == World(
      Registry(7, 4, map[1 := Entry.Attaching(3, 2)], false,
               [Terminal(Removed), Terminal(AttachOutcome.Failed(UNSAVED)), Pending]),
      Loops(map[], map[], false, [1], {0}),
      [Run(first, Some(0), CommitReady), Run(second, None, Warming)])
  {
    var w: World;
    events, w := Append(7, [], StartRun(ReserveAttachOp(1, false)));
    assert w.runs == [Run(first, None, Warming)];
    events := AttachUpToCommit(events, 0, w.runs[0]);
    events, w := Append(7, events, RegistryCall(BeginRemoveOp(1)));
    assert w.reg == Registry(7, 3, map[1 := Entry.Removing(2, 1)], false, [Terminal(Removed), Pending]);
    events, w := Append(7, events, LoopCall(RemoveOp(1)));
    events, w := Append(7, events, RegistryCall(RestoreOp(RemoveLease(7, 1, 2), UNSAVED)));
    assert w.reg == Registry(7, 3, map[1 := Entry.Failed(2, UNSAVED, 1)], false,
                             [Terminal(Removed), Terminal(AttachOutcome.Failed(UNSAVED))]);
    assert w.loops == Loops(map[], map[], false, [1], {0});
    events, w := Append(7, events, StartRun(ReserveAttachOp(1, true)));
  }

  /** The second run attaches completely. */
  lemma ReplacementAttaches(first: AttachLease, second: AttachLease) returns (events: seq<Event>)
    requires first == AttachLease(7, 1, AttachWaiter(1, 0)) && second == AttachLease(7, 1, AttachWaiter(3, 2))
    ensures Execute(7, events) == World(
      Registry(7, 4, map[1 := Entry.Ready], false,
               [Terminal(Removed), Terminal(AttachOutcome.Failed(UNSAVED)), Terminal(AttachOutcome.Ready)]),
      Loops(map[1 := 1], map[1 := 1], false, [1, 1], {0}),
      [Run(first, Some(0), CommitReady), Run(second, Some(1), Attached)])
  {
    events := AttachThenReplace(first, second);
    events := AttachUpToCommit(events, 1, Run(second, None, Warming));
    var w := Execute(7, events);
    assert w.runs[1] == Run(second, Some(1), CommitReady);
    assert w.loops == Loops(map[1 := 1], map[1 := 1], false, [1, 1], {0});
    events, w := Append(7, events, RunStep(1, Proceed));
    assert w.runs[1] == Run(second, Some(1), PublishReady);
    assert w.reg.channels ==
      [Terminal(Removed), Terminal(AttachOutcome.Failed(UNSAVED)), Terminal(AttachOutcome.Ready)];
    events, w := Append(7, events, RunStep(1, Proceed));
  }

  /** A losing run can take away a replacement's loop. The removal of the member begins while its first attach run is
    * about to commit, cannot be persisted, and the member is attached again; then the first run's commit is refused and
    * it removes the loop of the second.
    * The member ends up ready, with no operation in flight, and without an event loop. */
  lemma ReadyMemberCanLoseItsLoop() returns (events: seq<Event>)
    ensures var w := Execute(7, events);
      && Observe(w.reg, 1) == Snapshot.Ready
      && !Has(w.loops, 1)
      && (forall i :: 0 <= i < |w.runs| ==> Finished(w.runs[i].pc))
  {
    var first := AttachLease(7, 1, AttachWaiter(1, 0));
    var second := AttachLease(7, 1, AttachWaiter(3, 2));
    events := ReplacementAttaches(first, second);
    RefusedRunDropsLoop(Execute(7, events), first, second);
    events := FourSteps(events, 0);
  }

  lemma RefusedRunDropsLoop(w: World, first: AttachLease, second: AttachLease)
    requires first == AttachLease(7, 1, AttachWaiter(1, 0))
    requires w.reg.entries == map[1 := Entry.Ready] && !w.reg.stopped
    requires |w.reg.channels| > 0 && w.reg.channels[0] == Terminal(Removed)
    requires w.loops.handles == map[1 := 1] && w.loops.notifiers == map[1 := 1]
    requires w.runs == [Run(first, Some(0), CommitReady), Run(second, Some(1), Attached)]
    ensures var t := StepFour(w, 0);
      && t.reg == w.reg
      && !Has(t.loops, 1)
      && t.runs == [Run(first, Some(0), Joined(Removed)), Run(second, Some(1), Attached)]
  {
    var (r1, l1, run1) := Move(w.reg, w.loops, w.runs[0], Proceed);
    assert run1 == Run(first, Some(0), DropLoop) && r1 == w.reg && l1 == w.loops;
    var (r2, l2, run2) := Move(r1, l1, run1, Proceed);
    assert run2 == Run(first, Some(0), StaleCleanup) && r2 == w.reg && !Has(l2, 1);
    var (r3, l3, run3) := Move(r2, l2, run2, Proceed);
    var (r4, l4, run4) := Move(r3, l3, run3, Proceed);
    assert run4 == Run(first, Some(0), Joined(Removed));
  }
}
