/** What an attach run returns, by what it found at its own steps, whatever happened in between. */
module AttachResults {
  import opened Wrappers
  import opened MemberRuntime
  import opened MemberRuntimeRuns
  import opened EventLoops
  import opened AttachProtocol
  import opened MemberProcesses

  /** Event `k` is a step of run `i`. */
  ghost predicate StepsAt(generation: Generation, events: seq<Event>, k: nat, i: nat) {
    k < |events| && IsStepOf(events[k], i) && i < |Execute(generation, events[..k]).runs|
  }

  /** Ways of a run that it never leaves again. */
  datatype Route =
    | WarmupFails(failure: Failure)
    | LoopRefused
    | Overtaken
    | Attaches
    | Withdraws

  predicate On(route: Route, pc: Pc) {
    match route
    case WarmupFails(f) => pc == FailureCleanup(f) || pc == FailureCommit(f) || pc.Wait? || pc.Joined?
    case LoopRefused => pc.LoopFailureCleanup? || pc.LoopFailureCommit? || pc.Wait? || pc.Joined?
    case Overtaken => pc.DropLoop? || pc.StaleCleanup? || pc.Wait? || pc.Joined?
    case Attaches => pc.Attached?
    case Withdraws => pc.DropUnpublishedLoop? || pc.UnpublishedCleanup? || pc.Unpublished?
  }

  lemma MoveKeepsRoute(reg: Registry, loops: Loops, run: Run, choice: Choice, route: Route)
    requires On(route, run.pc)
    ensures On(route, Move(reg, loops, run, choice).2.pc)
  {
  }

  /** One more event, seen by one run: its step, or nothing. */
  lemma OneMore(generation: Generation, events: seq<Event>, i: nat)
    requires events != [] && i < |Execute(generation, events[..|events| - 1]).runs|
    ensures var w, t := Execute(generation, events[..|events| - 1]), Execute(generation, events);
      var last := events[|events| - 1];
      && i < |t.runs|
      && t.runs[i] == if IsStepOf(last, i) then Move(w.reg, w.loops, w.runs[i], last.choice).2 else w.runs[i]
  {
    if !IsStepOf(events[|events| - 1], i) {
      OthersLeaveRun(Execute(generation, events[..|events| - 1]), events[|events| - 1], i);
    }
  }

  lemma {:induction false} RouteToTheEnd(generation: Generation, events: seq<Event>, k: nat, i: nat, route: Route)
    requires k <= |events| && i < |Execute(generation, events[..k]).runs|
    requires On(route, Execute(generation, events[..k]).runs[i].pc)
    ensures i < |Execute(generation, events).runs| && On(route, Execute(generation, events).runs[i].pc)
  {
    if k == |events| {
      assert events[..k] == events;
    } else {
      var init, last := events[..|events| - 1], events[|events| - 1];
      assert init[..k] == events[..k];
      RouteToTheEnd(generation, init, k, i, route);
      OneMore(generation, events, i);
      if IsStepOf(last, i) {
        var w := Execute(generation, init);
        MoveKeepsRoute(w.reg, w.loops, w.runs[i], last.choice, route);
      }
    }
  }

  lemma StepAt(generation: Generation, events: seq<Event>, k: nat, i: nat)
    requires StepsAt(generation, events, k, i)
    ensures var w, t := Execute(generation, events[..k]), Execute(generation, events[..k + 1]);
      && t == StepRun(w, i, events[k].choice) && i < |t.runs|
      && (t.reg, t.loops, t.runs[i]) == Move(w.reg, w.loops, w.runs[i], events[k].choice)
  {
    assert events[..k + 1][..k] == events[..k];
  }

  /** The registry shows the run's slot as attaching under the run's own operation. */
  predicate ShownAsOwner(w: World, i: nat)
    requires i < |w.runs|
  {
    Observe(w.reg, w.runs[i].lease.slot) == Snapshot.Attaching(w.runs[i].lease.waiter.operationId)
  }

  /** A run is started exactly by a reservation that hands out a lease, and starts with that lease and no loop. */
  lemma StartedByItsLease(generation: Generation, events: seq<Event>, op: Op)
    ensures var w, t := Execute(generation, events), Next(Execute(generation, events), StartRun(op));
      var (reg, reply) := Step(w.reg, op);
      && t.reg == reg && t.loops == w.loops
      && (if reply.Reserved? && reply.reservation.Start?
          then |t.runs| == |w.runs| + 1 && t.runs[..|w.runs|] == w.runs
               && t.runs[|w.runs|] == Run(reply.reservation.lease, None, Warming)
               && ShownAsOwner(t, |w.runs|)
          else t.runs == w.runs)
  {
    ExecuteKeepsInv(generation, events);
  }

  // ---- The decisions of a run ----

  /** A failed warm-up decides: the run never registers a loop, and returns what its operation comes to. */
  lemma WarmupDecides(generation: Generation, events: seq<Event>, k: nat, i: nat)
    requires StepsAt(generation, events, k, i) && Execute(generation, events[..k]).runs[i].pc.Warming?
    ensures i < |Execute(generation, events[..k + 1]).runs| && i < |Execute(generation, events).runs|
    ensures var choice, end := events[k].choice, Execute(generation, events).runs[i];
      if choice.WarmupFailed? then On(WarmupFails(choice.failure), end.pc)
      else Execute(generation, events[..k + 1]).runs[i].pc.ReadStopped?
  {
    StepAt(generation, events, k, i);
    var choice := events[k].choice;
    if choice.WarmupFailed? {
      RouteToTheEnd(generation, events, k + 1, i, WarmupFails(choice.failure));
    } else {
      StaysARun(generation, events, k + 1, i);
    }
  }

  lemma {:induction false} StaysARun(generation: Generation, events: seq<Event>, k: nat, i: nat)
    requires k <= |events| && i < |Execute(generation, events[..k]).runs|
    ensures i < |Execute(generation, events).runs|
    ensures Execute(generation, events).runs[i].lease == Execute(generation, events[..k]).runs[i].lease
    ensures Execute(generation, events[..k]).runs[i].loop.Some? ==>
      Execute(generation, events).runs[i].loop == Execute(generation, events[..k]).runs[i].loop
  {
    if k == |events| {
      assert events[..k] == events;
    } else {
      var init, last := events[..|events| - 1], events[|events| - 1];
      assert init[..k] == events[..k];
      StaysARun(generation, init, k, i);
      OneMore(generation, events, i);
      if IsStepOf(last, i) {
        ExecuteKeepsInv(generation, init);
        var w := Execute(generation, init);
        assert RunInv(w.reg, w.loops, w.runs[i]);
        MoveKeepsLoop(w.reg, w.loops, w.runs[i], last.choice);
      }
    }
  }

  lemma MoveKeepsLoop(reg: Registry, loops: Loops, run: Run, choice: Choice)
    requires run.pc.RegisterLoop? ==> run.loop.None?
    ensures var next := Move(reg, loops, run, choice).2;
      next.lease == run.lease && (run.loop.Some? ==> next.loop == run.loop)
  {
  }

  /** A run goes on to its loop exactly when the session is not stopped and, then, the slot still shows its operation;
    * else it is overtaken for good. */
  lemma OwnershipDecides(generation: Generation, events: seq<Event>, k: nat, i: nat)
    requires StepsAt(generation, events, k, i)
    requires var pc := Execute(generation, events[..k]).runs[i].pc; pc.ReadStopped? || pc.CheckOwner?
    ensures i < |Execute(generation, events[..k + 1]).runs| && i < |Execute(generation, events).runs|
    ensures var w, next := Execute(generation, events[..k]), Execute(generation, events[..k + 1]).runs[i].pc;
      && (w.runs[i].pc.ReadStopped? ==>
            if Observe(w.reg, w.runs[i].lease.slot).SessionStopped?
            then On(Overtaken, Execute(generation, events).runs[i].pc) else next.CheckOwner?)
      && (w.runs[i].pc.CheckOwner? ==>
            if ShownAsOwner(w, i) then next.LookUpLoop? else On(Overtaken, Execute(generation, events).runs[i].pc))
  {
    StepAt(generation, events, k, i);
    StaysARun(generation, events, k + 1, i);
    ExecuteKeepsInv(generation, events[..k]);
    if On(Overtaken, Execute(generation, events[..k + 1]).runs[i].pc) {
      RouteToTheEnd(generation, events, k + 1, i, Overtaken);
    }
  }

  /** At its look-up a run goes on to its commit exactly when its slot has a loop. */
  lemma LookUpDecision(w: World, i: nat, choice: Choice)
    requires i < |w.runs| && w.runs[i].pc.LookUpLoop? && w.runs[i].loop.None?
    ensures var t := StepRun(w, i, choice);
      && t.loops == w.loops && t.runs[i].loop.None?
      && if Has(w.loops, w.runs[i].lease.slot) then t.runs[i].pc.CommitReady? else t.runs[i].pc.RegisterLoop?
  {
  }

  /** At its registration a run goes on to its commit, with a loop on its slot, unless the loops are shut down. */
  lemma RegisterDecision(w: World, i: nat, choice: Choice)
    requires LoopInv(w.loops) && i < |w.runs| && w.runs[i].pc.RegisterLoop? && w.runs[i].loop.None?
    ensures var t, slot := StepRun(w, i, choice), w.runs[i].lease.slot;
      && (if w.loops.stopped then On(LoopRefused, t.runs[i].pc) && t.loops == w.loops
          else t.runs[i].pc.CommitReady? && Has(t.loops, slot))
      && (t.runs[i].loop.Some? <==> !w.loops.stopped && !Has(w.loops, slot))
      && (t.runs[i].loop.Some? ==> slot in t.loops.handles && t.loops.handles[slot] == t.runs[i].loop.value)
  {
  }

  /** Nobody commits without a loop: a run goes on to its commit exactly when its slot has a loop by then, its own if it
    * was the one to register it; when the loops are shut down, it ends with the loop failure, and without a loop. */
  lemma LoopDecides(generation: Generation, events: seq<Event>, k: nat, i: nat)
    requires StepsAt(generation, events, k, i)
    requires var pc := Execute(generation, events[..k]).runs[i].pc; pc.LookUpLoop? || pc.RegisterLoop?
    ensures i < |Execute(generation, events[..k + 1]).runs| && i < |Execute(generation, events).runs|
    ensures var w, t := Execute(generation, events[..k]), Execute(generation, events[..k + 1]);
      var here, next, slot := w.runs[i], t.runs[i], w.runs[i].lease.slot;
      && (next.pc.CommitReady? <==> Has(t.loops, slot))
      && (here.pc.LookUpLoop? && !Has(w.loops, slot) ==> next.pc.RegisterLoop?)
      && (here.pc.RegisterLoop? && w.loops.stopped ==> On(LoopRefused, Execute(generation, events).runs[i].pc))
      && (here.pc.RegisterLoop? && !w.loops.stopped ==> next.pc.CommitReady?)
      && (next.loop.Some? <==> here.pc.RegisterLoop? && !w.loops.stopped && !Has(w.loops, slot))
      && (next.loop.Some? ==> slot in t.loops.handles && t.loops.handles[slot] == next.loop.value)
  {
    StepAt(generation, events, k, i);
    StaysARun(generation, events, k + 1, i);
    ExecuteKeepsInv(generation, events[..k]);
    var w := Execute(generation, events[..k]);
    assert RunInv(w.reg, w.loops, w.runs[i]);
    if w.runs[i].pc.LookUpLoop? {
      LookUpDecision(w, i, events[k].choice);
    } else {
      RegisterDecision(w, i, events[k].choice);
      if w.loops.stopped {
        RouteToTheEnd(generation, events, k + 1, i, LoopRefused);
      }
    }
  }

  lemma CommitDecision(w: World, i: nat, choice: Choice)
    requires WorldInv(w) && i < |w.runs| && w.runs[i].pc.CommitReady?
    ensures var t, slot := StepRun(w, i, choice), w.runs[i].lease.slot;
      if ShownAsOwner(w, i) then t.runs[i].pc.PublishReady? && Observe(t.reg, slot) == Snapshot.Ready
      else On(Overtaken, t.runs[i].pc) && t.reg == w.reg
  {
    assert RunInv(w.reg, w.loops, w.runs[i]);
  }

  /** A commit makes the member ready exactly when the slot still shows the run's operation; otherwise the run is
    * overtaken for good. */
  lemma CommitDecides(generation: Generation, events: seq<Event>, k: nat, i: nat)
    requires StepsAt(generation, events, k, i) && Execute(generation, events[..k]).runs[i].pc.CommitReady?
    ensures i < |Execute(generation, events).runs|
    ensures var w, t := Execute(generation, events[..k]), Execute(generation, events[..k + 1]);
      var slot := w.runs[i].lease.slot;
      if ShownAsOwner(w, i)
      then i < |t.runs| && t.runs[i].pc.PublishReady? && Observe(t.reg, slot) == Snapshot.Ready
      else On(Overtaken, Execute(generation, events).runs[i].pc) && t.reg == w.reg
  {
    StepAt(generation, events, k, i);
    StaysARun(generation, events, k + 1, i);
    ExecuteKeepsInv(generation, events[..k]);
    CommitDecision(Execute(generation, events[..k]), i, events[k].choice);
    if On(Overtaken, Execute(generation, events[..k + 1]).runs[i].pc) {
      RouteToTheEnd(generation, events, k + 1, i, Overtaken);
    }
  }

  // ---- Publishing ----

  /** At event `k` the run asks whether its session is still published. */
  ghost predicate AsksAt(generation: Generation, events: seq<Event>, k: nat, i: nat) {
    StepsAt(generation, events, k, i) && Execute(generation, events[..k]).runs[i].pc.PublishReady?
  }

  /** The run was told that its session is still published, or no longer. */
  ghost predicate WasTold(generation: Generation, events: seq<Event>, i: nat, published: bool) {
    exists k: nat :: AsksAt(generation, events, k, i) && (events[k].choice.NoLongerPublished? <==> !published)
  }

  lemma ToldBefore(generation: Generation, events: seq<Event>, i: nat, published: bool)
    requires events != []
    ensures var init, last := events[..|events| - 1], events[|events| - 1];
      WasTold(generation, events, i, published) <==>
        || WasTold(generation, init, i, published)
        || (AsksAt(generation, events, |init|, i) && (last.choice.NoLongerPublished? <==> !published))
  {
    var init := events[..|events| - 1];
    assert forall k :: 0 <= k < |init| ==> init[..k] == events[..k];
    if k: nat :| AsksAt(generation, init, k, i) && (init[k].choice.NoLongerPublished? <==> !published) {
      assert AsksAt(generation, events, k, i);
    }
    if k: nat :| AsksAt(generation, events, k, i) && (events[k].choice.NoLongerPublished? <==> !published) {
      assert k < |init| ==> AsksAt(generation, init, k, i);
    }
  }

  lemma PublishMoves(reg: Registry, loops: Loops, run: Run, choice: Choice)
    ensures var pc := Move(reg, loops, run, choice).2.pc;
      && (pc.Attached? <==> run.pc.Attached? || (run.pc.PublishReady? && !choice.NoLongerPublished?))
      && (On(Withdraws, pc) <==> On(Withdraws, run.pc) || (run.pc.PublishReady? && choice.NoLongerPublished?))
  {
  }

  /** In every run of events, an attach run returns ready exactly when it was told that its session is still published;
    * and it is on its way to give up as stopped exactly when it was told that it is not. */
  lemma {:induction false} AttachedIffPublished(generation: Generation, events: seq<Event>, i: nat)
    requires i < |Execute(generation, events).runs|
    ensures Execute(generation, events).runs[i].pc.Attached? <==> WasTold(generation, events, i, true)
    ensures On(Withdraws, Execute(generation, events).runs[i].pc) <==> WasTold(generation, events, i, false)
  {
    if events == [] {
    } else {
      var init, last := events[..|events| - 1], events[|events| - 1];
      var w := Execute(generation, init);
      ToldBefore(generation, events, i, true);
      ToldBefore(generation, events, i, false);
      if i < |w.runs| {
        AttachedIffPublished(generation, init, i);
        OneMore(generation, events, i);
        if IsStepOf(last, i) {
          PublishMoves(w.reg, w.loops, w.runs[i], last.choice);
        }
      } else {
        NobodyAskedYet(generation, init, i);
        assert last.StartRun? && Execute(generation, events).runs[i].pc.Warming?;
      }
    }
  }

  lemma NobodyAskedYet(generation: Generation, events: seq<Event>, i: nat)
    requires i >= |Execute(generation, events).runs|
    ensures !WasTold(generation, events, i, true) && !WasTold(generation, events, i, false)
  {
    forall k: nat | StepsAt(generation, events, k, i)
      ensures false
    {
      StaysARun(generation, events, k, i);
    }
  }

  /** A run that was told that its session is no longer published gives up: whatever happens meanwhile, it returns as
    * stopped, and its own loop, if it registered one, is aborted and no longer registered. */
  lemma UnpublishedRunsWithdraw(generation: Generation, events: seq<Event>, k: nat, i: nat)
    requires AsksAt(generation, events, k, i) && events[k].choice.NoLongerPublished?
    ensures i < |Execute(generation, events).runs|
    ensures var w := Execute(generation, events);
      var run, loop := w.runs[i], Execute(generation, events[..k]).runs[i].loop;
      && On(Withdraws, run.pc) && (Finished(run.pc) ==> run.pc.Unpublished?)
      && (Finished(run.pc) && loop.Some? ==>
            && loop.value in w.loops.aborted
            && forall slot :: slot in w.loops.handles ==> w.loops.handles[slot] != loop.value)
  {
    StepAt(generation, events, k, i);
    RouteToTheEnd(generation, events, k + 1, i, Withdraws);
    StaysARun(generation, events, k, i);
    if Finished(Execute(generation, events).runs[i].pc) && Execute(generation, events).runs[i].loop.Some? {
      LosingRunLeavesNoLoop(generation, events, i);
    }
  }

  // ---- What the run and its waiters are told ----

  /** The registry's part of what runs do is a run of the registry. */
  lemma {:induction false} RegistryEvolves(generation: Generation, events: seq<Event>, k: nat)
    requires k <= |events|
    ensures Evolves(Execute(generation, events[..k]).reg, Execute(generation, events).reg)
  {
    if k == |events| {
      assert events[..k] == events;
    } else {
      var init, last := events[..|events| - 1], events[|events| - 1];
      assert init[..k] == events[..k];
      RegistryEvolves(generation, init, k);
      ExecuteKeepsInv(generation, init);
      EventEvolves(Execute(generation, init), last);
      EvolvesTransitive(Execute(generation, init[..k]).reg, Execute(generation, init).reg,
                        Execute(generation, events).reg);
    }
  }

  lemma EventEvolves(w: World, event: Event)
    requires WorldInv(w)
    ensures Evolves(w.reg, Next(w, event).reg)
  {
    match event
    case RegistryCall(op) => StepKeepsInv(w.reg, op);
    case StartRun(op) => StepKeepsInv(w.reg, op);
    case LoopCall(_) =>
    case RunStep(i, choice) =>
      if i < |w.runs| {
        var ops, lops := MoveIsCalls(w.reg, w.loops, w.runs[i], choice);
        if ops != [] {
          StepKeepsInv(w.reg, ops[0]);
        }
      }
  }

  predicate Commits(pc: Pc) {
    pc.CommitReady? || pc.FailureCommit? || pc.LoopFailureCommit?
  }

  /** What a run has to report by its commit. */
  function Reported(pc: Pc): AttachOutcome
    requires Commits(pc)
  {
    match pc
    case CommitReady => AttachOutcome.Ready
    case FailureCommit(f) => AttachOutcome.Failed(f)
    case LoopFailureCommit => AttachOutcome.Failed(LOOP_FAILURE)
  }

  /** How the slot shows what was reported. */
  function ShownAs(outcome: AttachOutcome, id: nat): Snapshot {
    match outcome
    case Ready => Snapshot.Ready
    case Failed(f) => Snapshot.Failed(id, f)
    case Removed => Snapshot.Absent
    case SessionStopped => Snapshot.SessionStopped
  }

  lemma CommitMoves(w: World, i: nat, choice: Choice)
    requires WorldInv(w) && |w.reg.channels| < U64 && i < |w.runs| && Commits(w.runs[i].pc) && ShownAsOwner(w, i)
    ensures var t, lease, outcome := StepRun(w, i, choice), w.runs[i].lease, Reported(w.runs[i].pc);
      && Observe(t.reg, lease.slot) == ShownAs(outcome, lease.waiter.operationId)
      && lease.waiter.channel < |t.reg.channels| && t.reg.channels[lease.waiter.channel] == Terminal(outcome)
  {
    var run := w.runs[i];
    assert RunInv(w.reg, w.loops, run);
    SameIdSameChannel(|w.reg.channels|, w.reg.entries[run.lease.slot].channel, run.lease.waiter.channel);
  }

  lemma CommitAt(generation: Generation, events: seq<Event>, k: nat, i: nat)
    requires StepsAt(generation, events, k, i) && Commits(Execute(generation, events[..k]).runs[i].pc)
    requires ShownAsOwner(Execute(generation, events[..k]), i)
    requires |Execute(generation, events[..k]).reg.channels| < U64
    ensures i < |Execute(generation, events[..k + 1]).runs|
    ensures var w, t := Execute(generation, events[..k]), Execute(generation, events[..k + 1]);
      var lease, outcome := w.runs[i].lease, Reported(w.runs[i].pc);
      && Observe(t.reg, lease.slot) == ShownAs(outcome, lease.waiter.operationId)
      && lease.waiter.channel < |t.reg.channels| && t.reg.channels[lease.waiter.channel] == Terminal(outcome)
      && (outcome.Failed? ==> On(Overtaken, t.runs[i].pc))
  {
    ExecuteKeepsInv(generation, events[..k]);
    StepAt(generation, events, k, i);
    CommitMoves(Execute(generation, events[..k]), i, events[k].choice);
  }

  lemma RecordedToTheEnd(generation: Generation, events: seq<Event>, k: nat, w: AttachWaiter, o: AttachOutcome)
    requires k <= |events| && w.channel < |Execute(generation, events[..k]).reg.channels|
    requires Execute(generation, events[..k]).reg.channels[w.channel] == Terminal(o)
    ensures PollWaiter(Execute(generation, events).reg, w) == Returned(o)
  {
    RegistryEvolves(generation, events, k);
  }

  /** A run that commits while the slot shows its operation has its outcome shown; every waiter of the operation is told
    * it, to the end; and a run that failed returns its failure. */
  lemma CommitsAreReported(generation: Generation, events: seq<Event>, k: nat, i: nat)
    requires StepsAt(generation, events, k, i) && Commits(Execute(generation, events[..k]).runs[i].pc)
    requires ShownAsOwner(Execute(generation, events[..k]), i)
    requires |Execute(generation, events[..k]).reg.channels| < U64
    ensures i < |Execute(generation, events).runs|
    ensures var w, t := Execute(generation, events[..k]), Execute(generation, events[..k + 1]);
      var end, lease, outcome := Execute(generation, events), w.runs[i].lease, Reported(w.runs[i].pc);
      && Observe(t.reg, lease.slot) == ShownAs(outcome, lease.waiter.operationId)
      && PollWaiter(end.reg, lease.waiter) == Returned(outcome)
      && (outcome.Failed? && Finished(end.runs[i].pc) ==> end.runs[i].pc == Joined(outcome))
  {
    var run := Execute(generation, events[..k]).runs[i];
    CommitAt(generation, events, k, i);
    RecordedToTheEnd(generation, events, k + 1, run.lease.waiter, Reported(run.pc));
    StaysARun(generation, events, k, i);
    if Reported(run.pc).Failed? {
      RouteToTheEnd(generation, events, k + 1, i, Overtaken);
      if Finished(Execute(generation, events).runs[i].pc) {
        ReturnsWhatIsRecorded(generation, events, i);
      }
    }
  }

  /** A run that waited returns what its operation's waiters are told. */
  lemma ReturnsWhatIsRecorded(generation: Generation, events: seq<Event>, i: nat)
    requires i < |Execute(generation, events).runs| && Execute(generation, events).runs[i].pc.Joined?
    ensures var w := Execute(generation, events);
      PollWaiter(w.reg, w.runs[i].lease.waiter) == Returned(w.runs[i].pc.outcome)
  {
    ExecuteKeepsInv(generation, events);
    var w := Execute(generation, events);
    assert RunInv(w.reg, w.loops, w.runs[i]);
  }

  // ---- Cleaning up ----

  /** How often the run has stepped through a cleanup of its process. */
  ghost function Cleanups(generation: Generation, events: seq<Event>, i: nat): nat {
    if events == [] then 0
    else
      var init, last := events[..|events| - 1], events[|events| - 1];
      var w := Execute(generation, init);
      Cleanups(generation, init, i) +
        if IsStepOf(last, i) && i < |w.runs| && IsCleanup(w.runs[i].pc) then 1 else 0
  }

  predicate HasCleanedUp(pc: Pc) {
    pc.FailureCommit? || pc.LoopFailureCommit? || pc.Wait? || pc.Joined? || pc.Unpublished?
  }

  lemma CleanupMoves(reg: Registry, loops: Loops, run: Run, choice: Choice)
    ensures HasCleanedUp(Move(reg, loops, run, choice).2.pc) <==> HasCleanedUp(run.pc) || IsCleanup(run.pc)
    ensures IsCleanup(run.pc) ==> !HasCleanedUp(run.pc)
  {
  }

  lemma {:induction false} CleanupsShow(generation: Generation, events: seq<Event>, i: nat)
    ensures var w := Execute(generation, events);
      Cleanups(generation, events, i) == if i < |w.runs| && HasCleanedUp(w.runs[i].pc) then 1 else 0
  {
    if events == [] {
    } else {
      var init, last := events[..|events| - 1], events[|events| - 1];
      var w := Execute(generation, init);
      CleanupsShow(generation, init, i);
      if i < |w.runs| {
        OneMore(generation, events, i);
        if IsStepOf(last, i) {
          CleanupMoves(w.reg, w.loops, w.runs[i], last.choice);
        }
      } else if i < |Execute(generation, events).runs| {
        assert last.StartRun? && Execute(generation, events).runs[i].pc.Warming?;
      }
    }
  }

  /** A run that has returned has cleaned up its process exactly once, unless it attached: then never. */
  lemma CleansUpOnceUnlessAttached(generation: Generation, events: seq<Event>, i: nat)
    requires i < |Execute(generation, events).runs| && Finished(Execute(generation, events).runs[i].pc)
    ensures Cleanups(generation, events, i) == if Execute(generation, events).runs[i].pc.Attached? then 0 else 1
  {
    CleanupsShow(generation, events, i);
  }
}
