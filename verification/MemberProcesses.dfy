/** The agent processes that attach runs bring up and clean up, on top of the attach protocol.
  *
  * Every slot has one conversation, and every conversation has at most one process. A warm-up replaces the process of
  * its conversation; a cleanup kills it unless another session of the team is published, whoever brought it up.
  */
module MemberProcesses {
  import opened Wrappers
  import opened MemberRuntime
  import opened EventLoops
  import opened AttachProtocol

  /** `processes[slot]` is the run whose warm-up brought the slot's process up. */
  datatype State = State(world: World, processes: map<SlotId, nat>)

  datatype Happening =
    | Protocol(event: Event)
    | KillProcess(slot: SlotId)      // by a removal, a rebuild, a stop, or a warm-up before it starts a new one

  predicate IsCleanup(pc: Pc) {
    pc.FailureCleanup? || pc.LoopFailureCleanup? || pc.StaleCleanup? || pc.UnpublishedCleanup?
  }

  /** The happening is the step of run `j` that completes its warm-up. */
  predicate Warms(w: World, h: Happening, j: nat) {
    && h.Protocol? && h.event.RunStep? && h.event.run == j && j < |w.runs|
    && w.runs[j].pc.Warming? && !h.event.choice.WarmupFailed?
  }

  /** The happening is the kill of a cleanup of run `j`. */
  predicate CleansUp(w: World, h: Happening, j: nat) {
    && h.Protocol? && h.event.RunStep? && h.event.run == j && j < |w.runs|
    && IsCleanup(w.runs[j].pc) && !h.event.choice.NoLongerPublished?
  }

  function RunOf(h: Happening): nat {
    if h.Protocol? && h.event.RunStep? then h.event.run else 0
  }

  ghost function Happen(s: State, h: Happening): State {
    var j := RunOf(h);
    var processes :=
      if h.KillProcess? then s.processes - {h.slot}
      else if Warms(s.world, h, j) then s.processes[s.world.runs[j].lease.slot := j]
      else if CleansUp(s.world, h, j) then s.processes - {s.world.runs[j].lease.slot}
      else s.processes;
    State(if h.Protocol? then Next(s.world, h.event) else s.world, processes)
  }

  ghost function History(generation: Generation, hs: seq<Happening>): State {
    if hs == [] then State(World(New(generation), NewLoops(), []), map[])
    else Happen(History(generation, hs[..|hs| - 1]), hs[|hs| - 1])
  }

  /** A run at its cleanup, at whichever of its four ways out, leaves its slot without a process, unless another session
    * of the team is published; a run at its warm-up leaves its own there; and no other slot sees either. */
  lemma RunsMoveTheirProcess(s: State, i: nat, choice: Choice)
    requires i < |s.world.runs|
    ensures var run := s.world.runs[i];
      var after, slot := Happen(s, Protocol(RunStep(i, choice))).processes, run.lease.slot;
      && (forall other :: other != slot ==> (other in after <==> other in s.processes))
      && (forall other :: other != slot && other in after ==> after[other] == s.processes[other])
      && match run.pc
         case Warming =>
           if choice.WarmupFailed? then after == s.processes else slot in after && after[slot] == i
         case FailureCleanup(_) => choice.NoLongerPublished? || slot !in after
         case LoopFailureCleanup => choice.NoLongerPublished? || slot !in after
         case StaleCleanup => choice.NoLongerPublished? || slot !in after
         case UnpublishedCleanup => choice.NoLongerPublished? || slot !in after
         case _ => after == s.processes
    ensures choice.NoLongerPublished? ==>
      s.world.runs[i].pc.Warming? || Happen(s, Protocol(RunStep(i, choice))).processes == s.processes
  {
  }

  // ---- When a process lives ----

  /** The happening ends whatever process the slot has: a kill, a cleanup by any run, or another warm-up. */
  ghost predicate Displaces(s: State, h: Happening, slot: SlotId) {
    || h == KillProcess(slot)
    || (exists j: nat :: (Warms(s.world, h, j) || CleansUp(s.world, h, j)) && s.world.runs[j].lease.slot == slot)
  }

  ghost predicate DisplacedSince(generation: Generation, hs: seq<Happening>, p: nat, slot: SlotId) {
    exists k :: p < k < |hs| && Displaces(History(generation, hs[..k]), hs[k], slot)
  }

  lemma DisplacedGrows(generation: Generation, hs: seq<Happening>, p: nat, slot: SlotId)
    requires p + 1 < |hs|
    ensures var init, last := hs[..|hs| - 1], hs[|hs| - 1];
      DisplacedSince(generation, hs, p, slot) <==>
        DisplacedSince(generation, init, p, slot) || Displaces(History(generation, init), last, slot)
  {
    var init := hs[..|hs| - 1];
    assert forall k :: 0 <= k < |init| ==> init[..k] == hs[..k];
  }

  /** Runs stay, keep their leases, and do not warm up twice. */
  lemma RunsGoOn(w: World, event: Event, j: nat)
    requires j < |w.runs|
    ensures var t := Next(w, event);
      && j < |t.runs| && t.runs[j].lease == w.runs[j].lease
      && (t.runs[j].pc.Warming? ==> w.runs[j].pc.Warming? && !(event.RunStep? && event.run == j))
  {
  }

  lemma {:induction false} WarmedUpOnce(generation: Generation, hs: seq<Happening>, p: nat, j: nat)
    requires p < |hs| && Warms(History(generation, hs[..p]).world, hs[p], j)
    ensures var before, w := History(generation, hs[..p]).world, History(generation, hs).world;
      j < |w.runs| && w.runs[j].lease == before.runs[j].lease && !w.runs[j].pc.Warming?
  {
    var init, last := hs[..|hs| - 1], hs[|hs| - 1];
    if p == |init| {
      RunsGoOn(History(generation, init).world, last.event, j);
    } else {
      assert init[..p] == hs[..p];
      WarmedUpOnce(generation, init, p, j);
      if last.Protocol? {
        RunsGoOn(History(generation, init).world, last.event, j);
      }
    }
  }

  /** One more happening: the run's process lives on exactly when it is not displaced. */
  lemma ProcessGoesOn(s: State, h: Happening, j: nat, slot: SlotId)
    requires !Warms(s.world, h, j)
    ensures var t := Happen(s, h);
      (slot in t.processes && t.processes[slot] == j) <==>
        slot in s.processes && s.processes[slot] == j && !Displaces(s, h, slot)
  {
    var r := RunOf(h);
    assert forall i: nat :: Warms(s.world, h, i) || CleansUp(s.world, h, i) ==> i == r;
  }

  /** In every run of the protocol, the process that a warm-up brought up lives exactly until the first kill of its
    * slot, cleanup by a run of its slot, or warm-up by another one: there is no other end, and none spares it. */
  lemma {:induction false} ProcessLivesIff(generation: Generation, hs: seq<Happening>, p: nat, j: nat)
    requires p < |hs| && Warms(History(generation, hs[..p]).world, hs[p], j)
    ensures var slot := History(generation, hs[..p]).world.runs[j].lease.slot;
      var s := History(generation, hs);
      (slot in s.processes && s.processes[slot] == j) <==> !DisplacedSince(generation, hs, p, slot)
  {
    var slot := History(generation, hs[..p]).world.runs[j].lease.slot;
    var init, last := hs[..|hs| - 1], hs[|hs| - 1];
    if p == |init| {
    } else {
      assert init[..p] == hs[..p];
      ProcessLivesIff(generation, init, p, j);
      WarmedUpOnce(generation, init, p, j);
      ProcessGoesOn(History(generation, init), last, j, slot);
      DisplacedGrows(generation, hs, p, slot);
    }
  }

  /** So a cleanup of run `i` kills the process of another run exactly when that one warmed up on the same slot and
    * nothing has displaced its process since. */
  lemma CleanupHitsIff(generation: Generation, hs: seq<Happening>, h: Happening, i: nat, p: nat, j: nat)
    requires CleansUp(History(generation, hs).world, h, i)
    requires p < |hs| && Warms(History(generation, hs[..p]).world, hs[p], j) && i != j
    ensures var s, slot := History(generation, hs), History(generation, hs[..p]).world.runs[j].lease.slot;
      (slot in s.processes && s.processes[slot] == j && slot !in Happen(s, h).processes) <==>
        !DisplacedSince(generation, hs, p, slot) && s.world.runs[i].lease.slot == slot
  {
    ProcessLivesIff(generation, hs, p, j);
  }

  // ---- When a cleanup hurts the member in service ----

  lemma {:induction false} WorldIsExecuted(generation: Generation, hs: seq<Happening>) returns (events: seq<Event>)
    ensures History(generation, hs).world == Execute(generation, events)
  {
    if hs == [] {
      events := [];
    } else {
      events := WorldIsExecuted(generation, hs[..|hs| - 1]);
      if hs[|hs| - 1].Protocol? {
        var earlier := events;
        events := earlier + [hs[|hs| - 1].event];
        assert events[..|events| - 1] == earlier;
      }
    }
  }

  /** A slot's process was brought up by a run of that slot. */
  ghost predicate ProcessesFit(s: State) {
    forall slot :: slot in s.processes ==>
      s.processes[slot] < |s.world.runs| && s.world.runs[s.processes[slot]].lease.slot == slot
  }

  lemma {:induction false} HistoryFits(generation: Generation, hs: seq<Happening>)
    ensures ProcessesFit(History(generation, hs))
  {
    if hs == [] {
    } else {
      var s, h := History(generation, hs[..|hs| - 1]), hs[|hs| - 1];
      HistoryFits(generation, hs[..|hs| - 1]);
      if h.Protocol? {
        forall j | 0 <= j < |s.world.runs|
          ensures j < |Next(s.world, h.event).runs| && Next(s.world, h.event).runs[j].lease == s.world.runs[j].lease
        {
          RunsGoOn(s.world, h.event, j);
        }
      }
    }
  }

  /** The slot's process serves the member: the registry has the member as ready, or as attaching under the operation of
    * the very run that brought the process up. */
  predicate InService(s: State, slot: SlotId) {
    && slot in s.processes && s.processes[slot] < |s.world.runs|
    && (Observe(s.world.reg, slot) == Snapshot.Ready || OwnsAttach(s.world.reg, s.world.runs[s.processes[slot]].lease))
  }

  /** The cleanup of run `i` takes the process of another run away from a member that it serves. */
  ghost predicate TakesInService(s: State, h: Happening, i: nat) {
    && CleansUp(s.world, h, i)
    && var slot := s.world.runs[i].lease.slot;
       InService(s, slot) && s.processes[slot] != i && slot !in Happen(s, h).processes
  }

  /** What the registry shows at the cleanup of run `i`: its slot is that of run `j`, and the member is ready, or
    * attaching under the operation of run `j`. */
  ghost predicate Served(w: World, i: nat, j: nat)
    requires i < |w.runs| && j < |w.runs|
  {
    var slot := w.runs[i].lease.slot;
    && w.runs[j].lease.slot == slot
    && (Observe(w.reg, slot) == Snapshot.Ready || OwnsAttach(w.reg, w.runs[j].lease))
  }

  /** A guard the cleanup could check in the registry: while its run still owns its lease, or the slot is neither ready
    * nor attaching, it takes no process that serves the member. */
  lemma GuardedCleanupsSpare(generation: Generation, hs: seq<Happening>, h: Happening, i: nat)
    requires CleansUp(History(generation, hs).world, h, i) && |History(generation, hs).world.reg.channels| < U64
    requires var w := History(generation, hs).world;
      var snapshot := Observe(w.reg, w.runs[i].lease.slot);
      OwnsAttach(w.reg, w.runs[i].lease) || !(snapshot.Ready? || snapshot.Attaching?)
    ensures !TakesInService(History(generation, hs), h, i)
  {
    var s := History(generation, hs);
    var slot := s.world.runs[i].lease.slot;
    var events := WorldIsExecuted(generation, hs);
    HistoryFits(generation, hs);
    if InService(s, slot) && OwnsAttach(s.world.reg, s.world.runs[s.processes[slot]].lease)
       && OwnsAttach(s.world.reg, s.world.runs[i].lease) {
      OneOwnerPerSlot(generation, events, i, s.processes[slot]);
    }
  }

  /** Without the guard nothing spares it: the process of run `j` is taken from the member it serves exactly when it is
    * the slot's process, `j` is another run, and the registry shows the member as ready or as attaching for `j`; and
    * then the guard of run `i` fails. */
  lemma CleanupTakesInServiceIff(generation: Generation, hs: seq<Happening>, h: Happening, i: nat, j: nat)
    requires CleansUp(History(generation, hs).world, h, i) && |History(generation, hs).world.reg.channels| < U64
    requires j < |History(generation, hs).world.runs|
    requires var s := History(generation, hs);
      s.world.runs[i].lease.slot in s.processes && s.processes[s.world.runs[i].lease.slot] == j
    ensures var s := History(generation, hs);
      && (TakesInService(s, h, i) <==> j != i && Served(s.world, i, j))
      && (TakesInService(s, h, i) ==>
            && !OwnsAttach(s.world.reg, s.world.runs[i].lease)
            && Happen(s, h).world.reg == s.world.reg && s.world.runs[i].lease.slot !in Happen(s, h).processes)
  {
    HistoryFits(generation, hs);
    if OwnsAttach(History(generation, hs).world.reg, History(generation, hs).world.runs[i].lease) {
      GuardedCleanupsSpare(generation, hs, h, i);
    }
    var s := History(generation, hs);
    CleanupsLeaveTheRegistry(s.world, h, i);
  }

  lemma CleanupsLeaveTheRegistry(w: World, h: Happening, i: nat)
    requires CleansUp(w, h, i)
    ensures Next(w, h.event).reg == w.reg
  {
  }

  /** So whether a cleanup can hurt the member is a matter of the registry and the runs alone: for some run's process in
    * the slot it does, exactly when another run of the slot is served. */
  lemma CleanupCanHurtIff(generation: Generation, hs: seq<Happening>, h: Happening, i: nat)
    requires CleansUp(History(generation, hs).world, h, i)
    ensures var s := History(generation, hs);
      var slot := s.world.runs[i].lease.slot;
      (exists j: nat :: j < |s.world.runs| && s.world.runs[j].lease.slot == slot
                        && TakesInService(s.(processes := s.processes[slot := j]), h, i))
        <==> exists j: nat :: j < |s.world.runs| && j != i && Served(s.world, i, j)
  {
    var s := History(generation, hs);
    var slot := s.world.runs[i].lease.slot;
    if j: nat :| j < |s.world.runs| && j != i && Served(s.world, i, j) {
      var t := s.(processes := s.processes[slot := j]);
      assert TakesInService(t, h, i);
    }
    if j: nat :| j < |s.world.runs| && s.world.runs[j].lease.slot == slot
                 && TakesInService(s.(processes := s.processes[slot := j]), h, i) {
      assert Served(s.world, i, j);
    }
  }

  // ---- A ready member without a process ----

  lemma Append(hs: seq<Happening>, h: Happening) returns (longer: seq<Happening>, s: State)
    ensures longer == hs + [h]
    ensures s == History(7, longer) == Happen(History(7, hs), h)
  {
    longer := hs + [h];
    assert longer[..|longer| - 1] == hs;
    s := History(7, longer);
  }

  function Own(i: nat): Happening {
    Protocol(RunStep(i, Proceed))
  }

  /** The first attach is cancelled by a removal that cannot be persisted, and the slot is reserved again. */
  lemma CancelledAndRetried(first: AttachLease, second: AttachLease) returns (hs: seq<Happening>)
    requires first == AttachLease(7, 1, AttachWaiter(1, 0)) && second == AttachLease(7, 1, AttachWaiter(3, 2))
    ensures History(7, hs) == State(World(
      Registry(7, 4, map[1 := Entry.Attaching(3, 2)], false,
               [Terminal(Removed), Terminal(AttachOutcome.Failed(UNSAVED)), Pending]),
      NewLoops(), [Run(first, None, Warming), Run(second, None, Warming)]), map[])
  {
    var s: State;
    hs, s := Append([], Protocol(StartRun(ReserveAttachOp(1, false))));
    assert s.world.runs == [Run(first, None, Warming)];
    hs, s := Append(hs, Protocol(RegistryCall(BeginRemoveOp(1))));
    assert s.world.reg == Registry(7, 3, map[1 := Entry.Removing(2, 1)], false, [Terminal(Removed), Pending]);
    hs, s := Append(hs, Protocol(RegistryCall(RestoreOp(RemoveLease(7, 1, 2), UNSAVED))));
    assert s.world.reg == Registry(7, 3, map[1 := Entry.Failed(2, UNSAVED, 1)], false,
                                   [Terminal(Removed), Terminal(AttachOutcome.Failed(UNSAVED))]);
    hs, s := Append(hs, Protocol(StartRun(ReserveAttachOp(1, true))));
  }

  /** The processes after a step of run `i` that stands at `run`. */
  function ProcessesAfter(processes: map<SlotId, nat>, i: nat, run: Run): map<SlotId, nat> {
    if run.pc.Warming? then processes[run.lease.slot := i]
    else if IsCleanup(run.pc) then processes - {run.lease.slot}
    else processes
  }

  /** One step of run `i` in a state in which it stands at `run`. */
  lemma Steps(s: State, i: nat, run: Run, reg: Registry, loops: Loops, next: Run)
    requires i < |s.world.runs| && Move(s.world.reg, s.world.loops, run, Proceed) == (reg, loops, next)
    ensures Happen(s.(world := s.world.(runs := s.world.runs[i := run])), Own(i))
         == State(World(reg, loops, s.world.runs[i := next]), ProcessesAfter(s.processes, i, run))
  {
    StepsTo(s.world, i, run, reg, loops, next);
  }

  lemma AppendStep(hs: seq<Happening>, s: State, i: nat, run: Run, reg: Registry, loops: Loops, next: Run)
      returns (longer: seq<Happening>, t: State)
    requires i < |s.world.runs| && Move(s.world.reg, s.world.loops, run, Proceed) == (reg, loops, next)
    requires History(7, hs) == s.(world := s.world.(runs := s.world.runs[i := run]))
    ensures t == History(7, longer) ==
      State(World(reg, loops, s.world.runs[i := next]), ProcessesAfter(s.processes, i, run))
  {
    Steps(s, i, run, reg, loops, next);
    longer, t := Append(hs, Own(i));
  }

  /** From its ownership check, a run that owns its lease and finds no loop goes on to just short of its commit. */
  lemma GoesOnToCommit(hs: seq<Happening>, start: State, i: nat, run: Run) returns (longer: seq<Happening>)
    requires i < |start.world.runs| && run.pc == ReadStopped
    requires History(7, hs) == start.(world := start.world.(runs := start.world.runs[i := run]))
    requires !start.world.reg.stopped && AttachingWith(start.world.reg, run.lease.slot, run.lease.waiter.operationId)
    requires !start.world.loops.stopped && !Has(start.world.loops, run.lease.slot)
    ensures History(7, longer) == State(
      World(start.world.reg, SpawnLoop(start.world.loops, run.lease.slot).0,
            start.world.runs[i := run.(loop := Some(|start.world.loops.home|), pc := CommitReady)]), start.processes)
  {
    var w := start.world;
    var t: State;
    longer, t := AppendStep(hs, start, i, run, w.reg, w.loops, run.(pc := CheckOwner));
    longer, t := AppendStep(longer, start, i, run.(pc := CheckOwner), w.reg, w.loops, run.(pc := LookUpLoop));
    longer, t := AppendStep(longer, start, i, run.(pc := LookUpLoop), w.reg, w.loops, run.(pc := RegisterLoop));
    longer, t := AppendStep(longer, start, i, run.(pc := RegisterLoop), w.reg, SpawnLoop(w.loops, run.lease.slot).0,
                            run.(loop := Some(|w.loops.home|), pc := CommitReady));
  }

  /** The second run warms up. */
  lemma SecondWarmsUp(first: AttachLease, second: AttachLease) returns (hs: seq<Happening>)
    requires first == AttachLease(7, 1, AttachWaiter(1, 0)) && second == AttachLease(7, 1, AttachWaiter(3, 2))
    ensures History(7, hs) == State(World(
      Registry(7, 4, map[1 := Entry.Attaching(3, 2)], false,
               [Terminal(Removed), Terminal(AttachOutcome.Failed(UNSAVED)), Pending]),
      NewLoops(), [Run(first, None, Warming), Run(second, None, ReadStopped)]), map[1 := 1])
  {
    hs := CancelledAndRetried(first, second);
    var s: State;
    hs, s := Append(hs, Own(1));
  }

  /** It goes on as far as its commit. */
  lemma SecondReachesCommit(first: AttachLease, second: AttachLease) returns (hs: seq<Happening>)
    requires first == AttachLease(7, 1, AttachWaiter(1, 0)) && second == AttachLease(7, 1, AttachWaiter(3, 2))
    ensures History(7, hs) == State(World(
      Registry(7, 4, map[1 := Entry.Attaching(3, 2)], false,
               [Terminal(Removed), Terminal(AttachOutcome.Failed(UNSAVED)), Pending]),
      Loops(map[1 := 0], map[1 := 0], false, [1], {}),
      [Run(first, None, Warming), Run(second, Some(0), CommitReady)]), map[1 := 1])
  {
    hs := SecondWarmsUp(first, second);
    var s := History(7, hs);
    assert s.world.runs[1 := s.world.runs[1]] == s.world.runs;
    hs := GoesOnToCommit(hs, s, 1, s.world.runs[1]);
  }

  /** It commits and is published: the member is ready, with its process. */
  lemma SecondIsReady(first: AttachLease, second: AttachLease) returns (hs: seq<Happening>)
    requires first == AttachLease(7, 1, AttachWaiter(1, 0)) && second == AttachLease(7, 1, AttachWaiter(3, 2))
    ensures var s := History(7, hs);
      && s.world.reg.entries == map[1 := Entry.Ready] && !s.world.reg.stopped
      && s.world.runs == [Run(first, None, Warming), Run(second, Some(0), Attached)]
      && s.processes == map[1 := 1]
  {
    hs := SecondReachesCommit(first, second);
    var s: State;
    hs, s := Append(hs, Own(1));
    assert s.world.runs == [Run(first, None, Warming), Run(second, Some(0), PublishReady)];
    hs, s := Append(hs, Own(1));
  }

  /** The retried attach succeeds; then the cancelled one, whose process failed to start, cleans up. It kills the
    * process of the retried attach: the member is ready and without a process. */
  lemma ReadyMemberCanLoseItsProcess() returns (hs: seq<Happening>)
    ensures var s := History(7, hs);
      && Observe(s.world.reg, 1) == Snapshot.Ready
      && |s.world.runs| == 2 && s.world.runs[1].pc == Attached
      && 1 !in s.processes
  {
    var first := AttachLease(7, 1, AttachWaiter(1, 0));
    var second := AttachLease(7, 1, AttachWaiter(3, 2));
    hs := SecondIsReady(first, second);
    var s: State;
    hs, s := Append(hs, Protocol(RunStep(0, WarmupFailed(UNSAVED))));
    assert s.world.runs == [Run(first, None, FailureCleanup(UNSAVED)), Run(second, Some(0), Attached)];
    hs, s := Append(hs, Own(0));
  }
}
