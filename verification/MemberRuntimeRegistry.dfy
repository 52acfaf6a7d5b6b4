/** The member runtime registry itself: one object whose methods are the critical sections of its mutex. */
module MemberRuntimeRegistries {
  import opened MemberRuntime
  import opened MemberRuntimeRuns

  /** Midway through a drain: `rest` is still to be drained, and exactly the operations already drained are settled. */
  ghost predicate PartlyDrained(before: seq<AttachSignal>, all: map<SlotId, Entry>, rest: map<SlotId, Entry>,
                                now: seq<AttachSignal>) {
    && rest.Keys <= all.Keys && (forall slot :: slot in rest ==> rest[slot] == all[slot])
    && |now| == |before|
    && (forall c :: 0 <= c < |now| ==>
          now[c] == if HeldInFlight(all, c) && !HeldInFlight(rest, c) then Terminal(AttachOutcome.SessionStopped)
            else before[c])
  }

  /** Taking one entry out of a map gives up exactly the channel it held. */
  lemma HeldWithout(all: map<SlotId, Entry>, slot: SlotId, c: ChannelId)
    requires slot in all
    ensures HeldInFlight(all, c) <==> HeldInFlight(all - {slot}, c) || (all[slot].InFlight() && all[slot].channel == c)
  {
    var rest := all - {slot};
    if HeldInFlight(all, c) {
      var holder :| holder in all && all[holder].InFlight() && all[holder].channel == c;
      assert holder != slot ==> holder in rest && rest[holder] == all[holder];
    }
  }

  lemma DrainOne(before: seq<AttachSignal>, all: map<SlotId, Entry>, rest: map<SlotId, Entry>, now: seq<AttachSignal>,
                 slot: SlotId)
    requires PartlyDrained(before, all, rest, now) && slot in rest
    requires all[slot].InFlight() ==> all[slot].channel < |before|
    requires forall a, b :: a in all && b in all && a != b && !all[a].Ready? && !all[b].Ready? ==>
      all[a].channel != all[b].channel
    ensures PartlyDrained(before, all, rest - {slot},
      if rest[slot].InFlight() then now[rest[slot].channel := Terminal(AttachOutcome.SessionStopped)] else now)
  {
    forall c | 0 <= c < |now|
      ensures HeldInFlight(rest, c) <==>
        HeldInFlight(rest - {slot}, c) || (rest[slot].InFlight() && rest[slot].channel == c)
      ensures rest[slot].InFlight() && rest[slot].channel == c ==>
        HeldInFlight(all, c) && !HeldInFlight(rest - {slot}, c)
    {
      HeldWithout(rest, slot, c);
      assert all[slot] == rest[slot];
      if HeldInFlight(rest - {slot}, c) {
        var holder :| holder in rest - {slot} && (rest - {slot})[holder].InFlight() &&
          (rest - {slot})[holder].channel == c;
        assert all[holder] == rest[holder];
      }
    }
  }

  lemma Drained(before: seq<AttachSignal>, all: map<SlotId, Entry>, now: seq<AttachSignal>)
    requires PartlyDrained(before, all, map[], now)
    ensures now == SendAll(before, all, AttachOutcome.SessionStopped)
  {
    assert forall c :: 0 <= c < |now| ==> !HeldInFlight(map[], c);
  }

  class MemberRuntimeRegistry {
    const sessionGeneration: Generation
    var nextOperationId: nat
    var entries: map<SlotId, Entry>
    var stopped: bool
    /** The cells behind the watch channels; senders live in `entries`, receivers in waiters. */
    var channels: seq<AttachSignal>

    ghost function State(): Registry
      reads this
    {
      Registry(sessionGeneration, nextOperationId, entries, stopped, channels)
    }

    ghost predicate Valid()
      reads this
    {
      Inv(State())
    }

    constructor (generation: Generation)
      ensures Valid() && State() == New(generation)
    {
      sessionGeneration := generation;
      nextOperationId, entries, stopped, channels := 1, map[], false, [];
    }

    method SeedReady(slot: SlotId) returns (ok: bool)
      requires Valid()
      modifies this
      ensures Valid() && (State(), ok) == MemberRuntime.SeedReady(old(State()), slot)
    {
      StepKeepsInv(State(), SeedReadyOp(slot));
      if stopped {
        return false;
      }
      if slot in entries {
        return entries[slot].Ready?;
      }
      entries := entries[slot := Entry.Ready];
      return true;
    }

    /** Draws an operation id and a pending channel for a new attach on the slot. */
    method OpenAttach(slot: SlotId) returns (reservation: Reservation)
      requires Valid() && !stopped && (slot in entries ==> !entries[slot].InFlight())
      modifies this
      ensures Valid() && (State(), reservation) == MemberRuntime.OpenAttach(old(State()), slot)
    {
      ghost var before := State();
      var operationId, channel := nextOperationId, |channels|;
      nextOperationId := NextId(nextOperationId);
      channels := channels + [Pending];
      entries := entries[slot := Entry.Attaching(operationId, channel)];
      reservation := Reservation.Start(AttachLease(sessionGeneration, slot, AttachWaiter(operationId, channel)));
      OpenKeepsInv(before, slot, entries[slot], State());
    }

    method ReserveAttach(slot: SlotId, retryFailed: bool) returns (reservation: Reservation)
      requires Valid()
      modifies this
      ensures Valid() && (State(), reservation) == MemberRuntime.ReserveAttach(old(State()), slot, retryFailed)
    {
      if stopped {
        return Reservation.SessionStopped;
      }
      if slot in entries {
        match entries[slot] {
          case Attaching(id, c) => return Reservation.Join(AttachWaiter(id, c));
          case Ready => return AlreadyReady;
          case Failed(id, _, c) =>
            if !retryFailed {
              return Reservation.Join(AttachWaiter(id, c));
            }
          case Removing(id, c) => return Reservation.Removing(AttachWaiter(id, c));
        }
      }
      reservation := OpenAttach(slot);
    }

    method ReserveRepair(slot: SlotId) returns (reservation: Reservation)
      requires Valid()
      modifies this
      ensures Valid() && (State(), reservation) == MemberRuntime.ReserveRepair(old(State()), slot)
    {
      if stopped {
        return Reservation.SessionStopped;
      }
      if slot in entries {
        match entries[slot] {
          case Attaching(id, c) => return Reservation.Join(AttachWaiter(id, c));
          case Ready =>
          case Failed(id, _, c) => return Reservation.Join(AttachWaiter(id, c));
          case Removing(id, c) => return Reservation.Removing(AttachWaiter(id, c));
        }
      }
      reservation := OpenAttach(slot);
    }

    /** The flag is read before the lock is taken and not again under it. */
    method OwnsAttach(lease: AttachLease) returns (owned: bool)
      requires Valid()
      ensures owned <==> MemberRuntime.OwnsAttach(State(), lease)
    {
      if lease.generation != sessionGeneration || stopped {
        return false;
      }
      owned := lease.slot in entries
        && entries[lease.slot].Attaching?
        && entries[lease.slot].operationId == lease.waiter.operationId;
    }

    method CommitReady(lease: AttachLease) returns (ok: bool)
      requires Valid()
      modifies this
      ensures Valid() && (State(), ok) == MemberRuntime.CommitReady(old(State()), lease)
    {
      StepKeepsInv(State(), CommitReadyOp(lease));
      if lease.generation != sessionGeneration || stopped {
        return false;
      }
      if lease.slot !in entries || !entries[lease.slot].Attaching? {
        return false;
      }
      if entries[lease.slot].operationId != lease.waiter.operationId {
        return false;
      }
      var channel := entries[lease.slot].channel;
      entries := entries[lease.slot := Entry.Ready];
      channels := channels[channel := Terminal(AttachOutcome.Ready)];
      return true;
    }

    method CommitFailed(lease: AttachLease, failure: Failure) returns (ok: bool)
      requires Valid()
      modifies this
      ensures Valid() && (State(), ok) == MemberRuntime.CommitFailed(old(State()), lease, failure)
    {
      StepKeepsInv(State(), CommitFailedOp(lease, failure));
      if lease.generation != sessionGeneration || stopped {
        return false;
      }
      if lease.slot !in entries || !entries[lease.slot].Attaching? {
        return false;
      }
      if entries[lease.slot].operationId != lease.waiter.operationId {
        return false;
      }
      var channel := entries[lease.slot].channel;
      entries := entries[lease.slot := Entry.Failed(lease.waiter.operationId, failure, channel)];
      channels := channels[channel := Terminal(AttachOutcome.Failed(failure))];
      return true;
    }

    method BeginRemove(slot: SlotId) returns (removal: Removal)
      requires Valid()
      modifies this
      ensures Valid() && (State(), removal) == MemberRuntime.BeginRemove(old(State()), slot)
    {
      StepKeepsInv(State(), BeginRemoveOp(slot));
      if stopped {
        return Removal.SessionStopped;
      }
      if slot in entries && entries[slot].Removing? {
        return Removal.Join(AttachWaiter(entries[slot].operationId, entries[slot].channel));
      }
      if slot !in entries {
        return Removal.Absent;
      }
      var previous := entries[slot];
      var operationId, channel := nextOperationId, |channels|;
      nextOperationId := NextId(nextOperationId);
      channels := channels + [Pending];
      entries := entries[slot := Entry.Removing(operationId, channel)];
      if previous.Attaching? {
        channels := channels[previous.channel := Terminal(Removed)];
      }
      return Removal.Start(RemoveLease(sessionGeneration, slot, operationId));
    }

    method FinishRemove(lease: RemoveLease) returns (ok: bool)
      requires Valid()
      modifies this
      ensures Valid() && (State(), ok) == MemberRuntime.FinishRemove(old(State()), lease)
    {
      StepKeepsInv(State(), FinishRemoveOp(lease));
      if lease.generation != sessionGeneration || stopped {
        return false;
      }
      if lease.slot !in entries || !entries[lease.slot].Removing? {
        return false;
      }
      if entries[lease.slot].operationId != lease.operationId {
        return false;
      }
      var channel := entries[lease.slot].channel;
      entries := entries - {lease.slot};
      channels := channels[channel := Terminal(Removed)];
      return true;
    }

    method RestoreAttachRequiredAfterRemovePersistError(lease: RemoveLease, failure: Failure) returns (ok: bool)
      requires Valid()
      modifies this
      ensures Valid() && (State(), ok) == MemberRuntime.RestoreAttachRequired(old(State()), lease, failure)
    {
      StepKeepsInv(State(), RestoreOp(lease, failure));
      if lease.generation != sessionGeneration || stopped {
        return false;
      }
      if lease.slot !in entries || !entries[lease.slot].Removing? {
        return false;
      }
      if entries[lease.slot].operationId != lease.operationId {
        return false;
      }
      var channel := entries[lease.slot].channel;
      entries := entries[lease.slot := Entry.Failed(lease.operationId, failure, channel)];
      channels := channels[channel := Terminal(AttachOutcome.Failed(failure))];
      return true;
    }

    method Snapshot(slot: SlotId) returns (snapshot: MemberRuntime.Snapshot)
      requires Valid()
      ensures snapshot == Observe(State(), slot)
      ensures snapshot.Attaching? || snapshot.Failed? || snapshot.Removing? ==> |channels| < U64 ==>
        snapshot.operationId != 0
    {
      if stopped {
        return MemberRuntime.Snapshot.SessionStopped;
      }
      if slot !in entries {
        return MemberRuntime.Snapshot.Absent;
      }
      IdsAreFreshIff(|channels|);
      match entries[slot] {
        case Attaching(id, _) => snapshot := MemberRuntime.Snapshot.Attaching(id);
        case Ready => snapshot := MemberRuntime.Snapshot.Ready;
        case Failed(id, failure, _) => snapshot := MemberRuntime.Snapshot.Failed(id, failure);
        case Removing(id, _) => snapshot := MemberRuntime.Snapshot.Removing(id);
      }
    }

    /** Empties the map entry by entry, in any order, settling every operation in flight. */
    method DrainEntries()
      requires Valid()
      modifies this`entries, this`channels
      ensures entries == map[]
      ensures channels == SendAll(old(channels), old(entries), AttachOutcome.SessionStopped)
    {
      ghost var all, before := entries, channels;
      while entries.Keys != {}
        invariant PartlyDrained(before, all, entries, channels)
        decreases |entries.Keys|
      {
        var slot :| slot in entries.Keys;
        var entry := entries[slot];
        DrainOne(before, all, entries, channels, slot);
        entries := entries - {slot};
        if entry.InFlight() {
          channels := channels[entry.channel := Terminal(AttachOutcome.SessionStopped)];
        }
      }
      assert entries == map[];
      Drained(before, all, channels);
    }

    method Stop() returns (first: bool)
      requires Valid()
      modifies this
      ensures Valid() && (State(), first) == MemberRuntime.Stop(old(State()))
    {
      StepKeepsInv(State(), StopOp);
      if stopped {
        return false;
      }
      DrainEntries();
      stopped := true;
      return true;
    }
  }
}

/** `owns_attach` reads the stopped flag before it takes the lock. This system splits `stop` at the point
  * where its flag is raised but its map is not drained yet, so that the unlocked read can fall anywhere.
  */
module OwnsAttachRace {
  import opened MemberRuntime
  import opened MemberRuntimeRuns

  /** `draining`: a `stop` holds the lock, has raised the flag and has not drained the map. */
  datatype Micro = Micro(reg: Registry, draining: bool)

  datatype MicroOp = Call(op: Op) | RaiseStopFlag | Drain

  ghost predicate Enabled(m: Micro, step: MicroOp) {
    match step
    case Call(op) => !m.draining && (op.StopOp? ==> m.reg.stopped)
    case RaiseStopFlag => !m.draining && !m.reg.stopped
    case Drain => m.draining
  }

  ghost function MicroStep(m: Micro, step: MicroOp): Micro {
    if !Enabled(m, step) then m
    else match step
      case Call(op) => m.(reg := Step(m.reg, op).0)
      case RaiseStopFlag => Micro(m.reg.(stopped := true), true)
      case Drain =>
        Micro(m.reg.(entries := map[], channels :=
          SendAll(m.reg.channels, m.reg.entries, AttachOutcome.SessionStopped)), false)
  }

  ghost function MicroAfter(generation: Generation, steps: seq<MicroOp>): Micro {
    if steps == [] then Micro(New(generation), false)
    else MicroStep(MicroAfter(generation, steps[..|steps| - 1]), steps[|steps| - 1])
  }

  /** Whenever the lock is free, the registry is one that whole calls reach. */
  lemma {:induction false} MicroRunIsARun(generation: Generation, steps: seq<MicroOp>) returns (ops: seq<Op>)
    ensures var m := MicroAfter(generation, steps);
      var s := After(New(generation), ops);
      if m.draining then !s.stopped && m.reg == s.(stopped := true) else m.reg == s
  {
    if steps == [] {
      ops := [];
    } else {
      var earlier, step := MicroAfter(generation, steps[..|steps| - 1]), steps[|steps| - 1];
      ops := MicroRunIsARun(generation, steps[..|steps| - 1]);
      if Enabled(earlier, step) {
        var op := if step.Call? then step.op else StopOp;
        assert (ops + [op])[..|ops|] == ops;
        if !step.RaiseStopFlag? {
          ops := ops + [op];
        }
      }
    }
  }

  lemma {:induction false} FlagStaysRaised(generation: Generation, steps: seq<MicroOp>, i: nat)
    requires i <= |steps| && MicroAfter(generation, steps[..i]).reg.stopped
    ensures MicroAfter(generation, steps).reg.stopped
  {
    if i == |steps| {
      assert steps[..i] == steps;
    } else {
      var earlier := steps[..|steps| - 1];
      assert earlier[..i] == steps[..i];
      FlagStaysRaised(generation, earlier, i);
    }
  }

  /** What `owns_attach` answers when it reads the flag after `i` steps and takes the lock after all of them. */
  ghost function Answer(generation: Generation, steps: seq<MicroOp>, i: nat, lease: AttachLease): bool
    requires i <= |steps|
  {
    if lease.generation != generation || MicroAfter(generation, steps[..i]).reg.stopped then false
    else AttachingWith(MicroAfter(generation, steps).reg, lease.slot, lease.waiter.operationId)
  }

  /** The racy read is linearizable: the answer is the one an atomic check gives at the lock point, and an
    * early `false` is already right at the moment the flag was read. */
  lemma OwnsAttachIsLinearizable(generation: Generation, steps: seq<MicroOp>, i: nat, lease: AttachLease)
    requires i <= |steps| && !MicroAfter(generation, steps).draining
    ensures Answer(generation, steps, i, lease) <==> OwnsAttach(MicroAfter(generation, steps).reg, lease)
    ensures MicroAfter(generation, steps[..i]).reg.stopped ==>
      !OwnsAttach(MicroAfter(generation, steps[..i]).reg, lease)
  {
    var ops := MicroRunIsARun(generation, steps);
    RunKeepsInv(generation, ops);
    RunEvolves(generation, ops, 0);
    assert ops[..0] == [];
    if MicroAfter(generation, steps[..i]).reg.stopped {
      FlagStaysRaised(generation, steps, i);
    }
  }
}
