/** What every run of the member runtime registry keeps: channel accounting, write-once outcomes and
  * lease fencing, for arbitrary sequences of calls with arbitrary (stale, foreign or current) leases.
  */
module MemberRuntimeRuns {
  import opened MemberRuntime

  // ---- The invariant ----

  /** The operation id that was drawn together with channel `c`. */
  function IdOf(c: ChannelId): nat {
    (c + 1) % U64
  }

  /** Every in-flight entry's channel is pending, and every failed entry's channel recorded that failure. */
  ghost predicate EntriesMatchChannels(s: Registry) {
    forall slot {:trigger s.entries[slot]} :: slot in s.entries ==>
      var e := s.entries[slot];
      && (e.InFlight() ==> e.channel < |s.channels| && s.channels[e.channel].Pending?)
      && (e.Failed? ==> e.channel < |s.channels| && s.channels[e.channel] == Terminal(AttachOutcome.Failed(e.failure)))
      && (!e.Ready? ==> e.operationId == IdOf(e.channel))
  }

  /** Two entries never share a channel. */
  ghost predicate UnsharedChannels(s: Registry) {
    forall a, b {:trigger s.entries[a], s.entries[b]} ::
      a in s.entries && b in s.entries && a != b && !s.entries[a].Ready? && !s.entries[b].Ready? ==>
        s.entries[a].channel != s.entries[b].channel
  }

  /** No channel is orphaned: a pending channel is held by an in-flight entry. */
  ghost predicate NoOrphans(s: Registry) {
    forall c :: 0 <= c < |s.channels| && s.channels[c].Pending? ==> HeldInFlight(s.entries, c)
  }

  ghost predicate Inv(s: Registry) {
    && s.nextOperationId == IdOf(|s.channels|)
    && (s.stopped ==> s.entries == map[])
    && EntriesMatchChannels(s)
    && UnsharedChannels(s)
    && NoOrphans(s)
  }

  // ---- How a registry may evolve ----

  /** What never changes from a state to a later one: the past outcomes and who holds what is still pending. */
  ghost predicate Evolves(s: Registry, t: Registry) {
    && s.generation == t.generation
    && (s.stopped ==> t.stopped)
    && |s.channels| <= |t.channels|
    && (forall c {:trigger s.channels[c]} :: 0 <= c < |s.channels| && s.channels[c].Terminal? ==>
          t.channels[c] == s.channels[c])
    && (forall slot {:trigger t.entries[slot]} ::
          slot in t.entries && t.entries[slot].InFlight() && t.entries[slot].channel < |s.channels| ==>
            slot in s.entries && s.entries[slot] == t.entries[slot])
  }

  lemma EvolvesTransitive(s: Registry, t: Registry, u: Registry)
    requires Evolves(s, t) && Evolves(t, u)
    ensures Evolves(s, u)
  {
  }

  lemma InvInit(generation: Generation)
    ensures Inv(New(generation))
  {
  }

  /** Settling one held channel while replacing its slot's entry by one that is not in flight. */
  lemma SettleKeepsInv(s: Registry, slot: SlotId, t: Registry, outcome: AttachOutcome)
    requires Inv(s) && slot in s.entries && s.entries[slot].InFlight()
    requires var c := s.entries[slot].channel;
      && t.channels == Send(s.channels, c, outcome)
      && t.generation == s.generation && t.stopped == s.stopped && t.nextOperationId == s.nextOperationId
      && (|| t.entries == s.entries - {slot}
          || t.entries == s.entries[slot := Entry.Ready]
          || (exists f :: outcome == AttachOutcome.Failed(f)
                && t.entries == s.entries[slot := Entry.Failed(s.entries[slot].operationId, f, c)]))
    ensures Inv(t) && Evolves(s, t)
  {
    forall c | 0 <= c < |t.channels| && t.channels[c].Pending?
      ensures HeldInFlight(t.entries, c)
    {
      assert HeldInFlight(s.entries, c);
      var holder :| holder in s.entries && s.entries[holder].InFlight() && s.entries[holder].channel == c;
      assert holder in t.entries && t.entries[holder] == s.entries[holder];
    }
  }

  /** What opening a fresh channel for a slot does; the operation it cancels, if any, is settled with `Removed`. */
  ghost predicate Opens(s: Registry, slot: SlotId, e: Entry, t: Registry) {
    && e.InFlight() && e.channel == |s.channels| && e.operationId == s.nextOperationId
    && t.entries == s.entries[slot := e] && t.nextOperationId == NextId(s.nextOperationId)
    && t.generation == s.generation && t.stopped == s.stopped
    && t.channels == if slot in s.entries && s.entries[slot].InFlight()
                     then Send(s.channels + [Pending], s.entries[slot].channel, Removed)
                     else s.channels + [Pending]
  }

  lemma OpenLeavesNoOrphans(s: Registry, slot: SlotId, e: Entry, t: Registry)
    requires Inv(s) && Opens(s, slot, e, t)
    ensures NoOrphans(t)
  {
    forall c | 0 <= c < |t.channels| && t.channels[c].Pending?
      ensures HeldInFlight(t.entries, c)
    {
      if c == |s.channels| {
        assert t.entries[slot] == e;
      } else {
        assert HeldInFlight(s.entries, c);
        var holder :| holder in s.entries && s.entries[holder].InFlight() && s.entries[holder].channel == c;
        assert holder in t.entries && t.entries[holder] == s.entries[holder];
      }
    }
  }

  /** Nobody else's channel changes, and the slot's own entry has the fresh one. */
  lemma OpenMatchesChannels(s: Registry, slot: SlotId, e: Entry, t: Registry)
    requires Inv(s) && Opens(s, slot, e, t)
    ensures EntriesMatchChannels(t)
  {
    forall a | a in t.entries && a != slot
      ensures t.entries[a] == s.entries[a]
      ensures !s.entries[a].Ready? ==>
        s.entries[a].channel < |s.channels| && t.channels[s.entries[a].channel] == s.channels[s.entries[a].channel]
    {
      assert slot in s.entries && s.entries[slot].InFlight() && !s.entries[a].Ready? ==>
        s.entries[a].channel != s.entries[slot].channel;
    }
  }

  lemma OpenSharesNoChannel(s: Registry, slot: SlotId, e: Entry, t: Registry)
    requires Inv(s) && Opens(s, slot, e, t)
    ensures UnsharedChannels(t)
  {
    forall a | a in s.entries && !s.entries[a].Ready?
      ensures s.entries[a].channel < |s.channels|
    {
    }
  }

  lemma OpenEvolves(s: Registry, slot: SlotId, e: Entry, t: Registry)
    requires Inv(s) && Opens(s, slot, e, t)
    ensures Evolves(s, t)
  {
    if slot in s.entries && s.entries[slot].InFlight() {
      assert s.channels[s.entries[slot].channel].Pending?;
    }
  }

  lemma OpenKeepsInv(s: Registry, slot: SlotId, e: Entry, t: Registry)
    requires Inv(s) && !s.stopped && Opens(s, slot, e, t)
    ensures Inv(t) && Evolves(s, t)
  {
    OpenMatchesChannels(s, slot, e, t);
    OpenSharesNoChannel(s, slot, e, t);
    OpenLeavesNoOrphans(s, slot, e, t);
    OpenEvolves(s, slot, e, t);
    NextIdIsNext(|s.channels|);
  }

  lemma NextIdIsNext(n: nat)
    ensures NextId(IdOf(n)) == IdOf(n + 1)
  {
  }

  lemma StopKeepsInv(s: Registry)
    requires Inv(s)
    ensures Inv(Stop(s).0) && Evolves(s, Stop(s).0)
  {
    if !s.stopped {
      forall c | 0 <= c < |s.channels| && s.channels[c].Terminal?
        ensures !HeldInFlight(s.entries, c)
      {
      }
    }
  }

  lemma StepKeepsInv(s: Registry, op: Op)
    requires Inv(s)
    ensures Inv(Step(s, op).0) && Evolves(s, Step(s, op).0)
  {
    var t := Step(s, op).0;
    match op
    case SeedReadyOp(slot) =>
      forall c | 0 <= c < |t.channels| && t.channels[c].Pending?
        ensures HeldInFlight(t.entries, c)
      {
        assert HeldInFlight(s.entries, c);
        var holder :| holder in s.entries && s.entries[holder].InFlight() && s.entries[holder].channel == c;
        assert holder in t.entries && t.entries[holder] == s.entries[holder];
      }
    case ReserveAttachOp(slot, _) =>
      if t != s {
        OpenKeepsInv(s, slot, t.entries[slot], t);
      }
    case ReserveRepairOp(slot) =>
      if t != s {
        OpenKeepsInv(s, slot, t.entries[slot], t);
      }
    case BeginRemoveOp(slot) =>
      if t != s {
        OpenKeepsInv(s, slot, t.entries[slot], t);
      }
    case CommitReadyOp(lease) =>
      if t != s {
        SettleKeepsInv(s, lease.slot, t, AttachOutcome.Ready);
      }
    case CommitFailedOp(lease, f) =>
      if t != s {
        SettleKeepsInv(s, lease.slot, t, AttachOutcome.Failed(f));
      }
    case FinishRemoveOp(lease) =>
      if t != s {
        SettleKeepsInv(s, lease.slot, t, Removed);
      }
    case RestoreOp(lease, f) =>
      if t != s {
        SettleKeepsInv(s, lease.slot, t, AttachOutcome.Failed(f));
      }
    case StopOp =>
      StopKeepsInv(s);
  }

  // ---- Every run ----

  /** Channel accounting in every reachable state. */
  lemma {:induction false} RunKeepsInv(generation: Generation, ops: seq<Op>)
    ensures Inv(After(New(generation), ops))
  {
    if ops == [] {
      InvInit(generation);
    } else {
      RunKeepsInv(generation, ops[..|ops| - 1]);
      StepKeepsInv(After(New(generation), ops[..|ops| - 1]), ops[|ops| - 1]);
    }
  }

  lemma {:induction false} RunEvolves(generation: Generation, ops: seq<Op>, i: nat)
    requires i <= |ops|
    ensures Evolves(After(New(generation), ops[..i]), After(New(generation), ops))
  {
    if i == |ops| {
      assert ops[..i] == ops;
    } else {
      var earlier := ops[..|ops| - 1];
      RunEvolves(generation, earlier, i);
      assert earlier[..i] == ops[..i];
      RunKeepsInv(generation, earlier);
      StepKeepsInv(After(New(generation), earlier), ops[|ops| - 1]);
      EvolvesTransitive(After(New(generation), ops[..i]), After(New(generation), earlier), After(New(generation), ops));
    }
  }

  /** Each channel is either settled or held by exactly one in-flight entry, and never both. */
  lemma ChannelAccounting(generation: Generation, ops: seq<Op>, c: ChannelId)
    requires c < |After(New(generation), ops).channels|
    ensures var s := After(New(generation), ops);
      && (s.channels[c].Pending? <==> HeldInFlight(s.entries, c))
      && (forall a, b | a in s.entries && b in s.entries && s.entries[a].InFlight() && s.entries[b].InFlight() ::
            s.entries[a].channel == c && s.entries[b].channel == c ==> a == b)
  {
    RunKeepsInv(generation, ops);
  }

  // ---- Waiting ----

  /** A live sender of the channel: an entry of the map that carries one. */
  ghost predicate SenderAlive(s: Registry, c: ChannelId) {
    exists slot :: slot in s.entries && !s.entries[slot].Ready? && s.entries[slot].channel == c
  }

  datatype Poll = Blocked | Returned(outcome: AttachOutcome)

  /** One turn of `wait`: a settled outcome is returned; a pending channel blocks while its sender lives,
    * and falls back to `SessionStopped` once every sender is gone. */
  ghost function PollWaiter(s: Registry, w: AttachWaiter): Poll {
    if w.channel < |s.channels| && s.channels[w.channel].Terminal? then Returned(s.channels[w.channel].outcome)
    else if SenderAlive(s, w.channel) then Blocked
    else Returned(AttachOutcome.SessionStopped)
  }

  /** Every waiter a call hands out names a channel of the table and the id drawn with it. */
  lemma WaiterIssued(generation: Generation, ops: seq<Op>, op: Op)
    requires Step(After(New(generation), ops), op).1.HasWaiter()
    ensures var s := After(New(generation), ops);
      var w := Step(s, op).1.Waiter();
      w.channel < |Step(s, op).0.channels| && w.operationId == IdOf(w.channel)
  {
    RunKeepsInv(generation, ops);
  }

  /** While the registry lives, a waiter returns only the outcome recorded on its channel. */
  lemma FallbackNeverFires(generation: Generation, ops: seq<Op>, w: AttachWaiter)
    requires w.channel < |After(New(generation), ops).channels|
    ensures var s := After(New(generation), ops);
      PollWaiter(s, w) == match s.channels[w.channel] { case Pending => Blocked case Terminal(o) => Returned(o) }
  {
    RunKeepsInv(generation, ops);
    var s := After(New(generation), ops);
    if s.channels[w.channel].Pending? {
      assert HeldInFlight(s.entries, w.channel);
    }
  }

  /** Outcomes are write-once: what a waiter returned at one point of a run it returns at every later point. */
  lemma OutcomesAreWriteOnce(generation: Generation, ops: seq<Op>, i: nat, w: AttachWaiter)
    requires i <= |ops| && w.channel < |After(New(generation), ops[..i]).channels|
    requires PollWaiter(After(New(generation), ops[..i]), w).Returned?
    ensures PollWaiter(After(New(generation), ops), w) == PollWaiter(After(New(generation), ops[..i]), w)
  {
    RunEvolves(generation, ops, i);
    FallbackNeverFires(generation, ops[..i], w);
  }

  // ---- Operation ids ----

  /** Ids drawn by the first `n` operations are never 0 and never repeated exactly while `n` fits in 64 bits. */
  lemma IdsAreFreshIff(n: nat)
    ensures (forall c :: 0 <= c < n ==> IdOf(c) != 0)
        && (forall c, d :: 0 <= c < d < n ==> IdOf(c) < IdOf(d))
        <==> n < U64
  {
    if n < U64 {
      forall c | 0 <= c < n
        ensures IdOf(c) == c + 1
      {
      }
    } else {
      assert IdOf(U64 - 1) == 0;
    }
  }

  /** The reply starts an operation: it carries a lease with a freshly drawn id. */
  predicate Draws(r: Reply) {
    (r.Reserved? && r.reservation.Start?) || (r.RemovalReply? && r.removal.Start?)
  }

  function DrawnId(r: Reply): nat
    requires Draws(r)
  {
    if r.Reserved? then r.reservation.lease.waiter.operationId else r.removal.lease.operationId
  }

  /** An id is drawn together with the next channel of the table. */
  lemma DrawTakesNextChannel(s: Registry, op: Op)
    requires Inv(s) && Draws(Step(s, op).1)
    ensures DrawnId(Step(s, op).1) == IdOf(|s.channels|) && |Step(s, op).0.channels| == |s.channels| + 1
  {
  }

  /** The draw at index `i` of a run takes a channel that the run still has at its end, and none that it had before. */
  lemma DrawOfRun(generation: Generation, ops: seq<Op>, i: nat)
    requires i < |ops| && Draws(Step(After(New(generation), ops[..i]), ops[i]).1)
    ensures var s := After(New(generation), ops[..i]);
      && DrawnId(Step(s, ops[i]).1) == IdOf(|s.channels|)
      && |After(New(generation), ops[..i + 1]).channels| == |s.channels| + 1
      && |s.channels| < |After(New(generation), ops).channels|
  {
    RunKeepsInv(generation, ops[..i]);
    DrawTakesNextChannel(After(New(generation), ops[..i]), ops[i]);
    assert ops[..i + 1][..i] == ops[..i];
    RunEvolves(generation, ops, i + 1);
  }

  /** Below the wrap-around, the ids that the calls of a run draw, for attaches and removals alike, are positive and
    * strictly increase; so none is reused, and none is the 0 that stands for an absent slot. */
  lemma DrawnIdsIncrease(generation: Generation, ops: seq<Op>, i: nat, j: nat)
    requires i < j < |ops| && |After(New(generation), ops).channels| < U64
    requires Draws(Step(After(New(generation), ops[..i]), ops[i]).1)
    requires Draws(Step(After(New(generation), ops[..j]), ops[j]).1)
    ensures 0 < DrawnId(Step(After(New(generation), ops[..i]), ops[i]).1)
              < DrawnId(Step(After(New(generation), ops[..j]), ops[j]).1)
  {
    DrawOfRun(generation, ops, i);
    DrawOfRun(generation, ops, j);
    assert ops[..j][..i + 1] == ops[..i + 1];
    RunEvolves(generation, ops[..j], i + 1);
    IdsAreFreshIff(|After(New(generation), ops).channels|);
  }

  /** The waiter that a call of the run handed out. */
  lemma WaiterOfRun(generation: Generation, ops: seq<Op>, i: nat)
    requires i < |ops| && Step(After(New(generation), ops[..i]), ops[i]).1.HasWaiter()
    ensures var w := Step(After(New(generation), ops[..i]), ops[i]).1.Waiter();
      w.channel < |After(New(generation), ops).channels| && w.operationId == IdOf(w.channel)
  {
    WaiterIssued(generation, ops[..i], ops[i]);
    assert ops[..i + 1][..i] == ops[..i];
    RunEvolves(generation, ops, i + 1);
  }

  lemma SameIdSameChannel(n: nat, c: ChannelId, d: ChannelId)
    requires c < n && d < n && n < U64 && IdOf(c) == IdOf(d)
    ensures c == d
  {
    IdsAreFreshIff(n);
  }

  /** Two waiters with the same operation id, obtained anywhere in a run, share one channel. */
  lemma WaitersAgree(generation: Generation, ops: seq<Op>, i: nat, j: nat)
    requires i < |ops| && j < |ops| && |After(New(generation), ops).channels| < U64
    requires Step(After(New(generation), ops[..i]), ops[i]).1.HasWaiter()
    requires Step(After(New(generation), ops[..j]), ops[j]).1.HasWaiter()
    ensures var v := Step(After(New(generation), ops[..i]), ops[i]).1.Waiter();
      var w := Step(After(New(generation), ops[..j]), ops[j]).1.Waiter();
      v.operationId == w.operationId ==>
        v.channel == w.channel &&
          PollWaiter(After(New(generation), ops), v) == PollWaiter(After(New(generation), ops), w)
  {
    WaiterOfRun(generation, ops, i);
    WaiterOfRun(generation, ops, j);
    var v := Step(After(New(generation), ops[..i]), ops[i]).1.Waiter();
    var w := Step(After(New(generation), ops[..j]), ops[j]).1.Waiter();
    if v.operationId == w.operationId {
      SameIdSameChannel(|After(New(generation), ops).channels|, v.channel, w.channel);
    }
  }

  // ---- Lease fencing ----

  /** The call settles an operation, and reports that it did. */
  ghost predicate Settles(s: Registry, op: Op) {
    (op.CommitReadyOp? || op.CommitFailedOp? || op.FinishRemoveOp? || op.RestoreOp?) && Step(s, op).1.ok
  }

  function OperationOf(op: Op): nat
    requires op.CommitReadyOp? || op.CommitFailedOp? || op.FinishRemoveOp? || op.RestoreOp?
  {
    match op
    case CommitReadyOp(lease) => lease.waiter.operationId
    case CommitFailedOp(lease, _) => lease.waiter.operationId
    case FinishRemoveOp(lease) => lease.operationId
    case RestoreOp(lease, _) => lease.operationId
  }

  /** A settling call turns the one channel drawn with its operation id from pending to settled. */
  lemma SettlingUsesItsChannel(s: Registry, op: Op) returns (c: ChannelId)
    requires Inv(s) && Settles(s, op)
    ensures c < |s.channels| && IdOf(c) == OperationOf(op)
    ensures s.channels[c].Pending? && Step(s, op).0.channels[c].Terminal?
  {
    var slot := match op
      case CommitReadyOp(lease) => lease.slot
      case CommitFailedOp(lease, _) => lease.slot
      case FinishRemoveOp(lease) => lease.slot
      case RestoreOp(lease, _) => lease.slot;
    c := s.entries[slot].channel;
  }

  /** A settling call of a run settles a channel that is pending before it and stays settled to the end of the run. */
  lemma SettlesOnce(generation: Generation, ops: seq<Op>, i: nat) returns (c: ChannelId)
    requires i < |ops| && Settles(After(New(generation), ops[..i]), ops[i])
    ensures var s, t := After(New(generation), ops[..i]), After(New(generation), ops);
      && c < |s.channels| <= |t.channels| && IdOf(c) == OperationOf(ops[i])
      && s.channels[c].Pending? && t.channels[c].Terminal?
  {
    var s := After(New(generation), ops[..i]);
    RunKeepsInv(generation, ops[..i]);
    c := SettlingUsesItsChannel(s, ops[i]);
    StepKeepsInv(s, ops[i]);
    assert ops[..i + 1][..i] == ops[..i];
    RunEvolves(generation, ops, i + 1);
  }

  /** Per operation at most one commit, finish or restore call ever succeeds, whatever lease it is made with. */
  lemma AtMostOneSettles(generation: Generation, ops: seq<Op>, i: nat, j: nat)
    requires i < j < |ops| && |After(New(generation), ops).channels| < U64
    requires Settles(After(New(generation), ops[..i]), ops[i])
    requires Settles(After(New(generation), ops[..j]), ops[j])
    ensures OperationOf(ops[i]) != OperationOf(ops[j])
  {
    assert ops[..j][..i] == ops[..i];
    var c := SettlesOnce(generation, ops[..j], i);
    var d := SettlesOnce(generation, ops, j);
    if OperationOf(ops[i]) == OperationOf(ops[j]) {
      SameIdSameChannel(|After(New(generation), ops).channels|, c, d);
    }
  }

  /** The lease carries a channel of the table and the id that was drawn with it, as every issued lease does. */
  ghost predicate WasIssued(s: Registry, lease: AttachLease) {
    lease.waiter.channel < |s.channels| && lease.waiter.operationId == IdOf(lease.waiter.channel)
  }

  /** An attach lease handed out by a call is current right after the call. */
  lemma StartHandsOutCurrentLease(generation: Generation, ops: seq<Op>, op: Op)
    requires var r := Step(After(New(generation), ops), op).1; r.Reserved? && r.reservation.Start?
    ensures var s := After(New(generation), ops);
      var lease := Step(s, op).1.reservation.lease;
      var t := Step(s, op).0;
      WasIssued(t, lease) && OwnsAttach(t, lease) && t.channels[lease.waiter.channel].Pending?
  {
    RunKeepsInv(generation, ops);
  }

  /** A commit succeeds exactly while its lease is the current one. */
  lemma CommitSucceedsIffCurrent(s: Registry, lease: AttachLease, f: Failure)
    ensures Step(s, CommitReadyOp(lease)).1.ok <==> OwnsAttach(s, lease)
    ensures Step(s, CommitFailedOp(lease, f)).1.ok <==> OwnsAttach(s, lease)
    ensures lease.generation != s.generation ==> !OwnsAttach(s, lease)
  {
  }

  /** The call hands out a new attach lease on this slot. */
  predicate StartsAttach(r: Reply, slot: SlotId) {
    r.Reserved? && r.reservation.Start? && r.reservation.lease.slot == slot
  }

  /** Removal, a new attach on the slot by whatever call, or a stop supersedes every earlier lease on that slot. */
  lemma Superseded(generation: Generation, ops: seq<Op>, op: Op, lease: AttachLease)
    requires WasIssued(After(New(generation), ops), lease)
    requires |After(New(generation), ops).channels| + 1 < U64
    requires op == StopOp || op == BeginRemoveOp(lease.slot)
          || StartsAttach(Step(After(New(generation), ops), op).1, lease.slot)
    ensures !OwnsAttach(Step(After(New(generation), ops), op).0, lease)
  {
    var s := After(New(generation), ops);
    RunKeepsInv(generation, ops);
    if StartsAttach(Step(s, op).1, lease.slot) {
      assert Step(s, op).0.entries[lease.slot] == Entry.Attaching(IdOf(|s.channels|), |s.channels|);
      if OwnsAttach(Step(s, op).0, lease) {
        SameIdSameChannel(|s.channels| + 1, lease.waiter.channel, |s.channels|);
      }
    }
  }

  /** A lease that has stopped being current never becomes current again ... */
  lemma FencedToTheEnd(generation: Generation, ops: seq<Op>, i: nat, lease: AttachLease)
    requires i <= |ops| && |After(New(generation), ops).channels| < U64
    requires WasIssued(After(New(generation), ops[..i]), lease)
    requires !OwnsAttach(After(New(generation), ops[..i]), lease)
    ensures !OwnsAttach(After(New(generation), ops), lease)
  {
    var s, t := After(New(generation), ops[..i]), After(New(generation), ops);
    RunKeepsInv(generation, ops);
    RunEvolves(generation, ops, i);
    IdsAreFreshIff(|t.channels|);
  }

  predicate CommitsWith(op: Op, lease: AttachLease) {
    (op.CommitReadyOp? || op.CommitFailedOp?) && op.lease == lease
  }

  /** ... so none of the later commits of the run with that lease succeeds, whatever is called in between. */
  lemma FencedForever(generation: Generation, ops: seq<Op>, i: nat, lease: AttachLease, j: nat)
    requires i <= j < |ops| && |After(New(generation), ops).channels| < U64
    requires WasIssued(After(New(generation), ops[..i]), lease)
    requires !OwnsAttach(After(New(generation), ops[..i]), lease)
    requires CommitsWith(ops[j], lease)
    ensures !Settles(After(New(generation), ops[..j]), ops[j])
  {
    assert ops[..j][..i] == ops[..i];
    RunEvolves(generation, ops, j);
    FencedToTheEnd(generation, ops[..j], i, lease);
    CommitSucceedsIffCurrent(After(New(generation), ops[..j]), lease, Failure("", ""));
  }

  /** The removal lease carries an id that was drawn with a channel of the table, as every issued one does. */
  ghost predicate RemovalWasIssued(s: Registry, lease: RemoveLease) {
    exists c :: 0 <= c < |s.channels| && lease.operationId == IdOf(c)
  }

  lemma RemovalFencedToTheEnd(generation: Generation, ops: seq<Op>, i: nat, lease: RemoveLease)
    requires i <= |ops| && |After(New(generation), ops).channels| < U64
    requires RemovalWasIssued(After(New(generation), ops[..i]), lease)
    requires !OwnsRemoval(After(New(generation), ops[..i]), lease)
    ensures !OwnsRemoval(After(New(generation), ops), lease)
  {
    var s, t := After(New(generation), ops[..i]), After(New(generation), ops);
    RunKeepsInv(generation, ops);
    RunEvolves(generation, ops, i);
    var c :| 0 <= c < |s.channels| && lease.operationId == IdOf(c);
    if OwnsRemoval(t, lease) {
      SameIdSameChannel(|t.channels|, c, t.entries[lease.slot].channel);
    }
  }

  predicate EndsRemovalWith(op: Op, lease: RemoveLease) {
    (op.FinishRemoveOp? || op.RestoreOp?) && op.removal == lease
  }

  /** Removal leases are fenced in the same way: once one is not current, after a stop for instance, no later finish or
    * restore of the run with it succeeds. */
  lemma RemovalFencedForever(generation: Generation, ops: seq<Op>, i: nat, lease: RemoveLease, j: nat)
    requires i <= j < |ops| && |After(New(generation), ops).channels| < U64
    requires RemovalWasIssued(After(New(generation), ops[..i]), lease)
    requires !OwnsRemoval(After(New(generation), ops[..i]), lease)
    requires EndsRemovalWith(ops[j], lease)
    ensures !Settles(After(New(generation), ops[..j]), ops[j])
  {
    assert ops[..j][..i] == ops[..i];
    RunEvolves(generation, ops, j);
    RemovalFencedToTheEnd(generation, ops[..j], i, lease);
  }

  /** An attach lease of this registry whose channel, as long as it is pending, is the one its slot holds. */
  ghost predicate Accounted(s: Registry, lease: AttachLease) {
    && lease.generation == s.generation
    && WasIssued(s, lease)
    && (s.channels[lease.waiter.channel].Pending? ==>
          && lease.slot in s.entries
          && s.entries[lease.slot] == Entry.Attaching(lease.waiter.operationId, lease.waiter.channel))
  }

  /** A lease stays accounted for through every call, so losing it means its outcome has been recorded.
    * Unlike fencing by id, this needs no bound on the number of operations. */
  lemma AccountedStays(s: Registry, op: Op, lease: AttachLease)
    requires Inv(s) && Accounted(s, lease)
    ensures Accounted(Step(s, op).0, lease)
    ensures !OwnsAttach(Step(s, op).0, lease) ==> Step(s, op).0.channels[lease.waiter.channel].Terminal?
  {
    StepKeepsInv(s, op);
    var t, c := Step(s, op).0, lease.waiter.channel;
    if t.channels[c].Pending? {
      assert HeldInFlight(t.entries, c);
    }
  }

  /** An attach under way ends only by a commit with its own lease, by a removal of its slot, or by stopping the
    * session: a caller that drops its lease on an early return leaves the slot attaching, and joiners waiting, until
    * then. */
  lemma AttachEndsOnlyBy(generation: Generation, ops: seq<Op>, op: Op, slot: SlotId)
    requires var s := After(New(generation), ops); slot in s.entries && s.entries[slot].Attaching?
    ensures var s := After(New(generation), ops);
      var t := Step(s, op).0;
      !(slot in t.entries && t.entries[slot] == s.entries[slot]) <==>
        || (op.StopOp? && !s.stopped)
        || op == BeginRemoveOp(slot)
        || ((op.CommitReadyOp? || op.CommitFailedOp?) && OwnsAttach(s, op.lease) && op.lease.slot == slot)
  {
    RunKeepsInv(generation, ops);
  }

  /** A removal under way ends only by its own finish or restore, or by stopping the session: a remover that
    * returns early leaves the slot removing until the session stops. */
  lemma RemovalEndsOnlyBy(generation: Generation, ops: seq<Op>, op: Op, slot: SlotId)
    requires var s := After(New(generation), ops); slot in s.entries && s.entries[slot].Removing?
    ensures var s := After(New(generation), ops);
      var t := Step(s, op).0;
      !(slot in t.entries && t.entries[slot] == s.entries[slot]) <==>
        || (op.StopOp? && !s.stopped)
        || (op.FinishRemoveOp? && OwnsRemoval(s, op.removal) && op.removal.slot == slot)
        || (op.RestoreOp? && OwnsRemoval(s, op.removal) && op.removal.slot == slot)
  {
    RunKeepsInv(generation, ops);
  }
}
