/** The life of a member as its callers see it: what a slot shows, what calls reply, and what waiters are told.
  *
  * A caller sees no entries and no channels, only snapshots, replies and outcomes. The tables here are told in these
  * terms; the registry is proved to follow them in every run.
  */
module MemberRuntimeLife {
  import opened MemberRuntime
  import opened MemberRuntimeRuns

  // ---- What a slot shows ----

  /** The lease is one of this registry's, for the attach that the slot shows. */
  predicate IsLeaseFor(lease: AttachLease, slot: SlotId, generation: Generation, shown: Snapshot) {
    lease.slot == slot && lease.generation == generation && shown == Snapshot.Attaching(lease.waiter.operationId)
  }

  predicate IsRemovalOf(lease: RemoveLease, slot: SlotId, generation: Generation, shown: Snapshot) {
    lease.slot == slot && lease.generation == generation && shown == Snapshot.Removing(lease.operationId)
  }

  /** What a slot shows after a call, by what it showed before; `drawn` is the id for an operation that the call
    * starts. */
  function Shows(shown: Snapshot, slot: SlotId, op: Op, generation: Generation, drawn: nat): Snapshot {
    if shown.SessionStopped? then shown
    else match op
      case SeedReadyOp(a) => if a == slot && shown.Absent? then Snapshot.Ready else shown
      case ReserveAttachOp(a, retry) =>
        if a == slot && (shown.Absent? || (shown.Failed? && retry)) then Snapshot.Attaching(drawn) else shown
      case ReserveRepairOp(a) =>
        if a == slot && (shown.Absent? || shown.Ready?) then Snapshot.Attaching(drawn) else shown
      case CommitReadyOp(l) => if IsLeaseFor(l, slot, generation, shown) then Snapshot.Ready else shown
      case CommitFailedOp(l, f) =>
        if IsLeaseFor(l, slot, generation, shown) then Snapshot.Failed(l.waiter.operationId, f) else shown
      case BeginRemoveOp(a) =>
        if a == slot && !shown.Absent? && !shown.Removing? then Snapshot.Removing(drawn) else shown
      case FinishRemoveOp(l) => if IsRemovalOf(l, slot, generation, shown) then Snapshot.Absent else shown
      case RestoreOp(l, f) =>
        if IsRemovalOf(l, slot, generation, shown) then Snapshot.Failed(l.operationId, f) else shown
      case StopOp => Snapshot.SessionStopped
  }

  /** The call starts an operation: it shows a slot with a fresh id. */
  predicate Starts(shown: Snapshot, op: Op) {
    match op
    case ReserveAttachOp(_, retry) => shown.Absent? || (shown.Failed? && retry)
    case ReserveRepairOp(_) => shown.Absent? || shown.Ready?
    case BeginRemoveOp(_) => shown.Attaching? || shown.Ready? || shown.Failed?
    case _ => false
  }

  function SlotOf(op: Op): SlotId {
    match op
    case SeedReadyOp(slot) => slot
    case ReserveAttachOp(slot, _) => slot
    case ReserveRepairOp(slot) => slot
    case CommitReadyOp(lease) => lease.slot
    case CommitFailedOp(lease, _) => lease.slot
    case BeginRemoveOp(slot) => slot
    case FinishRemoveOp(lease) => lease.slot
    case RestoreOp(lease, _) => lease.slot
    case StopOp => 0
  }

  lemma StepShows(s: Registry, op: Op, slot: SlotId)
    ensures Observe(Step(s, op).0, slot) == Shows(Observe(s, slot), slot, op, s.generation, s.nextOperationId)
  {
  }

  /** How many operations the run has started. */
  ghost function Started(generation: Generation, ops: seq<Op>): nat {
    if ops == [] then 0
    else
      var init, last := ops[..|ops| - 1], ops[|ops| - 1];
      Started(generation, init) + if Starts(Observe(After(New(generation), init), SlotOf(last)), last) then 1 else 0
  }

  lemma OneChannelPerStart(s: Registry, op: Op)
    ensures |Step(s, op).0.channels| == |s.channels| + if Starts(Observe(s, SlotOf(op)), op) then 1 else 0
    ensures Step(s, op).0.generation == s.generation
  {
  }

  lemma {:induction false} ChannelsCountStarts(generation: Generation, ops: seq<Op>)
    ensures |After(New(generation), ops).channels| == Started(generation, ops)
    ensures After(New(generation), ops).generation == generation
  {
    if ops == [] {
    } else {
      ChannelsCountStarts(generation, ops[..|ops| - 1]);
      OneChannelPerStart(After(New(generation), ops[..|ops| - 1]), ops[|ops| - 1]);
    }
  }

  lemma NextIdOf(s: Registry)
    requires Inv(s)
    ensures s.nextOperationId == (|s.channels| + 1) % U64
  {
  }

  lemma NextIdOfRun(generation: Generation, ops: seq<Op>)
    ensures After(New(generation), ops).nextOperationId == (|After(New(generation), ops).channels| + 1) % U64
  {
    RunKeepsInv(generation, ops);
    NextIdOf(After(New(generation), ops));
  }

  lemma IdsCountStarts(generation: Generation, ops: seq<Op>)
    ensures After(New(generation), ops).generation == generation
    ensures After(New(generation), ops).nextOperationId == (Started(generation, ops) + 1) % U64
  {
    NextIdOfRun(generation, ops);
    ChannelsCountStarts(generation, ops);
  }

  /** In every run each slot shows what the table says. Ids count the operations started, from 1, modulo 2^64. */
  lemma SlotLife(generation: Generation, ops: seq<Op>, op: Op, slot: SlotId)
    ensures Observe(New(generation), slot) == Snapshot.Absent
    ensures var s := After(New(generation), ops);
      Observe(Step(s, op).0, slot) ==
        Shows(Observe(s, slot), slot, op, generation, (Started(generation, ops) + 1) % U64)
  {
    IdsCountStarts(generation, ops);
    StepShows(After(New(generation), ops), op, slot);
  }

  // ---- What calls reply ----

  predicate StartsLease(r: Reservation, generation: Generation, slot: SlotId, drawn: nat) {
    r.Start? && r.lease.generation == generation && r.lease.slot == slot && r.lease.waiter.operationId == drawn
  }

  /** A reservation by what the slot shows; `opens` says whether this reservation starts anew on what it shows. */
  predicate ReservationFits(shown: Snapshot, opens: bool, generation: Generation, slot: SlotId, drawn: nat,
                            r: Reservation) {
    if opens then StartsLease(r, generation, slot, drawn)
    else match shown
      case Absent => false
      case Attaching(id) => r.Join? && r.waiter.operationId == id
      case Ready => r == AlreadyReady
      case Failed(id, _) => r.Join? && r.waiter.operationId == id
      case Removing(id) => r.Removing? && r.waiter.operationId == id
      case SessionStopped => r == Reservation.SessionStopped
  }

  predicate RemovalFits(shown: Snapshot, generation: Generation, slot: SlotId, drawn: nat, r: Removal) {
    match shown
    case Absent => r == Removal.Absent
    case Removing(id) => r.Join? && r.waiter.operationId == id
    case SessionStopped => r == Removal.SessionStopped
    case _ => r == Removal.Start(RemoveLease(generation, slot, drawn))
  }

  /** The reply of a call by what its slot showed. */
  predicate ReplyFits(shown: Snapshot, op: Op, generation: Generation, drawn: nat, reply: Reply) {
    match op
    case SeedReadyOp(_) => reply == Accepted(shown.Absent? || shown.Ready?)
    case ReserveAttachOp(slot, _) =>
      reply.Reserved? && ReservationFits(shown, Starts(shown, op), generation, slot, drawn, reply.reservation)
    case ReserveRepairOp(slot) =>
      reply.Reserved? && ReservationFits(shown, Starts(shown, op), generation, slot, drawn, reply.reservation)
    case CommitReadyOp(l) => reply == Accepted(IsLeaseFor(l, l.slot, generation, shown))
    case CommitFailedOp(l, _) => reply == Accepted(IsLeaseFor(l, l.slot, generation, shown))
    case BeginRemoveOp(slot) => reply.RemovalReply? && RemovalFits(shown, generation, slot, drawn, reply.removal)
    case FinishRemoveOp(l) => reply == Accepted(IsRemovalOf(l, l.slot, generation, shown))
    case RestoreOp(l, _) => reply == Accepted(IsRemovalOf(l, l.slot, generation, shown))
    case StopOp => reply == Accepted(!shown.SessionStopped?)
  }

  lemma StepReplies(s: Registry, op: Op)
    ensures ReplyFits(Observe(s, SlotOf(op)), op, s.generation, s.nextOperationId, Step(s, op).1)
  {
  }

  /** In every run each call replies what the table says. */
  lemma RepliesFit(generation: Generation, ops: seq<Op>, op: Op)
    ensures var s := After(New(generation), ops);
      ReplyFits(Observe(s, SlotOf(op)), op, generation, (Started(generation, ops) + 1) % U64, Step(s, op).1)
  {
    IdsCountStarts(generation, ops);
    StepReplies(After(New(generation), ops), op);
  }

  // ---- What waiters are told ----

  /** The waiter is one that some call of the run handed out. */
  ghost predicate HandedOut(generation: Generation, ops: seq<Op>, w: AttachWaiter) {
    exists j :: 0 <= j < |ops| && HandsOut(generation, ops, j, w)
  }

  ghost predicate HandsOut(generation: Generation, ops: seq<Op>, j: nat, w: AttachWaiter)
    requires j < |ops|
  {
    var reply := Step(After(New(generation), ops[..j]), ops[j]).1;
    reply.HasWaiter() && reply.Waiter() == w
  }

  lemma HandedOutIsIssued(generation: Generation, ops: seq<Op>, w: AttachWaiter)
    requires HandedOut(generation, ops, w)
    ensures w.channel < |After(New(generation), ops).channels| && w.operationId == IdOf(w.channel)
  {
    var j :| 0 <= j < |ops| && HandsOut(generation, ops, j, w);
    WaiterOfRun(generation, ops, j);
  }

  /** What an accepted commit, finish or restore has to tell. */
  function OutcomeOf(op: Op): AttachOutcome
    requires op.CommitReadyOp? || op.CommitFailedOp? || op.FinishRemoveOp? || op.RestoreOp?
  {
    match op
    case CommitReadyOp(_) => AttachOutcome.Ready
    case CommitFailedOp(_, f) => AttachOutcome.Failed(f)
    case FinishRemoveOp(_) => AttachOutcome.Removed
    case RestoreOp(_, f) => AttachOutcome.Failed(f)
  }

  /** What a waiter that still waits finds after one more call. */
  function Tells(s: Registry, op: Op, ok: bool, id: nat): Poll {
    match op
    case StopOp => Returned(AttachOutcome.SessionStopped)
    case BeginRemoveOp(slot) =>
      if Observe(s, slot) == Snapshot.Attaching(id) then Returned(AttachOutcome.Removed) else Blocked
    case SeedReadyOp(_) => Blocked
    case ReserveAttachOp(_, _) => Blocked
    case ReserveRepairOp(_) => Blocked
    case _ => if ok && OperationOf(op) == id then Returned(OutcomeOf(op)) else Blocked
  }

  /** A pending channel's holder carries its id, and below the wrap-around no other entry does. */
  lemma HolderOf(s: Registry, c: ChannelId) returns (slot: SlotId)
    requires Inv(s) && c < |s.channels| < U64 && s.channels[c].Pending?
    ensures slot in s.entries && s.entries[slot].InFlight() && s.entries[slot].channel == c
    ensures s.entries[slot].operationId == IdOf(c)
    ensures forall a :: a in s.entries && !s.entries[a].Ready? && s.entries[a].operationId == IdOf(c) ==> a == slot
  {
    assert HeldInFlight(s.entries, c);
    slot :| slot in s.entries && s.entries[slot].InFlight() && s.entries[slot].channel == c;
    forall a | a in s.entries && !s.entries[a].Ready? && s.entries[a].operationId == IdOf(c)
      ensures a == slot
    {
      SameIdSameChannel(|s.channels|, s.entries[a].channel, c);
    }
  }

  function Accepts(r: Reply): bool {
    r.Accepted? && r.ok
  }

  lemma PendingChannelMoves(s: Registry, op: Op, c: ChannelId)
    requires Inv(s) && c < |s.channels| < U64 && s.channels[c].Pending? && !op.StopOp?
    ensures c < |Step(s, op).0.channels|
    ensures Step(s, op).0.channels[c] == match Tells(s, op, Accepts(Step(s, op).1), IdOf(c)) {
      case Blocked => Pending
      case Returned(o) => Terminal(o)
    }
  {
    var slot := HolderOf(s, c);
  }

  lemma PendingChannelStops(s: Registry, c: ChannelId)
    requires Inv(s) && c < |s.channels| && s.channels[c].Pending?
    ensures c < |Step(s, StopOp).0.channels|
    ensures Step(s, StopOp).0.channels[c] == Terminal(AttachOutcome.SessionStopped)
  {
    assert HeldInFlight(s.entries, c);
  }

  lemma PollIs(s: Registry, w: AttachWaiter)
    requires Inv(s) && w.channel < |s.channels|
    ensures PollWaiter(s, w) == match s.channels[w.channel] { case Pending => Blocked case Terminal(o) => Returned(o) }
  {
    if s.channels[w.channel].Pending? {
      assert HeldInFlight(s.entries, w.channel);
    }
  }

  /** In every run below the wrap-around, a waiter that was told keeps its answer, and one that waits finds what the
    * table says: an outcome exactly when the call ended its operation. */
  lemma WaitersAreTold(generation: Generation, ops: seq<Op>, op: Op, w: AttachWaiter)
    requires HandedOut(generation, ops, w) && |After(New(generation), ops).channels| < U64
    ensures var s := After(New(generation), ops);
      var (t, reply) := Step(s, op);
      PollWaiter(t, w) ==
        if PollWaiter(s, w).Returned? then PollWaiter(s, w) else Tells(s, op, Accepts(reply), w.operationId)
  {
    var s := After(New(generation), ops);
    HandedOutIsIssued(generation, ops, w);
    RunKeepsInv(generation, ops);
    StepKeepsInv(s, op);
    PollIs(s, w);
    PollIs(Step(s, op).0, w);
    if s.channels[w.channel].Pending? {
      if op.StopOp? {
        PendingChannelStops(s, w.channel);
      } else {
        PendingChannelMoves(s, op, w.channel);
      }
    }
  }

  lemma EventAt(generation: Generation, ops: seq<Op>, i: nat)
    requires i < |ops|
    ensures After(New(generation), ops[..i + 1]) == Step(After(New(generation), ops[..i]), ops[i]).0
  {
    assert ops[..i + 1][..i] == ops[..i];
  }

  /** The channel of an accepted call's operation records what the call has to tell. */
  lemma SettledChannel(s: Registry, op: Op, c: ChannelId)
    requires Inv(s) && Settles(s, op) && |s.channels| < U64
    requires c < |s.channels| && IdOf(c) == OperationOf(op)
    ensures c < |Step(s, op).0.channels| && Step(s, op).0.channels[c] == Terminal(OutcomeOf(op))
  {
    var d := SettlingUsesItsChannel(s, op);
    SameIdSameChannel(|s.channels|, c, d);
    PendingChannelMoves(s, op, c);
  }

  /** A recorded outcome is what every waiter of the channel is told to the end of the run. */
  lemma RecordedToTheEnd(generation: Generation, ops: seq<Op>, i: nat, w: AttachWaiter, o: AttachOutcome)
    requires i <= |ops| && w.channel < |After(New(generation), ops[..i]).channels|
    requires After(New(generation), ops[..i]).channels[w.channel] == Terminal(o)
    ensures PollWaiter(After(New(generation), ops), w) == Returned(o)
  {
    RunEvolves(generation, ops, i);
  }

  /** An accepted commit, finish or restore tells every waiter of its operation, whenever in the run it was handed out,
    * what it has to tell, to the end of the run: Ready, the very failure, or Removed. */
  lemma SettledWaitersAreTold(generation: Generation, ops: seq<Op>, i: nat, w: AttachWaiter)
    requires i < |ops| && Settles(After(New(generation), ops[..i]), ops[i])
    requires HandedOut(generation, ops, w) && w.operationId == OperationOf(ops[i])
    requires |After(New(generation), ops).channels| < U64
    ensures PollWaiter(After(New(generation), ops), w) == Returned(OutcomeOf(ops[i]))
  {
    var s := After(New(generation), ops[..i]);
    RunKeepsInv(generation, ops[..i]);
    var c := SettlesOnce(generation, ops, i);
    HandedOutIsIssued(generation, ops, w);
    SameIdSameChannel(|After(New(generation), ops).channels|, c, w.channel);
    RunEvolves(generation, ops, i);
    SettledChannel(s, ops[i], c);
    EventAt(generation, ops, i);
    RecordedToTheEnd(generation, ops, i + 1, w, OutcomeOf(ops[i]));
  }

  /** A removal that cancels an attach tells every waiter of the attach that the member is removed. */
  lemma CancelledWaitersAreTold(generation: Generation, ops: seq<Op>, i: nat, w: AttachWaiter)
    requires i < |ops| && ops[i].BeginRemoveOp?
    requires Observe(After(New(generation), ops[..i]), ops[i].slot) == Snapshot.Attaching(w.operationId)
    requires HandedOut(generation, ops, w) && |After(New(generation), ops).channels| < U64
    ensures PollWaiter(After(New(generation), ops), w) == Returned(AttachOutcome.Removed)
  {
    var s := After(New(generation), ops[..i]);
    RunKeepsInv(generation, ops[..i]);
    RunEvolves(generation, ops, i);
    HandedOutIsIssued(generation, ops, w);
    var c := s.entries[ops[i].slot].channel;
    SameIdSameChannel(|After(New(generation), ops).channels|, c, w.channel);
    PendingChannelMoves(s, ops[i], c);
    EventAt(generation, ops, i);
    RecordedToTheEnd(generation, ops, i + 1, w, AttachOutcome.Removed);
  }

  /** What a stop records on a channel. */
  lemma StoppedChannel(s: Registry, w: AttachWaiter) returns (o: AttachOutcome)
    requires Inv(s) && w.channel < |s.channels|
    ensures w.channel < |Step(s, StopOp).0.channels| && Step(s, StopOp).0.channels[w.channel] == Terminal(o)
    ensures o == match PollWaiter(s, w) { case Blocked => AttachOutcome.SessionStopped case Returned(p) => p }
  {
    PollIs(s, w);
    StepKeepsInv(s, StopOp);
    if s.channels[w.channel].Pending? {
      PendingChannelStops(s, w.channel);
      o := AttachOutcome.SessionStopped;
    } else {
      o := s.channels[w.channel].outcome;
    }
  }

  lemma StopAt(generation: Generation, ops: seq<Op>, i: nat, w: AttachWaiter) returns (o: AttachOutcome)
    requires i < |ops| && ops[i] == StopOp && w.channel < |After(New(generation), ops[..i]).channels|
    ensures PollWaiter(After(New(generation), ops), w) == Returned(o)
    ensures o == match PollWaiter(After(New(generation), ops[..i]), w) {
      case Blocked => AttachOutcome.SessionStopped
      case Returned(p) => p
    }
  {
    RunKeepsInv(generation, ops[..i]);
    o := StoppedChannel(After(New(generation), ops[..i]), w);
    EventAt(generation, ops, i);
    RecordedToTheEnd(generation, ops, i + 1, w, o);
  }

  /** A stop tells everybody who still waits that the session is stopped, and changes nobody else's answer. */
  lemma StoppedWaitersAreTold(generation: Generation, ops: seq<Op>, i: nat, w: AttachWaiter)
    requires i < |ops| && ops[i] == StopOp && HandedOut(generation, ops[..i], w)
    ensures PollWaiter(After(New(generation), ops), w) ==
      match PollWaiter(After(New(generation), ops[..i]), w) {
        case Blocked => Returned(AttachOutcome.SessionStopped)
        case Returned(o) => Returned(o)
      }
  {
    HandedOutIsIssued(generation, ops[..i], w);
    var o := StopAt(generation, ops, i, w);
  }
}
