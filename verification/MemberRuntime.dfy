/** The member runtime lifecycle: values, and what each registry operation does to them.
  *
  * Every operation of the registry runs under one mutex, so it is one function from the registry
  * state before the critical section to the state after it and the reply it returns.
  * Slot ids and session generations are opaque strings that are only compared; here they are numbers.
  */
module MemberRuntime {

  type SlotId = nat
  type Generation = nat

  /** A handle on a one-shot outcome channel: its index in the table of all channels ever created. */
  type ChannelId = nat

  datatype Failure = Failure(classification: string, publicReason: string)

  datatype AttachOutcome =
    | Ready
    | Failed(failure: Failure)
    | Removed
    | SessionStopped

  datatype AttachSignal = Pending | Terminal(outcome: AttachOutcome)

  datatype AttachWaiter = AttachWaiter(operationId: nat, channel: ChannelId)

  datatype AttachLease = AttachLease(generation: Generation, slot: SlotId, waiter: AttachWaiter)

  datatype RemoveLease = RemoveLease(generation: Generation, slot: SlotId, operationId: nat)

  datatype Reservation =
    | Start(lease: AttachLease)
    | Join(waiter: AttachWaiter)
    | AlreadyReady
    | Removing(waiter: AttachWaiter)
    | SessionStopped

  datatype Removal =
    | Start(lease: RemoveLease)
    | Join(waiter: AttachWaiter)
    | Absent
    | SessionStopped

  /** What the entry map holds for a slot; a slot without an entry is absent. */
  datatype Entry =
    | Attaching(operationId: nat, channel: ChannelId)
    | Ready
    | Failed(operationId: nat, failure: Failure, channel: ChannelId)
    | Removing(operationId: nat, channel: ChannelId)
  {
    /** An operation is under way and its outcome channel has not been settled. */
    predicate InFlight() { Attaching? || Removing? }
  }

  datatype Snapshot =
    | Absent
    | Attaching(operationId: nat)
    | Ready
    | Failed(operationId: nat, failure: Failure)
    | Removing(operationId: nat)
    | SessionStopped

  /** The registry together with every outcome channel it ever created, in order of creation. */
  datatype Registry = Registry(
    generation: Generation,
    nextOperationId: nat,
    entries: map<SlotId, Entry>,
    stopped: bool,
    channels: seq<AttachSignal>)

  /** The operation counter is an unsigned 64-bit atomic whose increment wraps. */
  const U64: nat := 0x1_0000_0000_0000_0000

  function NextId(id: nat): nat {
    (id + 1) % U64
  }

  function New(generation: Generation): Registry {
    Registry(generation, 1, map[], false, [])
  }

  /** Replaces the value of a channel, as a watch sender does. */
  function Send(channels: seq<AttachSignal>, c: ChannelId, outcome: AttachOutcome): seq<AttachSignal> {
    if c < |channels| then channels[c := Terminal(outcome)] else channels
  }

  // ---- The operations ----

  function SeedReady(s: Registry, slot: SlotId): (Registry, bool) {
    if s.stopped then (s, false)
    else if slot !in s.entries then (s.(entries := s.entries[slot := Entry.Ready]), true)
    else (s, s.entries[slot].Ready?)
  }

  /** Starts a new attach operation on a slot, with a fresh id and a fresh pending channel. */
  function OpenAttach(s: Registry, slot: SlotId): (Registry, Reservation) {
    var waiter := AttachWaiter(s.nextOperationId, |s.channels|);
    (s.(nextOperationId := NextId(s.nextOperationId),
        entries := s.entries[slot := Entry.Attaching(waiter.operationId, waiter.channel)],
        channels := s.channels + [Pending]),
     Reservation.Start(AttachLease(s.generation, slot, waiter)))
  }

  function ReserveAttach(s: Registry, slot: SlotId, retryFailed: bool): (Registry, Reservation) {
    if s.stopped then (s, Reservation.SessionStopped)
    else if slot !in s.entries then OpenAttach(s, slot)
    else match s.entries[slot]
      case Attaching(id, c) => (s, Reservation.Join(AttachWaiter(id, c)))
      case Ready => (s, AlreadyReady)
      case Failed(id, _, c) =>
        if retryFailed then OpenAttach(s, slot) else (s, Reservation.Join(AttachWaiter(id, c)))
      case Removing(id, c) => (s, Reservation.Removing(AttachWaiter(id, c)))
  }

  function ReserveRepair(s: Registry, slot: SlotId): (Registry, Reservation) {
    if s.stopped then (s, Reservation.SessionStopped)
    else if slot !in s.entries then OpenAttach(s, slot)
    else match s.entries[slot]
      case Attaching(id, c) => (s, Reservation.Join(AttachWaiter(id, c)))
      case Ready => OpenAttach(s, slot)
      case Failed(id, _, c) => (s, Reservation.Join(AttachWaiter(id, c)))
      case Removing(id, c) => (s, Reservation.Removing(AttachWaiter(id, c)))
  }

  /** The slot's entry is the attach operation with this id. */
  predicate AttachingWith(s: Registry, slot: SlotId, operationId: nat) {
    slot in s.entries && s.entries[slot].Attaching? && s.entries[slot].operationId == operationId
  }

  predicate RemovingWith(s: Registry, slot: SlotId, operationId: nat) {
    slot in s.entries && s.entries[slot].Removing? && s.entries[slot].operationId == operationId
  }

  /** The lease is the one that currently owns its slot. */
  predicate OwnsAttach(s: Registry, lease: AttachLease) {
    && lease.generation == s.generation
    && !s.stopped
    && AttachingWith(s, lease.slot, lease.waiter.operationId)
  }

  predicate OwnsRemoval(s: Registry, lease: RemoveLease) {
    && lease.generation == s.generation
    && !s.stopped
    && RemovingWith(s, lease.slot, lease.operationId)
  }

  function CommitReady(s: Registry, lease: AttachLease): (Registry, bool) {
    if !OwnsAttach(s, lease) then (s, false)
    else
      (s.(entries := s.entries[lease.slot := Entry.Ready],
          channels := Send(s.channels, s.entries[lease.slot].channel, AttachOutcome.Ready)),
       true)
  }

  function CommitFailed(s: Registry, lease: AttachLease, failure: Failure): (Registry, bool) {
    if !OwnsAttach(s, lease) then (s, false)
    else
      var c := s.entries[lease.slot].channel;
      (s.(entries := s.entries[lease.slot := Entry.Failed(lease.waiter.operationId, failure, c)],
          channels := Send(s.channels, c, AttachOutcome.Failed(failure))),
       true)
  }

  function BeginRemove(s: Registry, slot: SlotId): (Registry, Removal) {
    if s.stopped then (s, Removal.SessionStopped)
    else if slot !in s.entries then (s, Removal.Absent)
    else
      var previous := s.entries[slot];
      if previous.Removing? then (s, Removal.Join(AttachWaiter(previous.operationId, previous.channel)))
      else
        var id, c := s.nextOperationId, |s.channels|;
        var grown := s.channels + [Pending];
        (s.(nextOperationId := NextId(id),
            entries := s.entries[slot := Entry.Removing(id, c)],
            channels := if previous.Attaching? then Send(grown, previous.channel, AttachOutcome.Removed) else grown),
         Removal.Start(RemoveLease(s.generation, slot, id)))
  }

  function FinishRemove(s: Registry, lease: RemoveLease): (Registry, bool) {
    if !OwnsRemoval(s, lease) then (s, false)
    else
      (s.(entries := s.entries - {lease.slot},
          channels := Send(s.channels, s.entries[lease.slot].channel, AttachOutcome.Removed)),
       true)
  }

  /** Marks a removed runtime as requiring a fresh attach after its removal could not be persisted. */
  function RestoreAttachRequired(s: Registry, lease: RemoveLease, failure: Failure): (Registry, bool) {
    if !OwnsRemoval(s, lease) then (s, false)
    else
      var c := s.entries[lease.slot].channel;
      (s.(entries := s.entries[lease.slot := Entry.Failed(lease.operationId, failure, c)],
          channels := Send(s.channels, c, AttachOutcome.Failed(failure))),
       true)
  }

  /** Some in-flight entry of the map holds the sending half of this channel. */
  ghost predicate HeldInFlight(entries: map<SlotId, Entry>, c: ChannelId) {
    exists slot :: slot in entries && entries[slot].InFlight() && entries[slot].channel == c
  }

  /** Every channel of an in-flight entry is settled with the given outcome; the others are left alone. */
  ghost function SendAll(channels: seq<AttachSignal>, entries: map<SlotId, Entry>, outcome: AttachOutcome)
    : (r: seq<AttachSignal>)
  {
    seq(|channels|, c requires 0 <= c < |channels| =>
      if HeldInFlight(entries, c) then Terminal(outcome) else channels[c])
  }

  ghost function Stop(s: Registry): (Registry, bool) {
    if s.stopped then (s, false)
    else
      (s.(stopped := true, entries := map[],
          channels := SendAll(s.channels, s.entries, AttachOutcome.SessionStopped)),
       true)
  }

  function Observe(s: Registry, slot: SlotId): Snapshot {
    if s.stopped then Snapshot.SessionStopped
    else if slot !in s.entries then Snapshot.Absent
    else match s.entries[slot]
      case Attaching(id, _) => Snapshot.Attaching(id)
      case Ready => Snapshot.Ready
      case Failed(id, failure, _) => Snapshot.Failed(id, failure)
      case Removing(id, _) => Snapshot.Removing(id)
  }

  // ---- Steps and runs ----

  /** One call on the registry. Leases are arbitrary: stale, foreign or current ones alike. */
  datatype Op =
    | SeedReadyOp(slot: SlotId)
    | ReserveAttachOp(slot: SlotId, retryFailed: bool)
    | ReserveRepairOp(slot: SlotId)
    | CommitReadyOp(lease: AttachLease)
    | CommitFailedOp(lease: AttachLease, failure: Failure)
    | BeginRemoveOp(slot: SlotId)
    | FinishRemoveOp(removal: RemoveLease)
    | RestoreOp(removal: RemoveLease, failure: Failure)
    | StopOp

  datatype Reply =
    | Reserved(reservation: Reservation)
    | RemovalReply(removal: Removal)
    | Accepted(ok: bool)
  {
    /** The waiter that a reply hands out, if it hands one out. */
    predicate HasWaiter() {
      || (Reserved? && (reservation.Start? || reservation.Join? || reservation.Removing?))
      || (RemovalReply? && removal.Join?)
    }

    function Waiter(): AttachWaiter
      requires HasWaiter()
    {
      match this
      case Reserved(Start(lease)) => lease.waiter
      case Reserved(Join(w)) => w
      case Reserved(Removing(w)) => w
      case RemovalReply(Join(w)) => w
    }
  }

  ghost function Step(s: Registry, op: Op): (Registry, Reply) {
    match op
    case SeedReadyOp(slot) => var (t, ok) := SeedReady(s, slot); (t, Accepted(ok))
    case ReserveAttachOp(slot, retry) => var (t, r) := ReserveAttach(s, slot, retry); (t, Reserved(r))
    case ReserveRepairOp(slot) => var (t, r) := ReserveRepair(s, slot); (t, Reserved(r))
    case CommitReadyOp(lease) => var (t, ok) := CommitReady(s, lease); (t, Accepted(ok))
    case CommitFailedOp(lease, f) => var (t, ok) := CommitFailed(s, lease, f); (t, Accepted(ok))
    case BeginRemoveOp(slot) => var (t, r) := BeginRemove(s, slot); (t, RemovalReply(r))
    case FinishRemoveOp(lease) => var (t, ok) := FinishRemove(s, lease); (t, Accepted(ok))
    case RestoreOp(lease, f) => var (t, ok) := RestoreAttachRequired(s, lease, f); (t, Accepted(ok))
    case StopOp => var (t, ok) := Stop(s); (t, Accepted(ok))
  }

  /** The registry after a sequence of calls. */
  ghost function After(s: Registry, ops: seq<Op>): Registry {
    if ops == [] then s else Step(After(s, ops[..|ops| - 1]), ops[|ops| - 1]).0
  }
}
