/** Foreground leases: a map of expiry times from which an expired lease is dropped when somebody asks for it.
  *
  * Times are signed 64-bit milliseconds that saturate. Every operation carries the clock reading it used, and
  * operations are in the order in which they took the lock. The clock is read before the lock is taken, so two callers
  * can use their readings in the opposite order: `Monotone` is a condition on the readings in lock order, which a clock
  * that never goes back does not ensure by itself.
  */
module Leases {
  import opened Wrappers

  type ConversationId = nat
  type Time = int

  const MIN_TIME: Time := -0x8000_0000_0000_0000
  const MAX_TIME: Time := 0x7FFF_FFFF_FFFF_FFFF
  const DEFAULT_TTL: Time := 90_000

  function Saturate(t: int): Time {
    if t < MIN_TIME then MIN_TIME else if t > MAX_TIME then MAX_TIME else t
  }

  type Expiries = map<ConversationId, Time>

  datatype Op =
    | Renew(conversation: ConversationId, now: Time)
    | RenewMany(conversations: seq<ConversationId>, now: Time)
    | Ask(conversation: ConversationId, now: Time)

  function RenewAll(m: Expiries, conversations: seq<ConversationId>, expiry: Time): Expiries {
    if conversations == [] then m
    else RenewAll(m, conversations[..|conversations| - 1], expiry)[conversations[|conversations| - 1] := expiry]
  }

  /** The expiry of a lease that is active. */
  function ActiveAt(m: Expiries, c: ConversationId, now: Time): Option<Time> {
    if c in m && m[c] > now then Some(m[c]) else None
  }

  function Renewed(m: Expiries, ttl: Time, op: Op): Expiries {
    match op
    case Renew(c, now) => m[c := Saturate(now + ttl)]
    case RenewMany(cs, now) => RenewAll(m, cs, Saturate(now + ttl))
    case Ask(_, _) => m
  }

  /** What the registry does: like renewals, but a question drops the lease it finds expired. */
  function Step(m: Expiries, ttl: Time, op: Op): Expiries {
    if op.Ask? then (if op.conversation in m && m[op.conversation] <= op.now then m - {op.conversation} else m)
    else Renewed(m, ttl, op)
  }

  function After(ops: seq<Op>, ttl: Time): Expiries {
    if ops == [] then map[] else Step(After(ops[..|ops| - 1], ttl), ttl, ops[|ops| - 1])
  }

  /** The latest expiry of every lease that was ever renewed; nothing is dropped. */
  function Ledger(ops: seq<Op>, ttl: Time): Expiries {
    if ops == [] then map[] else Renewed(Ledger(ops[..|ops| - 1], ttl), ttl, ops[|ops| - 1])
  }

  /** The registry knows the ledger's expiries, except some that are over at time `clock`. */
  ghost predicate Agree(m: Expiries, ledger: Expiries, clock: Time) {
    && (forall c :: c in m ==> c in ledger && m[c] == ledger[c])
    && (forall c :: c in ledger && c !in m ==> ledger[c] <= clock)
  }

  lemma {:induction false} RenewAllIs(m: Expiries, cs: seq<ConversationId>, expiry: Time)
    ensures RenewAll(m, cs, expiry).Keys == m.Keys + (set c | c in cs)
    ensures forall c :: c in RenewAll(m, cs, expiry) ==> RenewAll(m, cs, expiry)[c] == if c in cs then expiry else m[c]
  {
    if cs == [] {
    } else {
      RenewAllIs(m, cs[..|cs| - 1], expiry);
      assert cs == cs[..|cs| - 1] + [cs[|cs| - 1]];
    }
  }

  lemma StepKeepsAgreement(m: Expiries, ledger: Expiries, clock: Time, ttl: Time, op: Op)
    requires Agree(m, ledger, clock) && clock <= op.now
    ensures Agree(Step(m, ttl, op), Renewed(ledger, ttl, op), op.now)
  {
    if op.RenewMany? {
      RenewAllIs(m, op.conversations, Saturate(op.now + ttl));
      RenewAllIs(ledger, op.conversations, Saturate(op.now + ttl));
    }
  }

  lemma AgreeingAnswers(m: Expiries, ledger: Expiries, clock: Time, c: ConversationId, now: Time)
    requires Agree(m, ledger, clock) && clock <= now
    ensures ActiveAt(m, c, now) == ActiveAt(ledger, c, now)
  {
  }

  predicate Monotone(ops: seq<Op>) {
    forall i, j :: 0 <= i < j < |ops| ==> ops[i].now <= ops[j].now
  }

  lemma {:induction false} MonotoneRunAgrees(ops: seq<Op>, ttl: Time, now: Time)
    requires Monotone(ops) && forall i :: 0 <= i < |ops| ==> ops[i].now <= now
    ensures Agree(After(ops, ttl), Ledger(ops, ttl), if ops == [] then now else ops[|ops| - 1].now)
  {
    if ops == [] {
    } else {
      var init, last := ops[..|ops| - 1], ops[|ops| - 1];
      MonotoneRunAgrees(init, ttl, last.now);
      var before := if init == [] then last.now else init[|init| - 1].now;
      StepKeepsAgreement(After(init, ttl), Ledger(init, ttl), before, ttl, last);
    }
  }

  /** As long as readings do not go back, dropping leases is not visible: the answer is that of the latest expiry. */
  lemma DroppingIsInvisible(ops: seq<Op>, ttl: Time, c: ConversationId, now: Time)
    requires Monotone(ops) && forall i :: 0 <= i < |ops| ==> ops[i].now <= now
    ensures ActiveAt(After(ops, ttl), c, now) == ActiveAt(Ledger(ops, ttl), c, now)
  {
    MonotoneRunAgrees(ops, ttl, now);
    AgreeingAnswers(After(ops, ttl), Ledger(ops, ttl), if ops == [] then now else ops[|ops| - 1].now, c, now);
  }

  predicate Renews(op: Op, c: ConversationId) {
    match op
    case Renew(d, _) => d == c
    case RenewMany(ds, _) => c in ds
    case Ask(_, _) => false
  }

  /** Since the last renewal somebody asked for the lease with a clock that was past its expiry. */
  predicate AskedLate(ops: seq<Op>, ttl: Time, c: ConversationId) {
    if ops == [] || Renews(ops[|ops| - 1], c) then false
    else
      var init, last := ops[..|ops| - 1], ops[|ops| - 1];
      AskedLate(init, ttl, c)
      || (last.Ask? && last.conversation == c && c in Ledger(init, ttl) && Ledger(init, ttl)[c] <= last.now)
  }

  lemma {:induction false} DroppedExactlyWhenAskedLate(ops: seq<Op>, ttl: Time, c: ConversationId)
    ensures c in After(ops, ttl) <==> c in Ledger(ops, ttl) && !AskedLate(ops, ttl, c)
    ensures c in After(ops, ttl) ==> After(ops, ttl)[c] == Ledger(ops, ttl)[c]
    ensures AskedLate(ops, ttl, c) ==> c in Ledger(ops, ttl)
  {
    if ops == [] {
    } else {
      var init, last := ops[..|ops| - 1], ops[|ops| - 1];
      DroppedExactlyWhenAskedLate(init, ttl, c);
      if last.RenewMany? {
        RenewAllIs(After(init, ttl), last.conversations, Saturate(last.now + ttl));
        RenewAllIs(Ledger(init, ttl), last.conversations, Saturate(last.now + ttl));
      }
    }
  }

  /** With any clock the answer is wrong exactly when a lease that is still due was asked for late: the clock has gone
    * back over its expiry. */
  lemma WrongAnswerIff(ops: seq<Op>, ttl: Time, c: ConversationId, now: Time)
    ensures ActiveAt(After(ops, ttl), c, now) != ActiveAt(Ledger(ops, ttl), c, now)
       <==> AskedLate(ops, ttl, c) && c in Ledger(ops, ttl) && Ledger(ops, ttl)[c] > now
  {
    DroppedExactlyWhenAskedLate(ops, ttl, c);
  }

  /** The last renewal of this lease in the run. */
  predicate LatestRenewal(ops: seq<Op>, c: ConversationId, r: nat) {
    r < |ops| && Renews(ops[r], c) && forall j :: r < j < |ops| ==> !Renews(ops[j], c)
  }

  /** The ledger holds the expiry of the last renewal. */
  lemma {:induction false} LedgerIsLatest(ops: seq<Op>, ttl: Time, c: ConversationId, r: nat)
    requires LatestRenewal(ops, c, r)
    ensures c in Ledger(ops, ttl) && Ledger(ops, ttl)[c] == Saturate(ops[r].now + ttl)
  {
    var init, last := ops[..|ops| - 1], ops[|ops| - 1];
    if last.RenewMany? {
      RenewAllIs(Ledger(init, ttl), last.conversations, Saturate(last.now + ttl));
    }
    if r < |init| {
      assert forall j :: r < j < |init| ==> init[j] == ops[j];
      LedgerIsLatest(init, ttl, c, r);
    }
  }

  /** From one point of a run to its end, either somebody renews the lease, or its expiry is what it was. */
  lemma {:induction false} RenewedOrUnchanged(ops: seq<Op>, ttl: Time, c: ConversationId, k: nat) returns (r: nat)
    requires k <= |ops|
    ensures (k <= r && LatestRenewal(ops, c, r))
         || (&& (forall j :: k <= j < |ops| ==> !Renews(ops[j], c))
             && (c in Ledger(ops, ttl) <==> c in Ledger(ops[..k], ttl))
             && (c in Ledger(ops, ttl) ==> Ledger(ops, ttl)[c] == Ledger(ops[..k], ttl)[c]))
  {
    r := 0;
    if k == |ops| {
      assert ops[..k] == ops;
    } else {
      var init, last := ops[..|ops| - 1], ops[|ops| - 1];
      if Renews(last, c) {
        r := |init|;
      } else {
        r := RenewedOrUnchanged(init, ttl, c, k);
        assert init[..k] == ops[..k];
        if last.RenewMany? {
          RenewAllIs(Ledger(init, ttl), last.conversations, Saturate(last.now + ttl));
        }
      }
    }
  }

  /** Such a run exists for every lease of positive length. */
  lemma ClockGoingBackLosesALease(c: ConversationId, start: Time, ttl: Time)
    requires 0 < ttl && MIN_TIME <= start && start + ttl <= MAX_TIME
    ensures var ops := [Renew(c, start), Ask(c, start + ttl)];
      ActiveAt(After(ops, ttl), c, start) == None && ActiveAt(Ledger(ops, ttl), c, start) == Some(start + ttl)
  {
    var ops := [Renew(c, start), Ask(c, start + ttl)];
    assert ops[..1] == [Renew(c, start)] && ops[..1][..0] == [];
    assert After(ops[..1], ttl) == map[c := start + ttl];
    assert Ledger(ops[..1], ttl) == map[c := start + ttl];
  }

  lemma AfterOneMore(ops: seq<Op>, op: Op, ttl: Time)
    ensures After(ops + [op], ttl) == Step(After(ops, ttl), ttl, op)
    ensures Ledger(ops + [op], ttl) == Renewed(Ledger(ops, ttl), ttl, op)
  {
    assert (ops + [op])[..|ops|] == ops;
  }

  class ActiveLeaseRegistry {
    var leases: Expiries
    const ttl: Time
    /** All operations so far, in lock order. */
    ghost var history: seq<Op>

    ghost predicate Valid()
      reads this
    {
      leases == After(history, ttl)
    }

    constructor ()
      ensures Valid() && history == [] && ttl == DEFAULT_TTL
    {
      leases, ttl, history := map[], DEFAULT_TTL, [];
    }

    constructor WithTtl(ttl: Time)
      ensures Valid() && history == [] && this.ttl == ttl
    {
      leases, this.ttl, history := map[], ttl, [];
    }

    method RenewOne(c: ConversationId, now: Time) returns (expiry: Time)
      requires Valid()
      modifies this
      ensures Valid() && history == old(history) + [Renew(c, now)]
      ensures expiry == Saturate(now + ttl) && leases == old(leases)[c := expiry]
    {
      AfterOneMore(history, Renew(c, now), ttl);
      expiry := Saturate(now + ttl);
      leases := leases[c := expiry];
      history := history + [Renew(c, now)];
    }

    method RenewEach(cs: seq<ConversationId>, now: Time) returns (count: nat, expiry: Time)
      requires Valid()
      modifies this
      ensures Valid() && history == old(history) + [RenewMany(cs, now)]
      ensures expiry == Saturate(now + ttl) && count == |cs|
      ensures leases.Keys == old(leases).Keys + (set c | c in cs)
      ensures forall c :: c in leases ==> leases[c] == if c in cs then expiry else old(leases)[c]
    {
      AfterOneMore(history, RenewMany(cs, now), ttl);
      expiry := Saturate(now + ttl);
      RenewAllIs(leases, cs, expiry);
      count := 0;
      for k := 0 to |cs|
        invariant count == k && history == old(history)
        invariant leases == RenewAll(old(leases), cs[..k], expiry)
      {
        assert cs[..k + 1][..k] == cs[..k];
        leases := leases[cs[k] := expiry];
        count := count + 1;
      }
      assert cs[..|cs|] == cs;
      history := history + [RenewMany(cs, now)];
    }

    /** The expiry of an active lease; an expired one is dropped on the way. The answer is that of the latest renewal,
      * whatever the readings, exactly when the lease is over or was not asked for too late before. */
    method ActiveUntil(c: ConversationId, now: Time) returns (expiry: Option<Time>)
      requires Valid()
      modifies this
      ensures Valid() && history == old(history) + [Ask(c, now)]
      ensures expiry == ActiveAt(old(leases), c, now)
      ensures leases == if expiry == None then old(leases) - {c} else old(leases)
      ensures var ledger := Ledger(old(history), ttl);
        expiry != ActiveAt(ledger, c, now) <==> AskedLate(old(history), ttl, c) && c in ledger && ledger[c] > now
    {
      AfterOneMore(history, Ask(c, now), ttl);
      WrongAnswerIff(history, ttl, c, now);
      history := history + [Ask(c, now)];
      if c !in leases {
        assert leases - {c} == leases;
        return None;
      }
      if leases[c] > now {
        return Some(leases[c]);
      }
      leases := leases - {c};
      return None;
    }
  }
}
