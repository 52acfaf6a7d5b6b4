/** Idle cleanup: conversations of live teams are taken out of the list, and idle teams are stopped as a whole.
  *
  * The cleanup goes through the live sessions while they change. A session is what the cleanup read of it when it came
  * by, member by member. Leases are renewed and asked for by others at any time: between two asks of the cleanup,
  * between its last ask and its kills, and between two kills.
  */
module IdleCleanup {
  import opened Wrappers
  import opened Leases

  type TeamId = nat

  datatype Status = Active | Pending | Running | Finished | Archived | Deleted | Error

  datatype RuntimeTask = RuntimeTask(status: Option<Status>, lastActivity: Time)

  /** A member of a roster, and its runtime as the cleanup would find it when it asks. */
  datatype Member = Member(conversation: ConversationId, runtime: Option<RuntimeTask>)

  datatype Session = Session(team: TeamId, roster: seq<Member>, activeRun: bool)

  predicate Collectable(task: RuntimeTask, now: Time, threshold: Time) {
    && (task.status == None || task.status == Some(Pending) || task.status == Some(Finished))
    && Saturate(now - task.lastActivity) > threshold
  }

  predicate CollectableMember(m: Member, now: Time, threshold: Time) {
    m.runtime.None? || Collectable(m.runtime.value, now, threshold)
  }

  predicate Owns(s: Session, c: ConversationId) {
    exists m :: m in s.roster && m.conversation == c
  }

  predicate Touched(s: Session, idle: seq<ConversationId>) {
    exists m :: m in s.roster && m.conversation in idle
  }

  predicate AllMembersCollectable(s: Session, now: Time, threshold: Time) {
    forall m :: m in s.roster ==> CollectableMember(m, now, threshold)
  }

  predicate InSomeRoster(sessions: seq<Session>, c: ConversationId) {
    exists s :: s in sessions && Owns(s, c)
  }

  /** The conversations that belong to no live session, in order and with their repetitions. */
  ghost function Unowned(idle: seq<ConversationId>, sessions: seq<Session>): seq<ConversationId> {
    if idle == [] then []
    else
      var before, last := Unowned(idle[..|idle| - 1], sessions), idle[|idle| - 1];
      if InSomeRoster(sessions, last) then before else before + [last]
  }

  function Conversations(roster: seq<Member>): seq<ConversationId> {
    if roster == [] then [] else Conversations(roster[..|roster| - 1]) + [roster[|roster| - 1].conversation]
  }

  function Concat(stopped: seq<Session>): seq<ConversationId> {
    if stopped == [] then [] else Concat(stopped[..|stopped| - 1]) + Conversations(stopped[|stopped| - 1].roster)
  }

  // ---- The cleanup's own asks ----

  /** Operation `k` of the history asks for this lease. */
  predicate AsksFor(ops: seq<Op>, k: nat, c: ConversationId) {
    k < |ops| && ops[k] == Ask(c, ops[k].now)
  }

  /** What that ask was told: the answer of the registry at its own moment and reading. */
  function Told(ops: seq<Op>, ttl: Time, k: nat): Option<Time>
    requires k < |ops| && ops[k].Ask?
  {
    ActiveAt(After(ops[..k], ttl), ops[k].conversation, ops[k].now)
  }

  /** `asks` are the cleanup's asks for the first members of the session, in roster order. */
  predicate AsksInOrder(ops: seq<Op>, s: Session, asks: seq<nat>) {
    && |asks| <= |s.roster|
    && (forall j :: 0 <= j < |asks| ==> AsksFor(ops, asks[j], s.roster[j].conversation))
    && (forall i, j :: 0 <= i < j < |asks| ==> asks[i] < asks[j])
  }

  /** Every member was asked for, and none was found leased at its own ask. */
  predicate NoneLeased(ops: seq<Op>, ttl: Time, s: Session, asks: seq<nat>)
    requires AsksInOrder(ops, s, asks)
  {
    |asks| == |s.roster| && forall j :: 0 <= j < |asks| ==> Told(ops, ttl, asks[j]) == None
  }

  /** The last ask was told of a lease, and no ask before it. */
  predicate LastLeased(ops: seq<Op>, ttl: Time, s: Session, asks: seq<nat>)
    requires AsksInOrder(ops, s, asks)
  {
    && asks != [] && Told(ops, ttl, asks[|asks| - 1]).Some?
    && forall j :: 0 <= j < |asks| - 1 ==> Told(ops, ttl, asks[j]) == None
  }

  /** The asks that the cleanup owes a session: none if it has no idle conversation or an active run; else up to the
    * first lease, or all. */
  predicate Asked(ops: seq<Op>, ttl: Time, s: Session, idle: seq<ConversationId>, asks: seq<nat>) {
    && AsksInOrder(ops, s, asks)
    && if Touched(s, idle) && !s.activeRun then NoneLeased(ops, ttl, s, asks) || LastLeased(ops, ttl, s, asks)
       else asks == []
  }

  /** The session is to be stopped. */
  predicate Picks(ops: seq<Op>, ttl: Time, s: Session, idle: seq<ConversationId>, asks: seq<nat>, now: Time,
                  threshold: Time)
    requires AsksInOrder(ops, s, asks)
  {
    Touched(s, idle) && !s.activeRun && NoneLeased(ops, ttl, s, asks) && AllMembersCollectable(s, now, threshold)
  }

  ghost predicate AllAsked(ops: seq<Op>, ttl: Time, sessions: seq<Session>, idle: seq<ConversationId>,
                           asks: seq<seq<nat>>) {
    |asks| == |sessions| && forall i :: 0 <= i < |sessions| ==> Asked(ops, ttl, sessions[i], idle, asks[i])
  }

  /** The sessions to be stopped, in the order in which the cleanup came by. */
  ghost function Picked(ops: seq<Op>, ttl: Time, sessions: seq<Session>, idle: seq<ConversationId>, asks: seq<seq<nat>>,
      now: Time, threshold: Time): seq<Session>
    requires AllAsked(ops, ttl, sessions, idle, asks)
  {
    if sessions == [] then []
    else
      var n := |sessions| - 1;
      var before := Picked(ops, ttl, sessions[..n], idle, asks[..n], now, threshold);
      if Picks(ops, ttl, sessions[n], idle, asks[n], now, threshold) then before + [sessions[n]] else before
  }

  /** What was asked and told stays so while the history grows. */
  lemma AsksStay(ops: seq<Op>, more: seq<Op>, ttl: Time, s: Session, idle: seq<ConversationId>, asks: seq<nat>,
                 now: Time, threshold: Time)
    requires ops <= more && AsksInOrder(ops, s, asks)
    ensures AsksInOrder(more, s, asks)
    ensures NoneLeased(more, ttl, s, asks) <==> NoneLeased(ops, ttl, s, asks)
    ensures LastLeased(more, ttl, s, asks) <==> LastLeased(ops, ttl, s, asks)
    ensures Asked(more, ttl, s, idle, asks) <==> Asked(ops, ttl, s, idle, asks)
    ensures Picks(more, ttl, s, idle, asks, now, threshold) <==> Picks(ops, ttl, s, idle, asks, now, threshold)
  {
    forall j | 0 <= j < |asks|
      ensures AsksFor(ops, asks[j], s.roster[j].conversation)
      ensures more[asks[j]] == ops[asks[j]] && Told(more, ttl, asks[j]) == Told(ops, ttl, asks[j])
    {
      assert more[..asks[j]] == ops[..asks[j]];
    }
  }

  lemma EarlierAsksStay(ops: seq<Op>, more: seq<Op>, ttl: Time, s: Session, asks: seq<nat>)
    requires ops <= more && AsksInOrder(ops, s, asks)
    ensures AsksInOrder(more, s, asks)
    ensures forall j :: 0 <= j < |asks| ==> asks[j] < |ops| && Told(more, ttl, asks[j]) == Told(ops, ttl, asks[j])
  {
    forall j | 0 <= j < |asks|
      ensures AsksFor(ops, asks[j], s.roster[j].conversation)
      ensures more[asks[j]] == ops[asks[j]] && Told(more, ttl, asks[j]) == Told(ops, ttl, asks[j])
    {
      assert more[..asks[j]] == ops[..asks[j]];
    }
  }

  /** The ask for the next member, which is the latest operation of all. */
  lemma OneMoreAsk(ops: seq<Op>, s: Session, asks: seq<nat>, n: nat)
    requires AsksInOrder(ops, s, asks) && |asks| < |s.roster| && AsksFor(ops, n, s.roster[|asks|].conversation)
    requires forall j :: 0 <= j < |asks| ==> asks[j] < n
    ensures AsksInOrder(ops, s, asks + [n])
  {
  }

  lemma {:induction false} PickedStays(ops: seq<Op>, more: seq<Op>, ttl: Time, sessions: seq<Session>,
      idle: seq<ConversationId>, asks: seq<seq<nat>>, now: Time, threshold: Time)
    requires ops <= more && AllAsked(ops, ttl, sessions, idle, asks)
    ensures AllAsked(more, ttl, sessions, idle, asks)
    ensures Picked(more, ttl, sessions, idle, asks, now, threshold) ==
      Picked(ops, ttl, sessions, idle, asks, now, threshold)
  {
    forall i | 0 <= i < |sessions|
      ensures Asked(more, ttl, sessions[i], idle, asks[i])
    {
      AsksStay(ops, more, ttl, sessions[i], idle, asks[i], now, threshold);
    }
    if sessions == [] {
    } else {
      var n := |sessions| - 1;
      PickedStays(ops, more, ttl, sessions[..n], idle, asks[..n], now, threshold);
      AsksStay(ops, more, ttl, sessions[n], idle, asks[n], now, threshold);
    }
  }

  // ---- The cleanup ----

  /** Other callers renew and ask for leases, as often as they like and with any readings. */
  method OthersUse(leases: ActiveLeaseRegistry)
    requires leases.Valid()
    modifies leases
    ensures leases.Valid() && old(leases.history) <= leases.history
  {
    var times: nat :| times >= 0;
    for k := 0 to times
      invariant leases.Valid() && old(leases.history) <= leases.history
    {
      var c: ConversationId := *;
      var more: seq<ConversationId> := *;
      var now: Time := *;
      var asks: bool := *;
      if asks {
        var _ := leases.ActiveUntil(c, now);
      } else if more == [] {
        var _ := leases.RenewOne(c, now);
      } else {
        var _, _ := leases.RenewEach(more, now);
      }
    }
  }

  /** Asks for one lease, after whatever others have done. */
  method AskForOne(c: ConversationId, leases: ActiveLeaseRegistry) returns (expiry: Option<Time>, ghost n: nat)
    requires leases.Valid()
    modifies leases
    ensures leases.Valid() && old(leases.history) <= leases.history && n >= |old(leases.history)|
    ensures AsksFor(leases.history, n, c) && Told(leases.history, leases.ttl, n) == expiry
  {
    OthersUse(leases);
    n := |leases.history|;
    var now: Time := *;
    expiry := leases.ActiveUntil(c, now);
    assert leases.history[..n] == leases.history[..|leases.history| - 1];
  }

  /** Asks for the lease of one member after the other, up to the first active one, whatever others do in between. */
  method AnyLeased(s: Session, leases: ActiveLeaseRegistry) returns (leased: bool, ghost asks: seq<nat>)
    requires leases.Valid()
    modifies leases
    ensures leases.Valid() && old(leases.history) <= leases.history
    ensures AsksInOrder(leases.history, s, asks) && forall j :: 0 <= j < |asks| ==> asks[j] >= |old(leases.history)|
    ensures if leased then LastLeased(leases.history, leases.ttl, s, asks)
            else NoneLeased(leases.history, leases.ttl, s, asks)
  {
    asks := [];
    for k := 0 to |s.roster|
      invariant leases.Valid() && old(leases.history) <= leases.history && |asks| == k
      invariant AsksInOrder(leases.history, s, asks) && forall j :: 0 <= j < |asks| ==> asks[j] >= |old(leases.history)|
      invariant forall j :: 0 <= j < |asks| ==> Told(leases.history, leases.ttl, asks[j]) == None
    {
      ghost var before := leases.history;
      var expiry, n := AskForOne(s.roster[k].conversation, leases);
      EarlierAsksStay(before, leases.history, leases.ttl, s, asks);
      OneMoreAsk(leases.history, s, asks, n);
      asks := asks + [n];
      if expiry.Some? {
        return true, asks;
      }
    }
    leased := false;
  }

  /** How many members of the roster are in the idle list. */
  method MatchedIdleCount(s: Session, idle: seq<ConversationId>) returns (count: nat)
    ensures count == 0 <==> !Touched(s, idle)
  {
    count := 0;
    for k := 0 to |s.roster|
      invariant count == 0 <==> forall j :: 0 <= j < k ==> s.roster[j].conversation !in idle
    {
      if s.roster[k].conversation in idle {
        count := count + 1;
      }
    }
  }

  method AllCollectable(s: Session, now: Time, threshold: Time) returns (all: bool)
    ensures all <==> AllMembersCollectable(s, now, threshold)
  {
    for k := 0 to |s.roster|
      invariant forall j :: 0 <= j < k ==> CollectableMember(s.roster[j], now, threshold)
    {
      var runtime := s.roster[k].runtime;
      if runtime.Some? && !Collectable(runtime.value, now, threshold) {
        assert s.roster[k] in s.roster && !CollectableMember(s.roster[k], now, threshold);
        return false;
      }
    }
    all := true;
  }

  /** Decides whether to stop one session, with the source's four checks in their order. */
  method Decide(s: Session, idle: seq<ConversationId>, leases: ActiveLeaseRegistry, now: Time, threshold: Time)
    returns (touched: bool, pick: bool, ghost asks: seq<nat>)
    requires leases.Valid()
    modifies leases
    ensures leases.Valid() && old(leases.history) <= leases.history
    ensures touched <==> Touched(s, idle)
    ensures Asked(leases.history, leases.ttl, s, idle, asks)
    ensures pick <==> Picks(leases.history, leases.ttl, s, idle, asks, now, threshold)
  {
    pick, asks := false, [];
    var count := MatchedIdleCount(s, idle);
    touched := count > 0;
    if !touched || s.activeRun {
      return;
    }
    var leased;
    leased, asks := AnyLeased(s, leases);
    if leased {
      return;
    }
    pick := AllCollectable(s, now, threshold);
  }

  /** The members of the touched sessions among the first `k`. */
  ghost predicate Handles(sessions: seq<Session>, k: nat, idle: seq<ConversationId>, handled: set<ConversationId>)
    requires k <= |sessions|
  {
    forall c :: c in handled <==> exists j :: 0 <= j < k && Touched(sessions[j], idle) && Owns(sessions[j], c)
  }

  function OwnedBy(s: Session): set<ConversationId> {
    set m | m in s.roster :: m.conversation
  }

  lemma HandledGrows(sessions: seq<Session>, k: nat, idle: seq<ConversationId>, handled: set<ConversationId>)
    requires k < |sessions| && Handles(sessions, k, idle, handled)
    ensures Handles(sessions, k + 1, idle,
      if Touched(sessions[k], idle) then handled + OwnedBy(sessions[k]) else handled)
  {
    assert forall c :: c in OwnedBy(sessions[k]) <==> Owns(sessions[k], c);
  }

  lemma HandledExactlyOwned(sessions: seq<Session>, idle: seq<ConversationId>, handled: set<ConversationId>)
    requires Handles(sessions, |sessions|, idle, handled)
    ensures forall c :: c in idle ==> (c in handled <==> InSomeRoster(sessions, c))
  {
    forall c | c in idle
      ensures c in handled <==> InSomeRoster(sessions, c)
    {
      if InSomeRoster(sessions, c) {
        var s :| s in sessions && Owns(s, c);
        var j :| 0 <= j < |sessions| && sessions[j] == s;
        assert Touched(sessions[j], idle);
      }
    }
  }

  lemma PickedGrows(ops: seq<Op>, ttl: Time, sessions: seq<Session>, k: nat, idle: seq<ConversationId>,
                    asks: seq<seq<nat>>, own: seq<nat>, now: Time, threshold: Time)
    requires k < |sessions| && AllAsked(ops, ttl, sessions[..k], idle, asks) && Asked(ops, ttl, sessions[k], idle, own)
    ensures AllAsked(ops, ttl, sessions[..k + 1], idle, asks + [own])
    ensures var before := Picked(ops, ttl, sessions[..k], idle, asks, now, threshold);
      Picked(ops, ttl, sessions[..k + 1], idle, asks + [own], now, threshold)
        == if Picks(ops, ttl, sessions[k], idle, own, now, threshold) then before + [sessions[k]] else before
  {
    assert sessions[..k + 1][..k] == sessions[..k] && (asks + [own])[..k] == asks;
    assert forall i :: 0 <= i < k ==> sessions[..k + 1][i] == sessions[..k][i] && (asks + [own])[i] == asks[i];
  }

  /** Goes by every session once: collects what it owns, and decides whether to stop it. */
  method PickIdleTeams(sessions: seq<Session>, idle: seq<ConversationId>, leases: ActiveLeaseRegistry, now: Time,
      threshold: Time) returns (handled: set<ConversationId>, stopped: seq<Session>, ghost asks: seq<seq<nat>>)
    requires leases.Valid()
    modifies leases
    ensures leases.Valid() && old(leases.history) <= leases.history
    ensures Handles(sessions, |sessions|, idle, handled)
    ensures AllAsked(leases.history, leases.ttl, sessions, idle, asks)
    ensures stopped == Picked(leases.history, leases.ttl, sessions, idle, asks, now, threshold)
  {
    handled, stopped, asks := {}, [], [];
    for k := 0 to |sessions|
      invariant leases.Valid() && old(leases.history) <= leases.history
      invariant Handles(sessions, k, idle, handled)
      invariant AllAsked(leases.history, leases.ttl, sessions[..k], idle, asks)
      invariant stopped == Picked(leases.history, leases.ttl, sessions[..k], idle, asks, now, threshold)
    {
      var s := sessions[k];
      ghost var before := leases.history;
      ghost var own;
      var touched, pick;
      touched, pick, own := Decide(s, idle, leases, now, threshold);
      PickedStays(before, leases.history, leases.ttl, sessions[..k], idle, asks, now, threshold);
      PickedGrows(leases.history, leases.ttl, sessions, k, idle, asks, own, now, threshold);
      HandledGrows(sessions, k, idle, handled);
      asks := asks + [own];
      if touched {
        handled := handled + OwnedBy(s);
      }
      if pick {
        stopped := stopped + [s];
      }
    }
    assert sessions[..|sessions|] == sessions;
  }

  /** Stops the sessions and kills their members one by one. */
  method StopAndKill(stopped: seq<Session>, leases: ActiveLeaseRegistry) returns (killed: seq<ConversationId>)
    requires leases.Valid()
    modifies leases
    ensures leases.Valid() && old(leases.history) <= leases.history
    ensures killed == Concat(stopped)
  {
    killed := [];
    for k := 0 to |stopped|
      invariant leases.Valid() && old(leases.history) <= leases.history
      invariant killed == Concat(stopped[..k])
    {
      assert stopped[..k + 1][..k] == stopped[..k];
      var roster := stopped[k].roster;
      for j := 0 to |roster|
        invariant leases.Valid() && old(leases.history) <= leases.history
        invariant killed == Concat(stopped[..k]) + Conversations(roster[..j])
      {
        assert roster[..j + 1][..j] == roster[..j];
        OthersUse(leases);
        killed := killed + [roster[j].conversation];
      }
      assert roster[..|roster|] == roster;
    }
    assert stopped[..|stopped|] == stopped;
  }

  /** Stops every idle team none of whose members was found leased at its own ask, and kills all of its members; returns
    * the idle conversations that no live session owns. */
  method CleanupIdleTeams(sessions: seq<Session>, idle: seq<ConversationId>, leases: ActiveLeaseRegistry, now: Time,
      threshold: Time)
    returns (rest: seq<ConversationId>, stopped: seq<Session>, killed: seq<ConversationId>, ghost asks: seq<seq<nat>>)
    requires leases.Valid()
    modifies leases
    ensures leases.Valid() && old(leases.history) <= leases.history
    ensures rest == Unowned(idle, sessions)
    ensures idle == [] ==> stopped == []
    ensures idle != [] ==> AllAsked(leases.history, leases.ttl, sessions, idle, asks)
    ensures idle != [] ==> stopped == Picked(leases.history, leases.ttl, sessions, idle, asks, now, threshold)
    ensures killed == Concat(stopped)
  {
    rest, stopped, killed, asks := [], [], [], [];
    if idle == [] {
      return;
    }
    var handled;
    handled, stopped, asks := PickIdleTeams(sessions, idle, leases, now, threshold);
    ghost var before := leases.history;
    killed := StopAndKill(stopped, leases);
    PickedStays(before, leases.history, leases.ttl, sessions, idle, asks, now, threshold);
    HandledExactlyOwned(sessions, idle, handled);
    for k := 0 to |idle|
      invariant rest == Unowned(idle[..k], sessions)
    {
      assert idle[..k + 1][..k] == idle[..k];
      assert idle[k] in idle;
      if idle[k] !in handled {
        rest := rest + [idle[k]];
      }
    }
    assert idle[..|idle|] == idle;
  }

  // ---- What the contract means for one conversation ----

  /** A conversation occurs in the returned list as often as in the idle list, or not at all when a session owns it. */
  lemma {:induction false} UnownedCounts(idle: seq<ConversationId>, sessions: seq<Session>, c: ConversationId)
    ensures multiset(Unowned(idle, sessions))[c] == if InSomeRoster(sessions, c) then 0 else multiset(idle)[c]
  {
    if idle == [] {
    } else {
      UnownedCounts(idle[..|idle| - 1], sessions, c);
      assert idle == idle[..|idle| - 1] + [idle[|idle| - 1]];
    }
  }

  /** The returned list, and the list of the killed, are made piece by piece: owned conversations go, the rest stays in
    * order; sessions are killed in the order in which they were picked, and members in roster order. */
  lemma {:induction false} UnownedByPieces(a: seq<ConversationId>, c: ConversationId, b: seq<ConversationId>,
      sessions: seq<Session>)
    ensures Unowned(a + [c] + b, sessions) ==
      Unowned(a, sessions) + (if InSomeRoster(sessions, c) then [] else [c]) + Unowned(b, sessions)
  {
    var x := a + [c] + b;
    if b == [] {
      assert x[..|x| - 1] == a;
    } else {
      UnownedByPieces(a, c, b[..|b| - 1], sessions);
      assert x[..|x| - 1] == a + [c] + b[..|b| - 1] && x[|x| - 1] == b[|b| - 1];
    }
  }

  lemma Regrouped(a: seq<ConversationId>, b: seq<ConversationId>, c: seq<ConversationId>, d: seq<ConversationId>)
    ensures (a + b + c) + d == a + b + (c + d)
  {
  }

  lemma {:induction false} ConcatByPieces(a: seq<Session>, s: Session, b: seq<Session>)
    ensures Concat(a + [s] + b) == Concat(a) + Conversations(s.roster) + Concat(b)
  {
    var x := a + [s] + b;
    if b == [] {
      assert x[..|x| - 1] == a;
      assert Concat(a) + Conversations(s.roster) + [] == Concat(a) + Conversations(s.roster);
    } else {
      var init, last := b[..|b| - 1], b[|b| - 1];
      ConcatByPieces(a, s, init);
      assert x[..|x| - 1] == a + [s] + init && x[|x| - 1] == last;
      Regrouped(Concat(a), Conversations(s.roster), Concat(init), Conversations(last.roster));
    }
  }

  lemma {:induction false} ConversationsInOrder(roster: seq<Member>)
    ensures |Conversations(roster)| == |roster|
    ensures forall k :: 0 <= k < |roster| ==> Conversations(roster)[k] == roster[k].conversation
  {
    if roster == [] {
    } else {
      ConversationsInOrder(roster[..|roster| - 1]);
    }
  }

  lemma {:induction false} ConversationsOf(roster: seq<Member>, c: ConversationId)
    ensures c in Conversations(roster) <==> exists m :: m in roster && m.conversation == c
  {
    if roster == [] {
    } else {
      ConversationsOf(roster[..|roster| - 1], c);
      assert roster == roster[..|roster| - 1] + [roster[|roster| - 1]];
    }
  }

  lemma {:induction false} KilledMembersBelongToStoppedTeams(stopped: seq<Session>, c: ConversationId)
    ensures c in Concat(stopped) <==> exists s :: s in stopped && Owns(s, c)
  {
    if stopped == [] {
    } else {
      KilledMembersBelongToStoppedTeams(stopped[..|stopped| - 1], c);
      var last := stopped[|stopped| - 1];
      ConversationsOf(last.roster, c);
      assert stopped == stopped[..|stopped| - 1] + [last];
      assert c in Conversations(last.roster) <==> Owns(last, c);
    }
  }

  lemma {:induction false} PickedSessions(ops: seq<Op>, ttl: Time, sessions: seq<Session>, idle: seq<ConversationId>,
      asks: seq<seq<nat>>, now: Time, threshold: Time, s: Session) returns (i: nat)
    requires AllAsked(ops, ttl, sessions, idle, asks) && s in Picked(ops, ttl, sessions, idle, asks, now, threshold)
    ensures i < |sessions| && sessions[i] == s && Picks(ops, ttl, s, idle, asks[i], now, threshold)
  {
    var n := |sessions| - 1;
    if s in Picked(ops, ttl, sessions[..n], idle, asks[..n], now, threshold) {
      i := PickedSessions(ops, ttl, sessions[..n], idle, asks[..n], now, threshold, s);
    } else {
      i := n;
    }
  }

  /** A killed conversation was asked for by the cleanup and not found leased then. */
  lemma KilledMembersWereAskedFor(ops: seq<Op>, ttl: Time, sessions: seq<Session>, idle: seq<ConversationId>,
      asks: seq<seq<nat>>, now: Time, threshold: Time, c: ConversationId) returns (i: nat, j: nat)
    requires AllAsked(ops, ttl, sessions, idle, asks)
    requires c in Concat(Picked(ops, ttl, sessions, idle, asks, now, threshold))
    ensures i < |sessions| && j < |asks[i]| && Picks(ops, ttl, sessions[i], idle, asks[i], now, threshold)
    ensures AsksFor(ops, asks[i][j], c) && Told(ops, ttl, asks[i][j]) == None
  {
    var stopped := Picked(ops, ttl, sessions, idle, asks, now, threshold);
    KilledMembersBelongToStoppedTeams(stopped, c);
    var s :| s in stopped && Owns(s, c);
    i := PickedSessions(ops, ttl, sessions, idle, asks, now, threshold, s);
    var m :| m in s.roster && m.conversation == c;
    j :| 0 <= j < |s.roster| && s.roster[j] == m;
  }

  /** A stopped session has an idle conversation, no run of its own, and no member at work: each runtime it read was
    * waiting or done, and untouched for longer than the threshold. */
  lemma StoppedTeamsWereIdle(ops: seq<Op>, ttl: Time, sessions: seq<Session>, idle: seq<ConversationId>,
      asks: seq<seq<nat>>, now: Time, threshold: Time, s: Session)
    requires AllAsked(ops, ttl, sessions, idle, asks) && s in Picked(ops, ttl, sessions, idle, asks, now, threshold)
    ensures s in sessions && !s.activeRun && exists c :: c in idle && Owns(s, c)
    ensures forall m :: m in s.roster && m.runtime.Some? ==>
      && m.runtime.value.status !in {Some(Active), Some(Running), Some(Archived), Some(Deleted), Some(Error)}
      && (MIN_TIME <= now - m.runtime.value.lastActivity <= MAX_TIME ==> now - m.runtime.value.lastActivity > threshold)
  {
    var i := PickedSessions(ops, ttl, sessions, idle, asks, now, threshold, s);
    var m :| m in s.roster && m.conversation in idle;
    assert Owns(s, m.conversation);
    assert forall m :: m in s.roster ==> CollectableMember(m, now, threshold);
  }

  /** And a session of that kind is spared exactly when one of its members was told of a lease. */
  lemma {:induction false} IdleTeamsAreSparedIff(ops: seq<Op>, ttl: Time, sessions: seq<Session>,
      idle: seq<ConversationId>, asks: seq<seq<nat>>, now: Time, threshold: Time, i: nat)
    requires AllAsked(ops, ttl, sessions, idle, asks) && i < |sessions|
    requires forall j :: 0 <= j < |sessions| && j != i ==> sessions[j] != sessions[i]
    requires Touched(sessions[i], idle) && !sessions[i].activeRun && AllMembersCollectable(sessions[i], now, threshold)
    ensures sessions[i] !in Picked(ops, ttl, sessions, idle, asks, now, threshold) <==>
      asks[i] != [] && Told(ops, ttl, asks[i][|asks[i]| - 1]).Some?
  {
    var n := |sessions| - 1;
    var before := Picked(ops, ttl, sessions[..n], idle, asks[..n], now, threshold);
    assert Asked(ops, ttl, sessions[i], idle, asks[i]);
    if i == n {
      if sessions[i] in before {
        var j := PickedSessions(ops, ttl, sessions[..n], idle, asks[..n], now, threshold, sessions[i]);
      }
    } else {
      IdleTeamsAreSparedIff(ops, ttl, sessions[..n], idle, asks[..n], now, threshold, i);
    }
  }

  /** From a moment at which the lease was over, to the end. */
  lemma LeasedLaterIff(ops: seq<Op>, ttl: Time, c: ConversationId, k: nat, moment: Time, last: Time)
    requires k < |ops| && !Renews(ops[k], c) && moment <= last
    requires ActiveAt(Ledger(ops[..k], ttl), c, moment) == None
    ensures ActiveAt(Ledger(ops, ttl), c, last).Some?
       <==> exists r: nat :: k < r && LatestRenewal(ops, c, r) && Saturate(ops[r].now + ttl) > last
  {
    var r := RenewedOrUnchanged(ops, ttl, c, k);
    if r: nat :| k < r && LatestRenewal(ops, c, r) {
      LedgerIsLatest(ops, ttl, c, r);
    }
    if k <= r && LatestRenewal(ops, c, r) {
      assert k < r;
      LedgerIsLatest(ops, ttl, c, r);
    }
  }

  /** A member that was not found leased at its own ask `k` has an active lease at the end exactly when it was renewed
    * after that ask and the last renewal is still due; the readings so far did not go back, and end at `last`. */
  lemma LeasedAfterAskIff(ops: seq<Op>, ttl: Time, c: ConversationId, k: nat, last: Time)
    requires Monotone(ops) && forall i :: 0 <= i < |ops| ==> ops[i].now <= last
    requires AsksFor(ops, k, c) && Told(ops, ttl, k) == None
    ensures ActiveAt(Ledger(ops, ttl), c, last).Some?
       <==> exists r: nat :: k < r && LatestRenewal(ops, c, r) && Saturate(ops[r].now + ttl) > last
  {
    DroppingIsInvisible(ops[..k], ttl, c, ops[k].now);
    LeasedLaterIff(ops, ttl, c, k, ops[k].now, last);
  }

  /** So a member killed by the cleanup is leased at the end exactly when somebody renewed its lease after the cleanup's
    * own ask for it, and that lease is still due. */
  lemma KilledMemberIsLeasedIff(ops: seq<Op>, ttl: Time, sessions: seq<Session>, idle: seq<ConversationId>,
      asks: seq<seq<nat>>, now: Time, threshold: Time, c: ConversationId, last: Time) returns (k: nat)
    requires AllAsked(ops, ttl, sessions, idle, asks)
    requires c in Concat(Picked(ops, ttl, sessions, idle, asks, now, threshold))
    requires Monotone(ops) && forall i :: 0 <= i < |ops| ==> ops[i].now <= last
    ensures AsksFor(ops, k, c) && exists i :: 0 <= i < |asks| && k in asks[i]
    ensures ActiveAt(Ledger(ops, ttl), c, last).Some?
       <==> exists r: nat :: k < r && LatestRenewal(ops, c, r) && Saturate(ops[r].now + ttl) > last
  {
    var i, j := KilledMembersWereAskedFor(ops, ttl, sessions, idle, asks, now, threshold, c);
    k := asks[i][j];
    LeasedAfterAskIff(ops, ttl, c, k, last);
  }

  /** A run in which that happens: the team's one member is renewed after its ask, and killed with a lease to run. */
  lemma RenewedMembersCanBeKilled(c: ConversationId, team: TeamId, start: Time, ttl: Time)
    requires 0 < ttl && MIN_TIME <= start && start + ttl <= MAX_TIME
    ensures var ops := [Ask(c, start), Renew(c, start)];
      var sessions := [Session(team, [Member(c, None)], false)];
      && AllAsked(ops, ttl, sessions, [c], [[0]])
      && Concat(Picked(ops, ttl, sessions, [c], [[0]], start, 0)) == [c]
      && ActiveAt(Ledger(ops, ttl), c, start) == Some(start + ttl)
  {
    var ops := [Ask(c, start), Renew(c, start)];
    var s := Session(team, [Member(c, None)], false);
    assert ops[..0] == [] && ops[..1] == [Ask(c, start)] && ops[..1][..0] == [];
    assert Ledger(ops[..1], ttl) == map[];
    assert s.roster[0] in s.roster;
    assert Picks(ops, ttl, s, [c], [0], start, 0);
    assert [s][..0] == [] && [[0]][..0] == [];
    assert Picked(ops, ttl, [s], [c], [[0]], start, 0) == [s];
    assert s.roster[..0] == [] && Conversations(s.roster) == [c];
  }
}
