/** The membership mutexes of the session protocol: one per team in a table from which archiving and removing a team
  * delete it, even while somebody holds or awaits it. */
module MembershipMutexes {
  import opened Wrappers
  import opened SessionProtocol

  /** The membership mutex that a thread has looked up and not given back. */
  function MutexOf(pc: Pc): Option<LockId> {
    if || pc.AcquireMembership? || pc.LoadTeam? || pc.CheckPublished? || pc.LookUpEnsure? || pc.AcquireEnsure?
       || pc.Recheck? || pc.StartSession? || pc.Bootstrap? || pc.AbortKills? || pc.Publish? || pc.Reserve?
       || pc.ReserveUnderBoth?
    then Some(pc.m) else None
  }

  predicate HoldsMutex(pc: Pc) {
    MutexOf(pc).Some? && !pc.AcquireMembership?
  }

  // ---- The invariant ----

  /** A thread's mutex was handed out, and if the thread is past its acquisition, the thread owns it. */
  predicate MutexInv(ms: Members, i: ThreadId, th: Thread) {
    && (MutexOf(th.pc).Some? ==> MutexOf(th.pc).value < ms.next)
    && (HoldsMutex(th.pc) ==> th.pc.m in ms.owner && ms.owner[th.pc.m] == i)
  }

  /** An owned mutex is held by its owner: nobody forgets to give one back. */
  predicate OwnerHolds(ms: Members, threads: seq<Thread>, m: LockId)
    requires m in ms.owner
  {
    var i := ms.owner[m];
    m < ms.next && i < |threads| && HoldsMutex(threads[i].pc) && threads[i].pc.m == m
  }

  ghost predicate TableInv(ms: Members) {
    && (forall t {:trigger ms.table[t]} :: t in ms.table ==> ms.table[t] < ms.next)
    && (forall t, u {:trigger ms.table[t], ms.table[u]} ::
          t in ms.table && u in ms.table && ms.table[t] == ms.table[u] ==> t == u)
  }

  /** A mutex serves one team only, in the table and with all threads that looked it up. */
  ghost predicate OneTeam(ms: Members, threads: seq<Thread>) {
    && (forall t, i {:trigger ms.table[t], threads[i]} ::
          t in ms.table && 0 <= i < |threads| && MutexOf(threads[i].pc) == Some(ms.table[t]) ==> threads[i].team == t)
    && (forall i, j :: (0 <= i < j < |threads| && MutexOf(threads[i].pc).Some?
                       && MutexOf(threads[i].pc) == MutexOf(threads[j].pc))
          ==> threads[i].team == threads[j].team)
  }

  ghost predicate MembersInv(sv: Service) {
    && TableInv(sv.members)
    && (forall i :: 0 <= i < |sv.threads| ==> MutexInv(sv.members, i, sv.threads[i]))
    && (forall m {:trigger sv.members.owner[m]} :: m in sv.members.owner ==> OwnerHolds(sv.members, sv.threads, m))
    && OneTeam(sv.members, sv.threads)
  }

  /** What the next program counter says of the mutex: it is looked up, kept, or given back. */
  lemma MutexMoves(sh: Core, ms: Members, i: ThreadId, th: Thread, ok: bool)
    requires MutexInv(ms, i, th) && TableInv(ms)
    ensures var after, pc := MoveMembers(ms, i, th, ok), MovePc(sh, ms, th, ok);
      && MutexInv(after, i, th.(pc := pc))
      && (MutexOf(pc) == MutexOf(th.pc) || MutexOf(pc) == None || th.pc.LookUpMembership?)
      && after.next >= ms.next
  {
  }

  lemma OthersKeepMutexes(ms: Members, i: ThreadId, th: Thread, ok: bool, j: ThreadId, other: Thread)
    requires MutexInv(ms, i, th) && MutexInv(ms, j, other) && i != j
    ensures MutexInv(MoveMembers(ms, i, th, ok), j, other)
  {
  }

  lemma TableStays(ms: Members, i: ThreadId, th: Thread, ok: bool)
    requires TableInv(ms)
    ensures TableInv(MoveMembers(ms, i, th, ok))
  {
  }

  /** A mutex that is still owned after a step was owned by the same thread before, or was just acquired. */
  lemma OwnersMove(sh: Core, ms: Members, threads: seq<Thread>, i: ThreadId, ok: bool, m: LockId)
    requires i < |threads| && MutexInv(ms, i, threads[i])
    requires m in ms.owner ==> OwnerHolds(ms, threads, m)
    requires m in MoveMembers(ms, i, threads[i], ok).owner
    ensures OwnerHolds(MoveMembers(ms, i, threads[i], ok),
                       threads[i := threads[i].(pc := MovePc(sh, ms, threads[i], ok))], m)
  {
  }

  lemma TeamsMove(sh: Core, ms: Members, threads: seq<Thread>, i: ThreadId, ok: bool)
    requires i < |threads| && TableInv(ms) && OneTeam(ms, threads)
    requires forall j :: 0 <= j < |threads| ==> MutexInv(ms, j, threads[j])
    ensures OneTeam(MoveMembers(ms, i, threads[i], ok), threads[i := threads[i].(pc := MovePc(sh, ms, threads[i], ok))])
  {
    var th := threads[i];
    MutexMoves(sh, ms, i, th, ok);
    if th.pc.LookUpMembership? {
      LookUpKeepsTeams(sh, ms, threads, i, ok);
    } else {
      var after := MoveMembers(ms, i, th, ok);
      assert forall t :: t in after.table ==> t in ms.table && after.table[t] == ms.table[t];
    }
  }

  lemma LookUpKeepsTeams(sh: Core, ms: Members, threads: seq<Thread>, i: ThreadId, ok: bool)
    requires i < |threads| && TableInv(ms) && OneTeam(ms, threads) && threads[i].pc.LookUpMembership?
    requires forall j :: 0 <= j < |threads| ==> MutexInv(ms, j, threads[j])
    ensures OneTeam(MoveMembers(ms, i, threads[i], ok), threads[i := threads[i].(pc := MovePc(sh, ms, threads[i], ok))])
  {
    var after, m := MoveMembers(ms, i, threads[i], ok), MovePc(sh, ms, threads[i], ok).m;
    assert threads[i].team in after.table && after.table[threads[i].team] == m;
    forall j | 0 <= j < |threads| && j != i && MutexOf(threads[j].pc) == Some(m)
      ensures threads[j].team == threads[i].team
    {
      assert MutexInv(ms, j, threads[j]);
      assert threads[i].team in ms.table && ms.table[threads[i].team] == m;
    }
  }

  lemma AdvanceKeepsMembers(sv: Service, i: ThreadId, ok: bool, number: nat)
    requires MembersInv(sv) && i < |sv.threads|
    ensures MembersInv(Next(sv, Advance(i, ok, number)))
  {
    var th, t := sv.threads[i], Next(sv, Advance(i, ok, number));
    TableStays(sv.members, i, th, ok);
    TeamsMove(sv.core, sv.members, sv.threads, i, ok);
    forall j | 0 <= j < |t.threads|
      ensures MutexInv(t.members, j, t.threads[j])
    {
      if j == i {
        MutexMoves(sv.core, sv.members, i, th, ok);
      } else {
        OthersKeepMutexes(sv.members, i, th, ok, j, sv.threads[j]);
      }
    }
    forall m | m in t.members.owner
      ensures OwnerHolds(t.members, t.threads, m)
    {
      OwnersMove(sv.core, sv.members, sv.threads, i, ok, m);
    }
  }

  /** Every other event leaves the mutexes and the threads that there are. */
  lemma OtherEventsKeepMembers(sv: Service, event: Event)
    requires MembersInv(sv) && !event.Advance?
    ensures MembersInv(Next(sv, event))
  {
    var t := Next(sv, event);
    forall j | 0 <= j < |t.threads|
      ensures MutexInv(t.members, j, t.threads[j])
      ensures j < |sv.threads| ==> t.threads[j] == sv.threads[j]
      ensures j >= |sv.threads| ==> MutexOf(t.threads[j].pc) == None
    {
      assert j < |sv.threads| ==> MutexInv(sv.members, j, sv.threads[j]);
    }
    forall m | m in t.members.owner
      ensures OwnerHolds(t.members, t.threads, m)
    {
      assert OwnerHolds(sv.members, sv.threads, m);
    }
  }

  lemma {:induction false} ExecuteKeepsMembers(events: seq<Event>)
    ensures MembersInv(Execute(events))
  {
    if events == [] {
    } else {
      var sv, last := Execute(events[..|events| - 1]), events[|events| - 1];
      ExecuteKeepsMembers(events[..|events| - 1]);
      if last.Advance? && last.thread < |sv.threads| {
        AdvanceKeepsMembers(sv, last.thread, last.ok, last.number);
      } else if !last.Advance? {
        OtherEventsKeepMembers(sv, last);
      }
    }
  }

  // ---- Exclusion ----

  /** In every run two threads never hold the same membership mutex. */
  lemma OneHolderPerMutex(events: seq<Event>, i: ThreadId, j: ThreadId)
    requires i < |Execute(events).threads| && j < |Execute(events).threads| && i != j
    requires HoldsMutex(Execute(events).threads[i].pc) && HoldsMutex(Execute(events).threads[j].pc)
    ensures Execute(events).threads[i].pc.m != Execute(events).threads[j].pc.m
  {
    ExecuteKeepsMembers(events);
    assert MutexInv(Execute(events).members, i, Execute(events).threads[i]);
    assert MutexInv(Execute(events).members, j, Execute(events).threads[j]);
  }

  /** Event `p` of the run is a look-up of the team's mutex ... */
  ghost predicate IsLookUp(events: seq<Event>, p: nat, team: TeamId) {
    && p < |events| && events[p].Advance?
    && var sv := Execute(events[..p]);
       events[p].thread < |sv.threads| && sv.threads[events[p].thread].pc.LookUpMembership?
       && sv.threads[events[p].thread].team == team
  }

  /** ... which finds this mutex ... */
  function Found(events: seq<Event>, p: nat, team: TeamId): LockId
    requires p <= |events|
  {
    var ms := Execute(events[..p]).members;
    if team in ms.table then ms.table[team] else ms.next
  }

  /** ... and event `k` deletes the team's mutex from the table. */
  ghost predicate IsDeletion(events: seq<Event>, k: nat, team: TeamId) {
    && k < |events| && events[k].Advance?
    && var sv := Execute(events[..k]);
       events[k].thread < |sv.threads| && sv.threads[events[k].thread].pc.DeleteMembership?
       && sv.threads[events[k].thread].team == team
  }

  ghost predicate DeletedBetween(events: seq<Event>, p: nat, q: nat, team: TeamId) {
    exists k :: p < k < q && IsDeletion(events, k, team)
  }

  /** What an event does to one team's entry of the table. */
  lemma EntryMoves(events: seq<Event>, n: nat, team: TeamId)
    requires n < |events|
    ensures var a, b := Execute(events[..n]).members, Execute(events[..n + 1]).members;
      && a.next <= b.next
      && (IsDeletion(events, n, team) ==> team !in b.table)
      && (!IsDeletion(events, n, team) && team in a.table ==> team in b.table && b.table[team] == a.table[team])
      && (team !in a.table && team in b.table ==> b.table[team] == a.next)
      && (IsLookUp(events, n, team) ==>
            team in b.table && b.table[team] == Found(events, n, team) && (team !in a.table ==> b.next > a.next))
  {
    assert events[..n + 1][..n] == events[..n];
    assert Execute(events[..n + 1]) == Next(Execute(events[..n]), events[n]);
  }

  /** The team's entry is this mutex, or after a deletion a newer one or none. */
  predicate Entry(ms: Members, team: TeamId, m: LockId, deleted: bool) {
    && m < ms.next
    && (if deleted then team in ms.table ==> ms.table[team] > m else team in ms.table && ms.table[team] == m)
  }

  lemma DeletedBetweenGrows(events: seq<Event>, p: nat, n: nat, team: TeamId)
    requires p < n
    ensures DeletedBetween(events, p, n + 1, team) <==>
      DeletedBetween(events, p, n, team) || IsDeletion(events, n, team)
  {
    if k :| p < k < n && IsDeletion(events, k, team) {
      assert k < n + 1;
    }
  }

  lemma FoundIsHandedOut(events: seq<Event>, p: nat, team: TeamId)
    requires p <= |events|
    ensures Found(events, p, team) <= Execute(events[..p]).members.next
    ensures team in Execute(events[..p]).members.table ==> Found(events, p, team) < Execute(events[..p]).members.next
  {
    ExecuteKeepsMembers(events[..p]);
  }

  /** The entry after one more event, which deletes it or does not. */
  lemma EntryGoesOn(a: Members, b: Members, team: TeamId, m: LockId, deleted: bool, deletion: bool)
    requires Entry(a, team, m, deleted) && a.next <= b.next && (deletion ==> team !in b.table)
    requires !deletion && team in a.table ==> team in b.table && b.table[team] == a.table[team]
    requires team !in a.table && team in b.table ==> b.table[team] == a.next
    ensures Entry(b, team, m, deleted || deletion)
  {
  }

  lemma EntryStarts(events: seq<Event>, p: nat, team: TeamId)
    requires IsLookUp(events, p, team)
    ensures Entry(Execute(events[..p + 1]).members, team, Found(events, p, team), false)
  {
    FoundIsHandedOut(events, p, team);
    EntryMoves(events, p, team);
  }

  /** After a look-up the entry is the mutex found, until the first deletion; from then on a newer one or none. */
  lemma {:induction false} EntrySince(events: seq<Event>, p: nat, n: nat, team: TeamId)
    requires IsLookUp(events, p, team) && p < n <= |events|
    ensures Entry(Execute(events[..n]).members, team, Found(events, p, team), DeletedBetween(events, p, n, team))
    decreases n
  {
    if n == p + 1 {
      EntryStarts(events, p, team);
      assert !DeletedBetween(events, p, n, team);
    } else {
      EntrySince(events, p, n - 1, team);
      EntryMoves(events, n - 1, team);
      DeletedBetweenGrows(events, p, n - 1, team);
      EntryGoesOn(Execute(events[..n - 1]).members, Execute(events[..n]).members, team, Found(events, p, team),
                  DeletedBetween(events, p, n - 1, team), IsDeletion(events, n - 1, team));
    }
  }

  /** Two look-ups of a team's mutex find the same one exactly when it was not deleted in between. */
  lemma LookUpsAgreeIff(events: seq<Event>, p: nat, q: nat, team: TeamId)
    requires IsLookUp(events, p, team) && IsLookUp(events, q, team) && p < q
    ensures Found(events, p, team) == Found(events, q, team) <==> !DeletedBetween(events, p, q, team)
  {
    EntrySince(events, p, q, team);
  }

  /** The mutex a thread has is the one that its own look-up found. */
  lemma {:induction false} LookUpOf(events: seq<Event>, i: ThreadId) returns (p: nat)
    requires i < |Execute(events).threads| && MutexOf(Execute(events).threads[i].pc).Some?
    ensures var th := Execute(events).threads[i];
      IsLookUp(events, p, th.team) && events[p].thread == i && Found(events, p, th.team) == MutexOf(th.pc).value
  {
    var n := |events| - 1;
    var sv, last := Execute(events[..n]), events[n];
    var th := Execute(events).threads[i];
    assert Execute(events) == Next(sv, last);
    if last.Advance? && last.thread == i && sv.threads[i].pc.LookUpMembership? {
      p := n;
    } else {
      ThreadBefore(sv, last, i);
      p := LookUpOf(events[..n], i);
      assert events[..n][..p] == events[..p];
    }
  }

  lemma ThreadBefore(sv: Service, event: Event, i: ThreadId)
    requires i < |Next(sv, event).threads| && MutexOf(Next(sv, event).threads[i].pc).Some?
    requires !(event.Advance? && event.thread == i && i < |sv.threads| && sv.threads[i].pc.LookUpMembership?)
    ensures i < |sv.threads| && sv.threads[i].team == Next(sv, event).threads[i].team
    ensures MutexOf(sv.threads[i].pc) == MutexOf(Next(sv, event).threads[i].pc)
  {
  }

  /** Two callers hold membership mutexes of one team at the same time only if the mutex was deleted between their
    * look-ups. */
  lemma OverlapNeedsDeletion(events: seq<Event>, i: ThreadId, j: ThreadId) returns (p: nat, q: nat)
    requires i < |Execute(events).threads| && j < |Execute(events).threads| && i != j
    requires HoldsMutex(Execute(events).threads[i].pc) && HoldsMutex(Execute(events).threads[j].pc)
    requires Execute(events).threads[i].team == Execute(events).threads[j].team
    ensures var team := Execute(events).threads[i].team;
      p < q && IsLookUp(events, p, team) && IsLookUp(events, q, team) && DeletedBetween(events, p, q, team)
    ensures (events[p].thread == i && events[q].thread == j) || (events[p].thread == j && events[q].thread == i)
  {
    p := LookUpOf(events, i);
    q := LookUpOf(events, j);
    OneHolderPerMutex(events, i, j);
    if q < p {
      p, q := q, p;
    }
    LookUpsAgreeIff(events, p, q, Execute(events).threads[i].team);
  }

  /** A thread that deletes a team's mutex was called to. */
  lemma {:induction false} DeletersWereCalled(events: seq<Event>, i: ThreadId)
    requires i < |Execute(events).threads|
    requires Execute(events).threads[i].kind.StopAndForget? || Execute(events).threads[i].pc.DeleteMembership?
    ensures Execute(events).threads[i].kind.StopAndForget?
    ensures exists k :: 0 <= k < |events| && events[k] == CallStop(Execute(events).threads[i].team, true)
  {
    var n := |events| - 1;
    var sv, last := Execute(events[..n]), events[n];
    assert Execute(events) == Next(sv, last);
    if i < |sv.threads| {
      DeletersWereCalled(events[..n], i);
      var k :| 0 <= k < n && events[..n][k] == CallStop(sv.threads[i].team, true);
      assert events[k] == CallStop(sv.threads[i].team, true);
    } else {
      assert last == CallStop(Execute(events).threads[i].team, true);
    }
  }

  lemma DeletionWasCalled(events: seq<Event>, k: nat, team: TeamId)
    requires IsDeletion(events, k, team)
    ensures CallStop(team, true) in events
  {
    DeletersWereCalled(events[..k], events[k].thread);
    var j :| 0 <= j < k && events[..k][j] == CallStop(team, true);
    assert events[j] == CallStop(team, true);
  }

  /** A team that is never archived or removed has a membership mutex that excludes: at most one caller holds one. */
  lemma MutexExcludesUnlessForgotten(events: seq<Event>, i: ThreadId, j: ThreadId)
    requires i < |Execute(events).threads| && j < |Execute(events).threads| && i != j
    requires Execute(events).threads[i].team == Execute(events).threads[j].team
    requires CallStop(Execute(events).threads[i].team, true) !in events
    ensures !(HoldsMutex(Execute(events).threads[i].pc) && HoldsMutex(Execute(events).threads[j].pc))
  {
    if HoldsMutex(Execute(events).threads[i].pc) && HoldsMutex(Execute(events).threads[j].pc) {
      var team := Execute(events).threads[i].team;
      var p, q := OverlapNeedsDeletion(events, i, j);
      var k :| p < k < q && IsDeletion(events, k, team);
      DeletionWasCalled(events, k, team);
    }
  }
}
