/** Starting, publishing, stopping and cleaning up team sessions, by any number of concurrent callers.
  *
  * A caller is a program counter over the service's shared maps. Two tables hold one mutex per team: the ensure
  * table never loses an entry, while archiving or removing a team deletes its membership mutex even if somebody
  * holds it. Every await, and every point between two map operations, is an interleaving point.
  */
module SessionProtocol {
  import opened Wrappers

  type TeamId = nat
  type SessionId = nat
  type ThreadId = nat
  type LockId = nat

  /** A conversation id is minted for one agent of one team. */
  datatype Conversation = Conversation(team: TeamId, number: nat)

  /** What became of a session. A history variable: no step reads it. */
  datatype Phase = Bootstrapping(owner: ThreadId) | Live | Stopping(stopper: ThreadId) | Stopped

  datatype Session = Session(team: TeamId, phase: Phase)

  datatype Pc =
    // ensure callers; `m` and `e` are the membership and ensure mutexes they looked up
    | LookUpMembership
    | AcquireMembership(m: LockId)
    | LoadTeam(m: LockId)
    | CheckPublished(m: LockId)
    | LookUpEnsure(m: LockId)
    | AcquireEnsure(m: LockId, e: LockId)
    | Recheck(m: LockId, e: LockId)
    | StartSession(m: LockId, e: LockId)
    | Bootstrap(m: LockId, e: LockId, session: SessionId)
    | AbortKills(m: LockId, e: LockId, session: SessionId)
    | Publish(m: LockId, e: LockId, session: SessionId)
    | Recover(e: LockId)
    | Reserve(m: LockId)
    | ReserveUnderBoth(m: LockId, e: LockId)
    // stop callers
    | RemovePublished
    | StopSession(session: SessionId)
    | KillRuntimes
    | DeleteMembership
    // cleanup of a stale attach of a captured session
    | CleanupLookUp(session: SessionId, conversation: Conversation)
    | CleanupAcquire(session: SessionId, conversation: Conversation, e: LockId)
    | CleanupCheck(session: SessionId, conversation: Conversation, e: LockId)
    | CleanupKill(session: SessionId, conversation: Conversation, e: LockId)
    | Finished

  datatype Kind = EnsureTeam | EnsureAgent | Stop | StopAndForget | Cleanup

  datatype Thread = Thread(team: TeamId, kind: Kind, pc: Pc)

  /** The maps that decide which session lives: the published sessions, the ensure mutexes and the runtimes. */
  datatype Core = Core(
    published: map<TeamId, SessionId>,
    sessions: seq<Session>,
    ensureTable: map<TeamId, LockId>,
    ensureOwner: map<LockId, ThreadId>,
    nextEnsure: LockId,
    runtimes: map<Conversation, SessionId>)

  /** The membership mutexes, whose table loses entries. */
  datatype Members = Members(table: map<TeamId, LockId>, owner: map<LockId, ThreadId>, next: LockId)

  datatype Service = Service(core: Core, members: Members, threads: seq<Thread>)

  /** How a step that awaits something outside turns out; `number` picks the conversation a kill is for. */
  datatype Event =
    | CallEnsure(team: TeamId, agentOnly: bool)
    | CallStop(team: TeamId, forgetTeam: bool)
    | CallCleanup(session: SessionId, number: nat)
    | Warm(session: SessionId, number: nat)      // an attach of this session, however late, brings a runtime up
    | KillMember(conversation: Conversation)     // removal of a member kills its runtime
    | Advance(thread: ThreadId, ok: bool, number: nat)

  function SetPhase(sh: Core, s: SessionId, phase: Phase): Core {
    if s < |sh.sessions| then sh.(sessions := sh.sessions[s := sh.sessions[s].(phase := phase)]) else sh
  }

  function UnlockEnsure(sh: Core, e: LockId): Core {
    sh.(ensureOwner := sh.ensureOwner - {e})
  }

  /** The team's ensure mutex is created on first use. */
  function NameEnsureLock(sh: Core, team: TeamId): Core {
    if team in sh.ensureTable then sh
    else sh.(ensureTable := sh.ensureTable[team := sh.nextEnsure], nextEnsure := sh.nextEnsure + 1)
  }

  function Kill(sh: Core, c: Conversation): Core {
    sh.(runtimes := sh.runtimes - {c})
  }

  /** What a step of thread `i` does to the maps it shares under the ensure mutex. */
  function MoveCore(sh: Core, i: ThreadId, th: Thread, ok: bool, number: nat): Core {
    var team := th.team;
    match th.pc
    case LookUpEnsure(_) => NameEnsureLock(sh, team)
    case CleanupLookUp(_, _) => NameEnsureLock(sh, team)
    case AcquireEnsure(_, e) => if e in sh.ensureOwner then sh else sh.(ensureOwner := sh.ensureOwner[e := i])
    case CleanupAcquire(_, _, e) => if e in sh.ensureOwner then sh else sh.(ensureOwner := sh.ensureOwner[e := i])
    case Recheck(_, e) => if team in sh.published && !th.kind.EnsureTeam? then UnlockEnsure(sh, e) else sh
    case StartSession(_, e) =>
      if ok then sh.(sessions := sh.sessions + [Session(team, Bootstrapping(i))]) else UnlockEnsure(sh, e)
    case Bootstrap(_, _, s) => if ok then sh else SetPhase(sh, s, Stopped)
    case AbortKills(_, e, _) => if ok then UnlockEnsure(sh, e) else Kill(sh, Conversation(team, number))
    case Publish(_, e, s) =>
      var sh' := SetPhase(sh.(published := sh.published[team := s]), s, Live);
      if th.kind.EnsureTeam? then sh' else UnlockEnsure(sh', e)
    case Recover(e) => UnlockEnsure(sh, e)
    case ReserveUnderBoth(_, e) => UnlockEnsure(sh, e)
    case RemovePublished =>
      if team !in sh.published then sh
      else SetPhase(sh.(published := sh.published - {team}), sh.published[team], Stopping(i))
    case StopSession(s) => SetPhase(sh, s, Stopped)
    case KillRuntimes => if ok then sh else Kill(sh, Conversation(team, number))
    case CleanupCheck(s, _, e) => if team in sh.published && sh.published[team] != s then UnlockEnsure(sh, e) else sh
    case CleanupKill(_, c, e) => UnlockEnsure(Kill(sh, c), e)
    case _ => sh
  }

  /** What the step does to the membership mutexes. */
  function MoveMembers(ms: Members, i: ThreadId, th: Thread, ok: bool): Members {
    match th.pc
    case LookUpMembership =>
      if th.team in ms.table then ms else ms.(table := ms.table[th.team := ms.next], next := ms.next + 1)
    case AcquireMembership(m) => if m in ms.owner then ms else ms.(owner := ms.owner[m := i])
    case LoadTeam(m) => if ok then ms else ms.(owner := ms.owner - {m})
    case StartSession(m, _) => if ok then ms else ms.(owner := ms.owner - {m})
    case AbortKills(m, _, _) => if ok then ms.(owner := ms.owner - {m}) else ms
    case Publish(m, _, _) => if th.kind.EnsureTeam? then ms.(owner := ms.owner - {m}) else ms
    case Reserve(m) => ms.(owner := ms.owner - {m})
    case ReserveUnderBoth(m, _) => ms.(owner := ms.owner - {m})
    case DeleteMembership => ms.(table := ms.table - {th.team})
    case _ => ms
  }

  /** Where the thread is after the step; a blocked acquisition stays where it is. */
  function MovePc(sh: Core, ms: Members, th: Thread, ok: bool): Pc {
    match th.pc
    case LookUpMembership => AcquireMembership(if th.team in ms.table then ms.table[th.team] else ms.next)
    case AcquireMembership(m) => if m in ms.owner then th.pc else LoadTeam(m)
    case LoadTeam(m) => if ok then CheckPublished(m) else Finished
    case CheckPublished(m) => if th.team in sh.published then Reserve(m) else LookUpEnsure(m)
    case LookUpEnsure(m) =>
      AcquireEnsure(m, if th.team in sh.ensureTable then sh.ensureTable[th.team] else sh.nextEnsure)
    case AcquireEnsure(m, e) => if e in sh.ensureOwner then th.pc else Recheck(m, e)
    case Recheck(m, e) =>
      if th.team !in sh.published then StartSession(m, e)
      else if th.kind.EnsureTeam? then ReserveUnderBoth(m, e) else Reserve(m)
    case StartSession(m, e) =>
      if !ok then Finished
      else if th.kind.EnsureTeam? then Bootstrap(m, e, |sh.sessions|) else Publish(m, e, |sh.sessions|)
    case Bootstrap(m, e, s) => if ok then Publish(m, e, s) else AbortKills(m, e, s)
    case AbortKills(_, _, _) => if ok then Finished else th.pc
    case Publish(m, e, _) => if th.kind.EnsureTeam? then Recover(e) else Reserve(m)
    case RemovePublished => if th.team in sh.published then StopSession(sh.published[th.team]) else KillRuntimes
    case StopSession(_) => KillRuntimes
    case KillRuntimes => if !ok then th.pc else if th.kind.StopAndForget? then DeleteMembership else Finished
    case CleanupLookUp(s, c) =>
      CleanupAcquire(s, c, if th.team in sh.ensureTable then sh.ensureTable[th.team] else sh.nextEnsure)
    case CleanupAcquire(s, c, e) => if e in sh.ensureOwner then th.pc else CleanupCheck(s, c, e)
    case CleanupCheck(s, c, e) =>
      if th.team in sh.published && sh.published[th.team] != s then Finished else CleanupKill(s, c, e)
    case _ => Finished
  }

  function Next(sv: Service, event: Event): Service {
    match event
    case CallEnsure(team, agentOnly) =>
      sv.(threads := sv.threads + [Thread(team, if agentOnly then EnsureAgent else EnsureTeam, LookUpMembership)])
    case CallStop(team, forgetTeam) =>
      sv.(threads := sv.threads + [Thread(team, if forgetTeam then StopAndForget else Stop, RemovePublished)])
    case CallCleanup(s, number) =>
      if s < |sv.core.sessions| then
        var team := sv.core.sessions[s].team;
        sv.(threads := sv.threads + [Thread(team, Cleanup, CleanupLookUp(s, Conversation(team, number)))])
      else sv
    case Warm(s, number) =>
      if s < |sv.core.sessions| then
        var c := Conversation(sv.core.sessions[s].team, number);
        sv.(core := sv.core.(runtimes := sv.core.runtimes[c := s]))
      else sv
    case KillMember(c) => sv.(core := Kill(sv.core, c))
    case Advance(i, ok, number) =>
      if i < |sv.threads| then
        var th := sv.threads[i];
        Service(MoveCore(sv.core, i, th, ok, number), MoveMembers(sv.members, i, th, ok),
                sv.threads[i := th.(pc := MovePc(sv.core, sv.members, th, ok))])
      else sv
  }

  const EMPTY := Service(Core(map[], [], map[], map[], 0, map[]), Members(map[], map[], 0), [])

  function Execute(events: seq<Event>): Service {
    if events == [] then EMPTY else Next(Execute(events[..|events| - 1]), events[|events| - 1])
  }

  // ---- The invariant ----

  /** The ensure mutex a thread has looked up. */
  function EnsureOf(pc: Pc): Option<LockId> {
    if || pc.AcquireEnsure? || pc.Recheck? || pc.StartSession? || pc.Bootstrap? || pc.AbortKills? || pc.Publish?
       || pc.Recover? || pc.ReserveUnderBoth? || pc.CleanupAcquire? || pc.CleanupCheck? || pc.CleanupKill?
    then Some(pc.e) else None
  }

  predicate HoldsEnsure(pc: Pc) {
    EnsureOf(pc).Some? && !pc.AcquireEnsure? && !pc.CleanupAcquire?
  }

  /** The thread is about to start, is starting or is about to publish a session. */
  predicate InStartup(pc: Pc) {
    pc.StartSession? || pc.Bootstrap? || pc.Publish?
  }

  /** The thread has started this session and has neither published nor stopped it. */
  predicate Starting(pc: Pc, s: SessionId) {
    (pc.Bootstrap? || pc.Publish?) && pc.session == s
  }

  predicate InCleanup(pc: Pc) {
    pc.CleanupLookUp? || pc.CleanupAcquire? || pc.CleanupCheck? || pc.CleanupKill?
  }

  predicate SessionIs(sh: Core, s: SessionId, team: TeamId, phase: Phase) {
    s < |sh.sessions| && sh.sessions[s] == Session(team, phase)
  }

  ghost predicate ThreadInv(sh: Core, i: ThreadId, th: Thread) {
    && (EnsureOf(th.pc).Some? ==> th.team in sh.ensureTable && sh.ensureTable[th.team] == EnsureOf(th.pc).value)
    && (HoldsEnsure(th.pc) ==> th.pc.e in sh.ensureOwner && sh.ensureOwner[th.pc.e] == i)
    && (InStartup(th.pc) ==> th.team !in sh.published)
    && (th.pc.Bootstrap? || th.pc.Publish? ==> SessionIs(sh, th.pc.session, th.team, Bootstrapping(i)))
    && (th.pc.AbortKills? ==> th.team !in sh.published)
    && (th.pc.StopSession? ==> SessionIs(sh, th.pc.session, th.team, Stopping(i)))
    && (InCleanup(th.pc) ==> th.pc.conversation.team == th.team)
    && (th.pc.CleanupKill? && th.team in sh.published ==> sh.published[th.team] == th.pc.session)
  }

  /** Tables, the published map and the runtime map are about the right teams. */
  ghost predicate CoreInv(sh: Core) {
    && (forall t {:trigger sh.ensureTable[t]} :: t in sh.ensureTable ==> sh.ensureTable[t] < sh.nextEnsure)
    && (forall t, u {:trigger sh.ensureTable[t], sh.ensureTable[u]} ::
          t in sh.ensureTable && u in sh.ensureTable && sh.ensureTable[t] == sh.ensureTable[u] ==> t == u)
    && (forall t {:trigger sh.published[t]} :: t in sh.published ==> SessionIs(sh, sh.published[t], t, Live))
    && (forall s {:trigger sh.sessions[s]} :: 0 <= s < |sh.sessions| && sh.sessions[s].phase.Live? ==>
          sh.sessions[s].team in sh.published && sh.published[sh.sessions[s].team] == s)
    && (forall c {:trigger sh.runtimes[c]} :: c in sh.runtimes ==>
          sh.runtimes[c] < |sh.sessions| && sh.sessions[sh.runtimes[c]].team == c.team)
  }

  /** A session that is bootstrapping or stopping has its thread to show for it. */
  ghost predicate PhaseInv(sessions: seq<Session>, threads: seq<Thread>, s: SessionId)
    requires s < |sessions|
  {
    match sessions[s].phase
    case Bootstrapping(i) => i < |threads| && Starting(threads[i].pc, s) && threads[i].team == sessions[s].team
    case Stopping(i) => i < |threads| && threads[i].pc == StopSession(s) && threads[i].team == sessions[s].team
    case _ => true
  }

  ghost predicate Inv(sv: Service) {
    && CoreInv(sv.core)
    && (forall i :: 0 <= i < |sv.threads| ==> ThreadInv(sv.core, i, sv.threads[i]))
    && (forall s :: 0 <= s < |sv.core.sessions| ==> PhaseInv(sv.core.sessions, sv.threads, s))
  }

  /** Of two threads, at most one holds a team's ensure mutex. */
  lemma OneHolder(sh: Core, i: ThreadId, a: Thread, j: ThreadId, b: Thread)
    requires ThreadInv(sh, i, a) && ThreadInv(sh, j, b) && i != j && a.team == b.team
    ensures !(HoldsEnsure(a.pc) && HoldsEnsure(b.pc))
  {
  }

  /** The step starts, fails or publishes a session ... */
  predicate StartStep(pc: Pc) {
    pc.StartSession? || pc.Bootstrap? || pc.Publish?
  }

  /** ... or takes a published session down ... */
  predicate StopStep(pc: Pc) {
    pc.RemovePublished? || pc.StopSession?
  }

  /** ... or looks up, takes or gives back the ensure mutex ... */
  predicate LockStep(pc: Pc) {
    || pc.LookUpEnsure? || pc.AcquireEnsure? || pc.Recheck? || pc.Recover? || pc.ReserveUnderBoth?
    || pc.CleanupLookUp? || pc.CleanupAcquire? || pc.CleanupCheck?
  }

  /** ... or does none of this. */
  predicate OtherStep(pc: Pc) {
    !StartStep(pc) && !StopStep(pc) && !LockStep(pc)
  }

  /** Publishing a session that nobody else started. */
  lemma PublishKeepsCore(sh: Core, team: TeamId, s: SessionId, i: ThreadId)
    requires CoreInv(sh) && team !in sh.published && SessionIs(sh, s, team, Bootstrapping(i))
    ensures CoreInv(SetPhase(sh.(published := sh.published[team := s]), s, Live))
  {
  }

  lemma StartStepKeepsCore(sh: Core, i: ThreadId, th: Thread, ok: bool, number: nat)
    requires CoreInv(sh) && ThreadInv(sh, i, th) && StartStep(th.pc)
    ensures CoreInv(MoveCore(sh, i, th, ok, number))
  {
    if th.pc.Publish? {
      PublishKeepsCore(sh, th.team, th.pc.session, i);
    }
  }

  lemma StartStepKeepsOwn(sh: Core, ms: Members, i: ThreadId, th: Thread, ok: bool, number: nat)
    requires CoreInv(sh) && ThreadInv(sh, i, th) && StartStep(th.pc)
    ensures ThreadInv(MoveCore(sh, i, th, ok, number), i, th.(pc := MovePc(sh, ms, th, ok)))
  {
  }

  lemma StartStepKeepsThreads(sh: Core, i: ThreadId, th: Thread, ok: bool, number: nat, j: ThreadId, other: Thread)
    requires CoreInv(sh) && ThreadInv(sh, i, th) && ThreadInv(sh, j, other) && i != j && StartStep(th.pc)
    ensures ThreadInv(MoveCore(sh, i, th, ok, number), j, other)
  {
    if th.team == other.team {
      OneHolder(sh, i, th, j, other);
    }
  }

  lemma PublishKeepsPhases(sh: Core, ms: Members, threads: seq<Thread>, i: ThreadId, ok: bool, number: nat,
                           s: SessionId)
    requires CoreInv(sh) && i < |threads| && ThreadInv(sh, i, threads[i]) && threads[i].pc.Publish?
    requires s < |sh.sessions| ==> PhaseInv(sh.sessions, threads, s)
    requires s < |MoveCore(sh, i, threads[i], ok, number).sessions|
    ensures PhaseInv(MoveCore(sh, i, threads[i], ok, number).sessions,
                     threads[i := threads[i].(pc := MovePc(sh, ms, threads[i], ok))], s)
  {
    if s != threads[i].pc.session {
      PhaseUnaffected(sh.sessions, threads, i, MovePc(sh, ms, threads[i], ok), s);
    }
  }

  lemma StartStepKeepsPhases(sh: Core, ms: Members, threads: seq<Thread>, i: ThreadId, ok: bool, number: nat,
                             s: SessionId)
    requires CoreInv(sh) && i < |threads| && ThreadInv(sh, i, threads[i]) && StartStep(threads[i].pc)
    requires s < |sh.sessions| ==> PhaseInv(sh.sessions, threads, s)
    requires s < |MoveCore(sh, i, threads[i], ok, number).sessions|
    ensures PhaseInv(MoveCore(sh, i, threads[i], ok, number).sessions,
                     threads[i := threads[i].(pc := MovePc(sh, ms, threads[i], ok))], s)
  {
    if threads[i].pc.Publish? {
      PublishKeepsPhases(sh, ms, threads, i, ok, number, s);
    }
  }

  lemma StopStepKeepsCore(sh: Core, i: ThreadId, th: Thread, ok: bool, number: nat)
    requires CoreInv(sh) && ThreadInv(sh, i, th) && StopStep(th.pc)
    ensures CoreInv(MoveCore(sh, i, th, ok, number))
  {
  }

  lemma StopStepKeepsOwn(sh: Core, ms: Members, i: ThreadId, th: Thread, ok: bool, number: nat)
    requires CoreInv(sh) && ThreadInv(sh, i, th) && StopStep(th.pc)
    ensures ThreadInv(MoveCore(sh, i, th, ok, number), i, th.(pc := MovePc(sh, ms, th, ok)))
  {
  }

  lemma StopStepKeepsThreads(sh: Core, i: ThreadId, th: Thread, ok: bool, number: nat, j: ThreadId, other: Thread)
    requires CoreInv(sh) && ThreadInv(sh, i, th) && ThreadInv(sh, j, other) && i != j && StopStep(th.pc)
    ensures ThreadInv(MoveCore(sh, i, th, ok, number), j, other)
  {
    if th.team == other.team {
      OneHolder(sh, i, th, j, other);
    }
  }

  lemma StopStepKeepsPhases(sh: Core, ms: Members, threads: seq<Thread>, i: ThreadId, ok: bool, number: nat,
                            s: SessionId)
    requires i < |threads| && ThreadInv(sh, i, threads[i]) && StopStep(threads[i].pc)
    requires var team := threads[i].team; team in sh.published ==> SessionIs(sh, sh.published[team], team, Live)
    requires s < |sh.sessions| ==> PhaseInv(sh.sessions, threads, s)
    requires s < |MoveCore(sh, i, threads[i], ok, number).sessions|
    ensures PhaseInv(MoveCore(sh, i, threads[i], ok, number).sessions,
                     threads[i := threads[i].(pc := MovePc(sh, ms, threads[i], ok))], s)
  {
  }

  lemma LockStepKeepsCore(sh: Core, i: ThreadId, th: Thread, ok: bool, number: nat)
    requires CoreInv(sh) && ThreadInv(sh, i, th) && LockStep(th.pc)
    ensures CoreInv(MoveCore(sh, i, th, ok, number))
  {
  }

  lemma LockStepKeepsOwn(sh: Core, ms: Members, i: ThreadId, th: Thread, ok: bool, number: nat)
    requires ThreadInv(sh, i, th) && LockStep(th.pc)
    ensures ThreadInv(MoveCore(sh, i, th, ok, number), i, th.(pc := MovePc(sh, ms, th, ok)))
  {
  }

  lemma LockStepKeepsThreads(sh: Core, i: ThreadId, th: Thread, ok: bool, number: nat, j: ThreadId, other: Thread)
    requires CoreInv(sh) && ThreadInv(sh, i, th) && ThreadInv(sh, j, other) && i != j && LockStep(th.pc)
    ensures ThreadInv(MoveCore(sh, i, th, ok, number), j, other)
  {
    if th.team == other.team {
      OneHolder(sh, i, th, j, other);
    }
  }

  /** A thread that neither starts nor stops the session is not what shows for its phase. */
  lemma PhaseUnaffected(sessions: seq<Session>, threads: seq<Thread>, i: ThreadId, pc: Pc, s: SessionId)
    requires s < |sessions| && i < |threads| && PhaseInv(sessions, threads, s)
    requires !Starting(threads[i].pc, s) && threads[i].pc != StopSession(s)
    ensures PhaseInv(sessions, threads[i := threads[i].(pc := pc)], s)
  {
  }

  lemma LockStepKeepsPhases(sh: Core, ms: Members, threads: seq<Thread>, i: ThreadId, ok: bool, number: nat,
                            s: SessionId)
    requires CoreInv(sh) && i < |threads| && ThreadInv(sh, i, threads[i]) && LockStep(threads[i].pc)
    requires s < |sh.sessions| ==> PhaseInv(sh.sessions, threads, s)
    requires s < |MoveCore(sh, i, threads[i], ok, number).sessions|
    ensures PhaseInv(MoveCore(sh, i, threads[i], ok, number).sessions,
                     threads[i := threads[i].(pc := MovePc(sh, ms, threads[i], ok))], s)
  {
    PhaseUnaffected(sh.sessions, threads, i, MovePc(sh, ms, threads[i], ok), s);
  }

  lemma OtherStepKeepsCore(sh: Core, i: ThreadId, th: Thread, ok: bool, number: nat)
    requires CoreInv(sh) && ThreadInv(sh, i, th) && OtherStep(th.pc)
    ensures CoreInv(MoveCore(sh, i, th, ok, number))
  {
  }

  lemma OtherStepKeepsOwn(sh: Core, ms: Members, i: ThreadId, th: Thread, ok: bool, number: nat)
    requires CoreInv(sh) && ThreadInv(sh, i, th) && OtherStep(th.pc)
    ensures ThreadInv(MoveCore(sh, i, th, ok, number), i, th.(pc := MovePc(sh, ms, th, ok)))
  {
  }

  lemma OtherStepKeepsThreads(sh: Core, i: ThreadId, th: Thread, ok: bool, number: nat, j: ThreadId, other: Thread)
    requires CoreInv(sh) && ThreadInv(sh, i, th) && ThreadInv(sh, j, other) && i != j && OtherStep(th.pc)
    ensures ThreadInv(MoveCore(sh, i, th, ok, number), j, other)
  {
    if th.team == other.team {
      OneHolder(sh, i, th, j, other);
    }
  }

  lemma OtherStepKeepsPhases(sh: Core, ms: Members, threads: seq<Thread>, i: ThreadId, ok: bool, number: nat,
                             s: SessionId)
    requires CoreInv(sh) && i < |threads| && ThreadInv(sh, i, threads[i]) && OtherStep(threads[i].pc)
    requires s < |sh.sessions| ==> PhaseInv(sh.sessions, threads, s)
    requires s < |MoveCore(sh, i, threads[i], ok, number).sessions|
    ensures PhaseInv(MoveCore(sh, i, threads[i], ok, number).sessions,
                     threads[i := threads[i].(pc := MovePc(sh, ms, threads[i], ok))], s)
  {
    PhaseUnaffected(sh.sessions, threads, i, MovePc(sh, ms, threads[i], ok), s);
  }

  lemma AdvanceKeepsInv(sv: Service, i: ThreadId, ok: bool, number: nat)
    requires Inv(sv) && i < |sv.threads|
    ensures Inv(Next(sv, Advance(i, ok, number)))
  {
    var th, sv' := sv.threads[i], Next(sv, Advance(i, ok, number));
    if StartStep(th.pc) {
      StartStepKeepsCore(sv.core, i, th, ok, number);
      StartStepKeepsOwn(sv.core, sv.members, i, th, ok, number);
    } else if StopStep(th.pc) {
      StopStepKeepsCore(sv.core, i, th, ok, number);
      StopStepKeepsOwn(sv.core, sv.members, i, th, ok, number);
    } else if LockStep(th.pc) {
      LockStepKeepsCore(sv.core, i, th, ok, number);
      LockStepKeepsOwn(sv.core, sv.members, i, th, ok, number);
    } else {
      OtherStepKeepsCore(sv.core, i, th, ok, number);
      OtherStepKeepsOwn(sv.core, sv.members, i, th, ok, number);
    }
    forall j | 0 <= j < |sv'.threads|
      ensures ThreadInv(sv'.core, j, sv'.threads[j])
    {
      if j != i {
        if StartStep(th.pc) {
          StartStepKeepsThreads(sv.core, i, th, ok, number, j, sv.threads[j]);
        } else if StopStep(th.pc) {
          StopStepKeepsThreads(sv.core, i, th, ok, number, j, sv.threads[j]);
        } else if LockStep(th.pc) {
          LockStepKeepsThreads(sv.core, i, th, ok, number, j, sv.threads[j]);
        } else {
          OtherStepKeepsThreads(sv.core, i, th, ok, number, j, sv.threads[j]);
        }
      }
    }
    forall s | 0 <= s < |sv'.core.sessions|
      ensures PhaseInv(sv'.core.sessions, sv'.threads, s)
    {
      if StartStep(th.pc) {
        StartStepKeepsPhases(sv.core, sv.members, sv.threads, i, ok, number, s);
      } else if StopStep(th.pc) {
        StopStepKeepsPhases(sv.core, sv.members, sv.threads, i, ok, number, s);
      } else if LockStep(th.pc) {
        LockStepKeepsPhases(sv.core, sv.members, sv.threads, i, ok, number, s);
      } else {
        OtherStepKeepsPhases(sv.core, sv.members, sv.threads, i, ok, number, s);
      }
    }
  }

  lemma NextKeepsInv(sv: Service, event: Event)
    requires Inv(sv)
    ensures Inv(Next(sv, event))
  {
    var sv' := Next(sv, event);
    match event
    case Advance(i, ok, number) =>
      if i < |sv.threads| {
        AdvanceKeepsInv(sv, i, ok, number);
      }
    case _ =>
      forall j | 0 <= j < |sv'.threads|
        ensures ThreadInv(sv'.core, j, sv'.threads[j])
      {
        assert j < |sv.threads| ==> ThreadInv(sv.core, j, sv.threads[j]);
      }
      forall s | 0 <= s < |sv'.core.sessions|
        ensures PhaseInv(sv'.core.sessions, sv'.threads, s)
      {
        assert PhaseInv(sv.core.sessions, sv.threads, s);
      }
  }

  lemma {:induction false} ExecuteKeepsInv(events: seq<Event>)
    ensures Inv(Execute(events))
  {
    if events == [] {
    } else {
      ExecuteKeepsInv(events[..|events| - 1]);
      NextKeepsInv(Execute(events[..|events| - 1]), events[|events| - 1]);
    }
  }

  // ---- What every run keeps ----

  /** Publishing never overwrites: when a thread is about to insert its session, the team has none. */
  lemma PublishNeverOverwrites(events: seq<Event>, i: ThreadId)
    requires i < |Execute(events).threads| && Execute(events).threads[i].pc.Publish?
    ensures var sv := Execute(events); sv.threads[i].team !in sv.core.published
  {
    ExecuteKeepsInv(events);
    assert ThreadInv(Execute(events).core, i, Execute(events).threads[i]);
  }

  /** Thread `i` has started session `s` of this team and holds the team's one ensure mutex. */
  ghost predicate BootstrapsUnderLock(sv: Service, i: ThreadId, s: SessionId, team: TeamId) {
    && i < |sv.threads| && Starting(sv.threads[i].pc, s) && sv.threads[i].team == team
    && team in sv.core.ensureTable
    && sv.core.ensureTable[team] in sv.core.ensureOwner && sv.core.ensureOwner[sv.core.ensureTable[team]] == i
  }

  /** Every session ever started is published, stopped, being stopped by a thread, or still bootstrapping under its
    * team's ensure mutex. */
  lemma EverySessionIsAccountedFor(events: seq<Event>, s: SessionId)
    requires s < |Execute(events).core.sessions|
    ensures var sv := Execute(events);
      var team := sv.core.sessions[s].team;
      || (team in sv.core.published && sv.core.published[team] == s)
      || sv.core.sessions[s].phase.Stopped?
      || (exists i :: 0 <= i < |sv.threads| && sv.threads[i].pc == StopSession(s) && sv.threads[i].team == team)
      || (exists i :: BootstrapsUnderLock(sv, i, s, team))
  {
    ExecuteKeepsInv(events);
    var sv := Execute(events);
    assert PhaseInv(sv.core.sessions, sv.threads, s);
    var session := sv.core.sessions[s];
    match session.phase
    case Bootstrapping(i) =>
      assert ThreadInv(sv.core, i, sv.threads[i]);
      assert BootstrapsUnderLock(sv, i, s, session.team);
    case Stopping(i) => assert sv.threads[i].pc == StopSession(s);
    case _ =>
  }

  /** The published map holds live sessions of the right team, each at most once. */
  lemma PublishedSessionsAreLive(events: seq<Event>, team: TeamId)
    requires team in Execute(events).core.published
    ensures var sv := Execute(events);
      var s := sv.core.published[team];
      && SessionIs(sv.core, s, team, Live)
      && (forall i :: 0 <= i < |sv.threads| ==> !Starting(sv.threads[i].pc, s) && sv.threads[i].pc != StopSession(s))
  {
    ExecuteKeepsInv(events);
    var sv := Execute(events);
    forall i | 0 <= i < |sv.threads|
      ensures !Starting(sv.threads[i].pc, sv.core.published[team]) &&
        sv.threads[i].pc != StopSession(sv.core.published[team])
    {
      assert ThreadInv(sv.core, i, sv.threads[i]);
    }
  }

  /** Session `s` serves its team, or is about to: it is published, or some thread is starting it. */
  ghost predicate InUse(sv: Service, s: SessionId) {
    && s < |sv.core.sessions|
    && (|| (sv.core.sessions[s].team in sv.core.published && sv.core.published[sv.core.sessions[s].team] == s)
        || (exists i :: 0 <= i < |sv.threads| && Starting(sv.threads[i].pc, s)))
  }

  /** The kill of a stale attach's cleanup, made for session S, finds no other session of the team published or
    * starting; so the runtime it removes, if any, belongs to S or to a session that is stopped or being stopped. */
  lemma CleanupSparesReplacements(events: seq<Event>, i: ThreadId, other: SessionId)
    requires i < |Execute(events).threads| && Execute(events).threads[i].pc.CleanupKill?
    requires other != Execute(events).threads[i].pc.session
    requires other < |Execute(events).core.sessions|
    requires Execute(events).core.sessions[other].team == Execute(events).threads[i].team
    ensures var sv := Execute(events);
      && !InUse(sv, other)
      && (forall c :: c in sv.core.runtimes && c !in Next(sv, Advance(i, true, 0)).core.runtimes &&
            InUse(sv, sv.core.runtimes[c])
            ==> sv.core.runtimes[c] == sv.threads[i].pc.session)
  {
    ExecuteKeepsInv(events);
    var sv := Execute(events);
    var th := sv.threads[i];
    assert ThreadInv(sv.core, i, th);
    forall s | 0 <= s < |sv.core.sessions| && s != th.pc.session && sv.core.sessions[s].team == th.team
      ensures !InUse(sv, s)
    {
      forall j | 0 <= j < |sv.threads|
        ensures !Starting(sv.threads[j].pc, s)
      {
        assert ThreadInv(sv.core, j, sv.threads[j]);
        if Starting(sv.threads[j].pc, s) {
          OneHolder(sv.core, i, th, j, sv.threads[j]);
        }
      }
    }
  }

  // ---- The kills after a stop ----

  /** The kill of this conversation number by the stopper `i` takes the runtime of a session that is in use. */
  ghost predicate KillHits(sv: Service, i: ThreadId, number: nat) {
    exists c :: c in sv.core.runtimes && c !in Next(sv, Advance(i, false, number)).core.runtimes &&
      InUse(sv, sv.core.runtimes[c])
  }

  ghost predicate TeamInUse(sv: Service, team: TeamId) {
    exists s: SessionId :: InUse(sv, s) && sv.core.sessions[s].team == team
  }

  /** The conversation has the runtime of a session in use. */
  ghost predicate RunsInUse(sv: Service, c: Conversation) {
    c in sv.core.runtimes && InUse(sv, sv.core.runtimes[c])
  }

  lemma KillHitsItsConversation(sv: Service, i: ThreadId, number: nat)
    requires i < |sv.threads| && sv.threads[i].pc.KillRuntimes?
    ensures KillHits(sv, i, number) <==> RunsInUse(sv, Conversation(sv.threads[i].team, number))
  {
    var target := Conversation(sv.threads[i].team, number);
    assert Next(sv, Advance(i, false, number)).core.runtimes == sv.core.runtimes - {target};
  }

  /** The kills of a stopper that goes through this roster, the one its stop loaded, hit a session in use exactly when
    * an agent of the roster has the runtime of such a session of the team: an agent added since is spared. */
  lemma StopKillsHitIff(events: seq<Event>, i: ThreadId, roster: set<nat>)
    requires i < |Execute(events).threads| && Execute(events).threads[i].pc.KillRuntimes?
    ensures var sv := Execute(events);
      (exists number :: number in roster && KillHits(sv, i, number)) <==>
        exists c :: RunsInUse(sv, c) && sv.core.sessions[sv.core.runtimes[c]].team == sv.threads[i].team &&
          c.number in roster
  {
    ExecuteKeepsInv(events);
    HitIff(Execute(events), i, roster);
  }

  lemma HitIff(sv: Service, i: ThreadId, roster: set<nat>)
    requires CoreInv(sv.core) && i < |sv.threads| && sv.threads[i].pc.KillRuntimes?
    ensures (exists number :: number in roster && KillHits(sv, i, number)) <==>
      exists c :: RunsInUse(sv, c) && sv.core.sessions[sv.core.runtimes[c]].team == sv.threads[i].team &&
        c.number in roster
  {
    if c :| RunsInUse(sv, c) && sv.core.sessions[sv.core.runtimes[c]].team == sv.threads[i].team && c.number in roster {
      KillHitsItsConversation(sv, i, c.number);
    }
    if number :| number in roster && KillHits(sv, i, number) {
      KillHitsItsConversation(sv, i, number);
    }
  }

  /** A stopper with anybody in its roster can be overtaken exactly while its team has a session in use, published or
    * starting: only then is there a late runtime that one of its kills would take from such a session. */
  lemma StopIsOvertakenIff(events: seq<Event>, i: ThreadId, roster: set<nat>)
    requires i < |Execute(events).threads| && Execute(events).threads[i].pc.KillRuntimes? && roster != {}
    ensures var sv := Execute(events);
      (exists s: SessionId, number: nat, n :: n in roster && KillHits(Next(sv, Warm(s, number)), i, n)) <==>
        TeamInUse(sv, sv.threads[i].team)
  {
    ExecuteKeepsInv(events);
    var sv := Execute(events);
    if TeamInUse(sv, sv.threads[i].team) {
      var s: SessionId :| InUse(sv, s) && sv.core.sessions[s].team == sv.threads[i].team;
      var number :| number in roster;
      LateRuntimeIsHit(sv, s, i, number);
    }
    if s: SessionId, number: nat, n :| n in roster && KillHits(Next(sv, Warm(s, number)), i, n) {
      HitMeansInUse(sv, s, number, i, n);
    }
  }

  lemma LateRuntimeIsHit(sv: Service, s: SessionId, i: ThreadId, number: nat)
    requires InUse(sv, s) && i < |sv.threads| && sv.threads[i].pc.KillRuntimes? &&
      sv.core.sessions[s].team == sv.threads[i].team
    ensures KillHits(Next(sv, Warm(s, number)), i, number)
  {
    var warm := Next(sv, Warm(s, number));
    assert RunsInUse(warm, Conversation(sv.threads[i].team, number));
    KillHitsItsConversation(warm, i, number);
  }

  lemma HitMeansInUse(sv: Service, s: SessionId, number: nat, i: ThreadId, n: nat)
    requires CoreInv(sv.core) && i < |sv.threads| && sv.threads[i].pc.KillRuntimes?
    requires KillHits(Next(sv, Warm(s, number)), i, n)
    ensures TeamInUse(sv, sv.threads[i].team)
  {
    var warm, c := Next(sv, Warm(s, number)), Conversation(sv.threads[i].team, n);
    KillHitsItsConversation(warm, i, n);
    assert InUse(sv, warm.core.runtimes[c]);
  }

  /** A guard the stopper could check: with nothing of its team published and the team's ensure mutex free, no session
    * of the team is in use, and no kill hits one. */
  lemma GuardedStopsSpareSessions(events: seq<Event>, i: ThreadId, number: nat)
    requires i < |Execute(events).threads| && Execute(events).threads[i].pc.KillRuntimes?
    requires var sh, team := Execute(events).core, Execute(events).threads[i].team;
      team !in sh.published && (team in sh.ensureTable ==> sh.ensureTable[team] !in sh.ensureOwner)
    ensures !TeamInUse(Execute(events), Execute(events).threads[i].team) && !KillHits(Execute(events), i, number)
  {
    ExecuteKeepsInv(events);
    FreeTeamsAreUnused(Execute(events), Execute(events).threads[i].team);
    KillHitsItsConversation(Execute(events), i, number);
  }

  lemma FreeTeamsAreUnused(sv: Service, team: TeamId)
    requires Inv(sv) && team !in sv.core.published
    requires team in sv.core.ensureTable ==> sv.core.ensureTable[team] !in sv.core.ensureOwner
    ensures !TeamInUse(sv, team)
  {
    forall s: SessionId, j | s < |sv.core.sessions| && sv.core.sessions[s].team == team && 0 <= j < |sv.threads|
      ensures !Starting(sv.threads[j].pc, s)
    {
      assert ThreadInv(sv.core, j, sv.threads[j]);
    }
  }

  // ---- What does not hold ----

  lemma Append(events: seq<Event>, event: Event) returns (longer: seq<Event>, sv: Service)
    ensures longer == events + [event]
    ensures sv == Execute(longer) == Next(Execute(events), event)
  {
    longer := events + [event];
    assert longer[..|longer| - 1] == events;
    sv := Execute(longer);
  }

  lemma TakesMutexZero() returns (events: seq<Event>)
    ensures Execute(events) ==
      Service(EMPTY.core, Members(map[5 := 0], map[0 := 0], 1), [Thread(5, EnsureTeam, LoadTeam(0))])
  {
    var sv: Service;
    events, sv := Append([], CallEnsure(5, false));
    events, sv := Append(events, Advance(0, true, 0));
    assert sv.threads == [Thread(5, EnsureTeam, AcquireMembership(0))];
    events, sv := Append(events, Advance(0, true, 0));
  }

  /** A caller holds the membership mutex of its team while the team is archived, which deletes the mutex. */
  lemma HeldMutexIsDeleted() returns (events: seq<Event>)
    ensures Execute(events) == Service(EMPTY.core, Members(map[], map[0 := 0], 1),
                                       [Thread(5, EnsureTeam, LoadTeam(0)), Thread(5, StopAndForget, Finished)])
  {
    var sv: Service;
    events := TakesMutexZero();
    events, sv := Append(events, CallStop(5, true));
    events, sv := Append(events, Advance(1, true, 0));
    assert sv.threads[1] == Thread(5, StopAndForget, KillRuntimes);
    events, sv := Append(events, Advance(1, true, 0));
    assert sv.threads[1] == Thread(5, StopAndForget, DeleteMembership);
    events, sv := Append(events, Advance(1, true, 0));
  }

  /** The membership mutex excludes nobody once it has been deleted: two callers can hold membership mutexes of the
    * same team at the same time. The publication lemmas above hold nevertheless. */
  lemma MembershipLocksCanOverlap() returns (events: seq<Event>)
    ensures var sv := Execute(events);
      && |sv.threads| == 3
      && sv.threads[0].team == sv.threads[2].team
      && sv.threads[0].pc == LoadTeam(0) && sv.threads[2].pc == LoadTeam(1)
      && sv.members.owner == map[0 := 0, 1 := 2]
  {
    var sv: Service;
    events := HeldMutexIsDeleted();
    // The next caller makes itself a new mutex.
    events, sv := Append(events, CallEnsure(5, false));
    assert sv.threads[2] == Thread(5, EnsureTeam, LookUpMembership);
    events, sv := Append(events, Advance(2, true, 0));
    assert sv.threads[2] == Thread(5, EnsureTeam, AcquireMembership(1));
    events, sv := Append(events, Advance(2, true, 0));
  }

  /** Two steps of one thread. */
  function Twice(sv: Service, i: ThreadId): Service {
    Next(Next(sv, Advance(i, true, 0)), Advance(i, true, 0))
  }

  lemma AppendTwice(events: seq<Event>, i: ThreadId) returns (longer: seq<Event>, sv: Service)
    ensures sv == Execute(longer) == Twice(Execute(events), i)
  {
    longer, sv := Append(events, Advance(i, true, 0));
    longer, sv := Append(longer, Advance(i, true, 0));
  }

  /** An agent-only caller takes the membership mutex ... */
  lemma TakesMembership(sv: Service, i: ThreadId, team: TeamId, m: LockId)
    requires i < |sv.threads| && sv.threads[i] == Thread(team, EnsureAgent, LookUpMembership)
    requires team in sv.members.table && sv.members.table[team] == m && m !in sv.members.owner
    ensures Twice(sv, i) == Service(sv.core, sv.members.(owner := sv.members.owner[m := i]),
                                    sv.threads[i := Thread(team, EnsureAgent, LoadTeam(m))])
  {
  }

  /** ... finds the team and no published session ... */
  lemma FindsNothingPublished(sv: Service, i: ThreadId, team: TeamId, m: LockId)
    requires i < |sv.threads| && sv.threads[i] == Thread(team, EnsureAgent, LoadTeam(m)) && team !in sv.core.published
    ensures Twice(sv, i) == sv.(threads := sv.threads[i := Thread(team, EnsureAgent, LookUpEnsure(m))])
  {
  }

  /** ... takes the ensure mutex ... */
  lemma TakesEnsure(sv: Service, i: ThreadId, team: TeamId, m: LockId, e: LockId)
    requires i < |sv.threads| && sv.threads[i] == Thread(team, EnsureAgent, LookUpEnsure(m))
    requires NameEnsureLock(sv.core, team).ensureTable[team] == e && e !in sv.core.ensureOwner
    ensures var named := NameEnsureLock(sv.core, team);
      Twice(sv, i) == Service(named.(ensureOwner := named.ensureOwner[e := i]), sv.members,
                              sv.threads[i := Thread(team, EnsureAgent, Recheck(m, e))])
  {
  }

  /** ... starts a session ... */
  lemma StartsOne(sv: Service, i: ThreadId, team: TeamId, m: LockId, e: LockId)
    requires i < |sv.threads| && sv.threads[i] == Thread(team, EnsureAgent, Recheck(m, e)) && team !in sv.core.published
    ensures var s := |sv.core.sessions|;
      Twice(sv, i) == Service(sv.core.(sessions := sv.core.sessions + [Session(team, Bootstrapping(i))]), sv.members,
                              sv.threads[i := Thread(team, EnsureAgent, Publish(m, e, s))])
  {
  }

  /** ... and publishes it, giving the mutexes back. */
  lemma PublishesIt(sv: Service, i: ThreadId, team: TeamId, m: LockId, e: LockId, s: SessionId)
    requires i < |sv.threads| && sv.threads[i] == Thread(team, EnsureAgent, Publish(m, e, s))
    requires |sv.core.sessions| == s + 1 && sv.core.sessions[s].team == team
    ensures Twice(sv, i) == Service(
      sv.core.(published := sv.core.published[team := s],
               sessions := sv.core.sessions[..s] + [Session(team, Live)],
               ensureOwner := sv.core.ensureOwner - {e}),
      sv.members.(owner := sv.members.owner - {m}),
      sv.threads[i := Thread(team, EnsureAgent, Finished)])
  {
  }

  /** A new agent-only caller of a team with nothing published, as far as the ensure mutex ... */
  lemma ReachLookUpEnsure(before: seq<Event>, team: TeamId, m: LockId) returns (events: seq<Event>)
    requires var sv := Execute(before);
      team !in sv.core.published && team in sv.members.table && sv.members.table[team] == m && m !in sv.members.owner
    ensures var sv := Execute(before);
      Execute(events) == Service(sv.core, sv.members.(owner := sv.members.owner[m := |sv.threads|]),
                                 sv.threads + [Thread(team, EnsureAgent, LookUpEnsure(m))])
  {
    var i := |Execute(before).threads|;
    var sv: Service;
    events, sv := Append(before, CallEnsure(team, true));
    TakesMembership(sv, i, team, m);
    events, sv := AppendTwice(events, i);
    FindsNothingPublished(sv, i, team, m);
    events, sv := AppendTwice(events, i);
  }

  /** ... and from there as far as the publication. */
  lemma ReachPublish(before: seq<Event>, i: ThreadId, team: TeamId, m: LockId, e: LockId) returns (events: seq<Event>)
    requires var sv := Execute(before);
      && i < |sv.threads| && sv.threads[i] == Thread(team, EnsureAgent, LookUpEnsure(m))
      && team !in sv.core.published && NameEnsureLock(sv.core, team).ensureTable[team] == e && e !in sv.core.ensureOwner
    ensures var sv := Execute(before);
      var named := NameEnsureLock(sv.core, team);
      Execute(events) == Service(
        named.(ensureOwner := named.ensureOwner[e := i],
               sessions := named.sessions + [Session(team, Bootstrapping(i))]),
        sv.members, sv.threads[i := Thread(team, EnsureAgent, Publish(m, e, |sv.core.sessions|))])
  {
    var sv := Execute(before);
    TakesEnsure(sv, i, team, m, e);
    events, sv := AppendTwice(before, i);
    StartsOne(sv, i, team, m, e);
    events, sv := AppendTwice(events, i);
  }

  /** A new agent-only caller of a team with nothing published publishes a session, and leaves no mutex held. */
  lemma PublishOne(before: seq<Event>, team: TeamId, m: LockId, e: LockId) returns (events: seq<Event>)
    requires var sv := Execute(before);
      && team !in sv.core.published
      && NameEnsureLock(sv.core, team).ensureTable[team] == e && e !in sv.core.ensureOwner
      && team in sv.members.table && sv.members.table[team] == m && m !in sv.members.owner
    ensures var sv := Execute(before);
      Execute(events) == Service(
        NameEnsureLock(sv.core, team).(
          published := sv.core.published[team := |sv.core.sessions|],
          sessions := sv.core.sessions + [Session(team, Live)]),
        sv.members,
        sv.threads + [Thread(team, EnsureAgent, Finished)])
  {
    var start := Execute(before);
    var i := |start.threads|;
    var owners := start.core.ensureOwner;
    events := ReachLookUpEnsure(before, team, m);
    events := ReachPublish(events, i, team, m, e);
    var sv := Execute(events);
    PublishesIt(sv, i, team, m, e, |start.core.sessions|);
    events, sv := AppendTwice(events, i);
    assert owners[e := i] - {e} == owners;
    assert start.members.owner[m := i] - {m} == start.members.owner;
  }

  /** A stopper takes a published session down and stops it. */
  lemma TakesDown(sv: Service, i: ThreadId, team: TeamId, s: SessionId)
    requires i < |sv.threads| && sv.threads[i] == Thread(team, Stop, RemovePublished)
    requires team in sv.core.published && sv.core.published[team] == s && SessionIs(sv.core, s, team, Live)
    ensures Twice(sv, i) == Service(
      sv.core.(published := sv.core.published - {team}, sessions := sv.core.sessions[s := Session(team, Stopped)]),
      sv.members, sv.threads[i := Thread(team, Stop, KillRuntimes)])
  {
  }

  /** A caller that created the membership mutex of the team, and found the team missing. */
  lemma MembershipExists() returns (events: seq<Event>)
    ensures Execute(events) == Service(EMPTY.core, Members(map[5 := 0], map[], 1), [Thread(5, EnsureAgent, Finished)])
  {
    var sv: Service;
    events, sv := Append([], CallEnsure(5, true));
    events, sv := Append(events, Advance(0, true, 0));
    assert sv.members == Members(map[5 := 0], map[], 1);
    events, sv := Append(events, Advance(0, true, 0));
    assert sv.members == Members(map[5 := 0], map[0 := 0], 1) && sv.threads[0].pc == LoadTeam(0);
    events, sv := Append(events, Advance(0, false, 0));
  }

  /** A first session is published and stopped, its stopper is about to kill the team's runtimes, and a second
    * session is published meanwhile. */
  lemma StoppedAndReplaced() returns (events: seq<Event>)
    ensures var sv := Execute(events);
      && sv.core.published == map[5 := 1] && sv.core.sessions == [Session(5, Stopped), Session(5, Live)]
      && |sv.threads| == 4 && sv.threads[2] == Thread(5, Stop, KillRuntimes)
  {
    var sv: Service;
    events := MembershipExists();
    events := PublishOne(events, 5, 0, 0);
    events, sv := Append(events, CallStop(5, false));
    assert sv.core == Core(map[5 := 0], [Session(5, Live)], map[5 := 0], map[], 1, map[]);
    TakesDown(sv, 2, 5, 0);
    events, sv := AppendTwice(events, 2);
    assert sv.core == Core(map[], [Session(5, Stopped)], map[5 := 0], map[], 1, map[]);
    events := PublishOne(events, 5, 0, 0);
  }

  /** The kills that follow a stop are made without the ensure mutex, and so they, unlike those of the cleanup, can
    * hit a replacement: here thread 2 removes the runtime of session 1, which is and stays published. */
  lemma StopCanKillAReplacement() returns (events: seq<Event>)
    ensures var sv := Execute(events);
      var after := Next(sv, Advance(2, false, 7));
      && 2 < |sv.threads| && sv.threads[2].pc == KillRuntimes
      && Conversation(5, 7) in sv.core.runtimes && sv.core.runtimes[Conversation(5, 7)] == 1
      && Conversation(5, 7) !in after.core.runtimes
      && 5 in after.core.published && after.core.published[5] == 1 && InUse(after, 1)
  {
    events := StoppedAndReplaced();
    var sv: Service;
    events, sv := Append(events, Warm(1, 7));
  }
}
