/** What callers of the session protocol bring about: which runtimes live, and what a cleanup, a stop and an ensure have
  * done when they return. Everything else may happen between the steps of a caller.
  */
module SessionEffects {
  import opened Wrappers
  import opened SessionProtocol

  // ---- Which runtimes live ----

  /** The step of the thread kills the runtime of this conversation: it is the kill of a cleanup made for it, or one of
    * the kills after a failed start or a stop. */
  predicate StepReaps(th: Thread, ok: bool, number: nat, c: Conversation) {
    match th.pc
    case CleanupKill(_, d, _) => d == c
    case AbortKills(_, _, _) => !ok && c == Conversation(th.team, number)
    case KillRuntimes => !ok && c == Conversation(th.team, number)
    case _ => false
  }

  /** The event kills the runtime of this conversation, by such a step or with the removal of its member. */
  predicate Reaps(sv: Service, event: Event, c: Conversation) {
    || event == KillMember(c)
    || (event.Advance? && event.thread < |sv.threads|
        && StepReaps(sv.threads[event.thread], event.ok, event.number, c))
  }

  /** The event is an attach of a session of the team that brings this conversation's runtime up. */
  predicate Warms(sv: Service, event: Event, c: Conversation) {
    && event.Warm? && event.session < |sv.core.sessions|
    && c == Conversation(sv.core.sessions[event.session].team, event.number)
  }

  /** Steps that start, stop or lock kill nothing ... */
  lemma OtherStepsSpareRuntimes(sh: Core, i: ThreadId, th: Thread, ok: bool, number: nat)
    requires !th.pc.CleanupKill? && !th.pc.AbortKills? && !th.pc.KillRuntimes?
    ensures MoveCore(sh, i, th, ok, number).runtimes == sh.runtimes
  {
  }

  /** ... and the others only what they are for. */
  lemma KillsAreExact(sh: Core, i: ThreadId, th: Thread, ok: bool, number: nat, c: Conversation)
    requires th.pc.CleanupKill? || th.pc.AbortKills? || th.pc.KillRuntimes?
    ensures var after := MoveCore(sh, i, th, ok, number).runtimes;
      && (c in after <==> c in sh.runtimes && !StepReaps(th, ok, number, c))
      && (c in after ==> after[c] == sh.runtimes[c])
  {
  }

  /** A kill leaves its conversation without a runtime, a warm-up leaves its own there, and every other runtime stays
    * what it was. */
  lemma RuntimesChange(sv: Service, event: Event, c: Conversation)
    ensures var before, after := sv.core.runtimes, Next(sv, event).core.runtimes;
      && (Reaps(sv, event, c) ==> c !in after)
      && (Warms(sv, event, c) ==> c in after && after[c] == event.session)
      && (!Reaps(sv, event, c) && !Warms(sv, event, c) ==>
            (c in after <==> c in before) && (c in after ==> after[c] == before[c]))
  {
    if event.Advance? && event.thread < |sv.threads| {
      var th := sv.threads[event.thread];
      if th.pc.CleanupKill? || th.pc.AbortKills? || th.pc.KillRuntimes? {
        KillsAreExact(sv.core, event.thread, th, event.ok, event.number, c);
      } else {
        OtherStepsSpareRuntimes(sv.core, event.thread, th, event.ok, event.number);
      }
    }
  }

  // ---- Runs, seen by one thread ----

  /** Event `k` is a step of thread `i`. */
  predicate StepsAt(events: seq<Event>, k: nat, i: ThreadId) {
    k < |events| && events[k].Advance? && events[k].thread == i && i < |Execute(events[..k]).threads|
  }

  function PcAt(events: seq<Event>, k: nat, i: ThreadId): Pc
    requires StepsAt(events, k, i)
  {
    Execute(events[..k]).threads[i].pc
  }

  lemma OneMore(events: seq<Event>, i: ThreadId)
    requires events != [] && i < |Execute(events[..|events| - 1]).threads|
    ensures var sv, last := Execute(events[..|events| - 1]), events[|events| - 1];
      && i < |Execute(events).threads|
      && Execute(events).threads[i] ==
           if last.Advance? && last.thread == i
           then sv.threads[i].(pc := MovePc(sv.core, sv.members, sv.threads[i], last.ok)) else sv.threads[i]
  {
  }

  lemma StepAt(events: seq<Event>, k: nat, i: ThreadId)
    requires StepsAt(events, k, i)
    ensures Execute(events[..k + 1]) == Next(Execute(events[..k]), events[k])
  {
    assert events[..k + 1][..k] == events[..k];
  }

  /** A step of a shorter run is one of the longer run. */
  lemma StepsStay(events: seq<Event>, n: nat, k: nat, i: ThreadId)
    requires n <= |events| && StepsAt(events[..n], k, i)
    ensures StepsAt(events, k, i) && events[..n][..k] == events[..k] && events[..n][..k + 1] == events[..k + 1]
  {
    assert events[..n][..k] == events[..k];
    assert events[..n][..k + 1] == events[..k + 1];
  }

  // ---- What a cleanup has done ----

  /** At this step the cleanup found another session of its team published. */
  predicate FoundAnother(events: seq<Event>, k: nat, i: ThreadId, s: SessionId) {
    && StepsAt(events, k, i) && PcAt(events, k, i).CleanupCheck?
    && var sv := Execute(events[..k]);
       var team := sv.threads[i].team;
       team in sv.core.published && sv.core.published[team] != s
  }

  /** Right after this step of the cleanup the conversation has no runtime. */
  predicate LeftNoRuntime(events: seq<Event>, k: nat, i: ThreadId, c: Conversation) {
    StepsAt(events, k, i) && PcAt(events, k, i).CleanupKill? && c !in Execute(events[..k + 1]).core.runtimes
  }

  /** Where a cleanup made for this session and this conversation stands, and if it has returned, why. */
  ghost predicate CleanupStands(events: seq<Event>, i: ThreadId, s: SessionId, c: Conversation) {
    && i < |Execute(events).threads| && Execute(events).threads[i].team == c.team
    && match Execute(events).threads[i].pc
       case CleanupLookUp(t, d) => t == s && d == c
       case CleanupAcquire(t, d, _) => t == s && d == c
       case CleanupCheck(t, d, _) => t == s && d == c
       case CleanupKill(t, d, _) => t == s && d == c
       case Finished => exists k: nat :: FoundAnother(events, k, i, s) || LeftNoRuntime(events, k, i, c)
       case _ => false
  }

  /** A cleanup returns from its check or from its kill. */
  lemma ReturnsFrom(sh: Core, ms: Members, th: Thread, ok: bool)
    requires InCleanup(th.pc) && MovePc(sh, ms, th, ok).Finished?
    ensures th.pc.CleanupKill?
         || (th.pc.CleanupCheck? && th.team in sh.published && sh.published[th.team] != th.pc.session)
  {
  }

  lemma KillLeavesNoRuntime(events: seq<Event>, k: nat, i: ThreadId)
    requires StepsAt(events, k, i) && PcAt(events, k, i).CleanupKill?
    ensures LeftNoRuntime(events, k, i, PcAt(events, k, i).conversation)
  {
    StepAt(events, k, i);
    RuntimesChange(Execute(events[..k]), events[k], PcAt(events, k, i).conversation);
  }

  lemma CleanupStepFinishes(events: seq<Event>, i: ThreadId, s: SessionId, c: Conversation)
    requires events != [] && CleanupStands(events[..|events| - 1], i, s, c)
    requires events[|events| - 1].Advance? && events[|events| - 1].thread == i
    requires !Execute(events[..|events| - 1]).threads[i].pc.Finished? && Execute(events).threads[i].pc.Finished?
    ensures var k := |events| - 1; FoundAnother(events, k, i, s) || LeftNoRuntime(events, k, i, c)
  {
    var k := |events| - 1;
    var sv := Execute(events[..k]);
    assert StepsAt(events, k, i);
    OneMore(events, i);
    ReturnsFrom(sv.core, sv.members, sv.threads[i], events[k].ok);
    if PcAt(events, k, i).CleanupKill? {
      KillLeavesNoRuntime(events, k, i);
    }
  }

  lemma CleanupGoesOn(events: seq<Event>, i: ThreadId, s: SessionId, c: Conversation)
    requires events != [] && CleanupStands(events[..|events| - 1], i, s, c)
    ensures CleanupStands(events, i, s, c)
  {
    var n := |events| - 1;
    OneMore(events, i);
    if Execute(events[..n]).threads[i].pc.Finished? {
      var k: nat :| FoundAnother(events[..n], k, i, s) || LeftNoRuntime(events[..n], k, i, c);
      StepsStay(events, n, k, i);
      assert FoundAnother(events, k, i, s) || LeftNoRuntime(events, k, i, c);
    } else if Execute(events).threads[i].pc.Finished? {
      CleanupStepFinishes(events, i, s, c);
    }
  }

  /** In every run, a cleanup that was called at event `p` has, when it has returned, either met another session of the
    * team published, or left its conversation without a runtime by its last step. */
  lemma {:induction false} CleanupsKillOrYield(events: seq<Event>, p: nat)
    requires p < |events| && events[p].CallCleanup? && events[p].session < |Execute(events[..p]).core.sessions|
    ensures var before := Execute(events[..p]);
      var s, i := events[p].session, |before.threads|;
      CleanupStands(events, i, s, Conversation(before.core.sessions[s].team, events[p].number))
  {
    var n := |events| - 1;
    if p < n {
      assert events[..n][..p] == events[..p];
      CleanupsKillOrYield(events[..n], p);
      var before := Execute(events[..p]);
      CleanupGoesOn(events, |before.threads|, events[p].session,
                    Conversation(before.core.sessions[events[p].session].team, events[p].number));
    }
  }

  /** And it kills exactly when no other session of the team is published at its check. */
  lemma CleanupKillsIff(events: seq<Event>, k: nat, i: ThreadId)
    requires StepsAt(events, k, i) && PcAt(events, k, i).CleanupCheck?
    ensures i < |Execute(events[..k + 1]).threads|
    ensures Execute(events[..k + 1]).threads[i].pc.CleanupKill? <==>
      !FoundAnother(events, k, i, PcAt(events, k, i).session)
  {
    StepAt(events, k, i);
  }

  // ---- What a stop has done ----

  /** How far a session has come. */
  function Age(phase: Phase): nat {
    match phase
    case Bootstrapping(_) => 0
    case Live => 1
    case Stopping(_) => 2
    case Stopped => 3
  }

  /** The session has only grown older, and has changed only so. */
  predicate Aged(a: Session, b: Session) {
    a.team == b.team && (a == b || Age(a.phase) < Age(b.phase))
  }

  lemma StartStepAges(sh: Core, i: ThreadId, th: Thread, ok: bool, number: nat, s: SessionId)
    requires ThreadInv(sh, i, th) && StartStep(th.pc) && s < |sh.sessions|
    ensures var after := MoveCore(sh, i, th, ok, number).sessions; s < |after| && Aged(sh.sessions[s], after[s])
  {
  }

  lemma StopStepAges(sh: Core, i: ThreadId, th: Thread, ok: bool, number: nat, s: SessionId)
    requires CoreInv(sh) && ThreadInv(sh, i, th) && StopStep(th.pc) && s < |sh.sessions|
    ensures var after := MoveCore(sh, i, th, ok, number).sessions; s < |after| && Aged(sh.sessions[s], after[s])
  {
  }

  lemma OtherStepsKeepSessions(sh: Core, i: ThreadId, th: Thread, ok: bool, number: nat)
    requires !StartStep(th.pc) && !StopStep(th.pc)
    ensures MoveCore(sh, i, th, ok, number).sessions == sh.sessions
  {
  }

  lemma SessionsAge(sv: Service, event: Event, s: SessionId)
    requires Inv(sv) && s < |sv.core.sessions|
    ensures s < |Next(sv, event).core.sessions| && Aged(sv.core.sessions[s], Next(sv, event).core.sessions[s])
  {
    if event.Advance? && event.thread < |sv.threads| {
      var i, th := event.thread, sv.threads[event.thread];
      assert ThreadInv(sv.core, i, th);
      if StartStep(th.pc) {
        StartStepAges(sv.core, i, th, event.ok, event.number, s);
      } else if StopStep(th.pc) {
        StopStepAges(sv.core, i, th, event.ok, event.number, s);
      } else {
        OtherStepsKeepSessions(sv.core, i, th, event.ok, event.number);
      }
    }
  }

  /** In every run sessions go one way: bootstrapping, live, stopping, stopped; they may leave out stages, but none
    * comes back. */
  lemma {:induction false} SessionsOnlyAge(events: seq<Event>, k: nat, s: SessionId)
    requires k <= |events| && s < |Execute(events[..k]).core.sessions|
    ensures s < |Execute(events).core.sessions|
    ensures Aged(Execute(events[..k]).core.sessions[s], Execute(events).core.sessions[s])
  {
    if k == |events| {
      assert events[..k] == events;
    } else {
      var init := events[..|events| - 1];
      assert init[..k] == events[..k];
      SessionsOnlyAge(init, k, s);
      ExecuteKeepsInv(init);
      SessionsAge(Execute(init), events[|events| - 1], s);
    }
  }

  /** A thread at or before its stop of a session, and then past it. */
  lemma StopMoves(sv: Service, event: Event, i: ThreadId, s: SessionId)
    requires Inv(sv) && i < |sv.threads| && s < |sv.core.sessions|
    requires sv.threads[i].pc == StopSession(s) || sv.core.sessions[s].phase.Stopped?
    ensures var t := Next(sv, event);
      && i < |t.threads| && s < |t.core.sessions|
      && (t.threads[i].pc == StopSession(s) || t.core.sessions[s].phase.Stopped?)
  {
    SessionsAge(sv, event, s);
  }

  lemma {:induction false} StopGoesOn(events: seq<Event>, k: nat, i: ThreadId, s: SessionId)
    requires k <= |events| && i < |Execute(events[..k]).threads| && s < |Execute(events[..k]).core.sessions|
    requires Execute(events[..k]).threads[i].pc == StopSession(s)
    ensures i < |Execute(events).threads| && s < |Execute(events).core.sessions|
    ensures Execute(events).threads[i].pc == StopSession(s) || Execute(events).core.sessions[s].phase.Stopped?
  {
    if k == |events| {
      assert events[..k] == events;
    } else {
      var init := events[..|events| - 1];
      assert init[..k] == events[..k];
      StopGoesOn(init, k, i, s);
      ExecuteKeepsInv(init);
      StopMoves(Execute(init), events[|events| - 1], i, s);
    }
  }

  /** The first step of a stop. */
  lemma TakesDown(sv: Service, i: ThreadId, ok: bool, number: nat)
    requires Inv(sv) && i < |sv.threads| && sv.threads[i].pc.RemovePublished?
    ensures var t, team := Next(sv, Advance(i, ok, number)), sv.threads[i].team;
      && i < |t.threads| && team !in t.core.published
      && (team !in sv.core.published ==> t.threads[i].pc.KillRuntimes?)
      && (team in sv.core.published ==>
            var s := sv.core.published[team];
            t.threads[i].pc == StopSession(s) && s < |t.core.sessions| && Age(t.core.sessions[s].phase) == 2)
  {
  }

  /** What is not young any more is not published. */
  lemma OldIsNotPublished(sv: Service, s: SessionId)
    requires CoreInv(sv.core) && s < |sv.core.sessions| && Age(sv.core.sessions[s].phase) >= 2
    ensures forall t :: t in sv.core.published ==> sv.core.published[t] != s
  {
  }

  lemma TakenDownForGood(events: seq<Event>, k: nat, i: ThreadId, s: SessionId)
    requires k <= |events| && i < |Execute(events[..k]).threads| && Execute(events[..k]).threads[i].pc == StopSession(s)
    requires s < |Execute(events[..k]).core.sessions| && Age(Execute(events[..k]).core.sessions[s].phase) == 2
    ensures i < |Execute(events).threads| && s < |Execute(events).core.sessions|
    ensures forall t :: t in Execute(events).core.published ==> Execute(events).core.published[t] != s
    ensures Execute(events).threads[i].pc != StopSession(s) ==> Execute(events).core.sessions[s].phase.Stopped?
  {
    StopGoesOn(events, k, i, s);
    SessionsOnlyAge(events, k, s);
    ExecuteKeepsInv(events);
    OldIsNotPublished(Execute(events), s);
  }

  /** In every run, a stop takes down the session that it finds: right after its first step the team has none published,
    * the one there was is never published again, and when the stop goes on to its kills it is stopped for good. */
  lemma StopsTakeDown(events: seq<Event>, k: nat, i: ThreadId)
    requires StepsAt(events, k, i) && PcAt(events, k, i).RemovePublished?
    ensures var before, after, end := Execute(events[..k]), Execute(events[..k + 1]), Execute(events);
      var team := before.threads[i].team;
      && team !in after.core.published
      && i < |after.threads| && i < |end.threads|
      && (team !in before.core.published ==> after.threads[i].pc.KillRuntimes?)
      && (team in before.core.published ==>
            var s := before.core.published[team];
            && s < |end.core.sessions|
            && (forall t :: t in end.core.published ==> end.core.published[t] != s)
            && (end.threads[i].pc != StopSession(s) ==> end.core.sessions[s].phase.Stopped?))
  {
    var before := Execute(events[..k]);
    StepAt(events, k, i);
    ExecuteKeepsInv(events[..k]);
    TakesDown(before, i, events[k].ok, events[k].number);
    ThreadStays(events, k, i);
    var team := before.threads[i].team;
    if team in before.core.published {
      TakenDownForGood(events, k + 1, i, before.core.published[team]);
    }
  }

  lemma {:induction false} ThreadStays(events: seq<Event>, k: nat, i: ThreadId)
    requires k <= |events| && i < |Execute(events[..k]).threads|
    ensures i < |Execute(events).threads| && Execute(events).threads[i].team == Execute(events[..k]).threads[i].team
    ensures Execute(events).threads[i].kind == Execute(events[..k]).threads[i].kind
  {
    if k == |events| {
      assert events[..k] == events;
    } else {
      var init := events[..|events| - 1];
      assert init[..k] == events[..k];
      ThreadStays(init, k, i);
      OneMore(events, i);
    }
  }

  /** Right after this step of the thread its team has no membership mutex in the table. */
  predicate Forgot(events: seq<Event>, k: nat, i: ThreadId) {
    && StepsAt(events, k, i) && PcAt(events, k, i).DeleteMembership?
    && Execute(events[..k]).threads[i].team !in Execute(events[..k + 1]).members.table
  }

  /** Where a stop stands, and if it has returned, what it has forgotten. */
  ghost predicate StopStands(events: seq<Event>, i: ThreadId, forgets: bool) {
    && i < |Execute(events).threads|
    && Execute(events).threads[i].kind == (if forgets then StopAndForget else Stop)
    && match Execute(events).threads[i].pc
       case RemovePublished => true
       case StopSession(_) => true
       case KillRuntimes => true
       case DeleteMembership => forgets
       case Finished => forgets ==> exists k: nat :: Forgot(events, k, i)
       case _ => false
  }

  /** A stop that forgets returns from its deletion. */
  lemma StopReturnsFrom(sh: Core, ms: Members, th: Thread, ok: bool)
    requires th.kind.StopAndForget? && MovePc(sh, ms, th, ok).Finished?
    requires th.pc.RemovePublished? || th.pc.StopSession? || th.pc.KillRuntimes? || th.pc.DeleteMembership?
    ensures th.pc.DeleteMembership?
  {
  }

  lemma StopPcs(sh: Core, ms: Members, th: Thread, ok: bool)
    requires th.pc.RemovePublished? || th.pc.StopSession? || th.pc.KillRuntimes? || th.pc.DeleteMembership?
    requires th.pc.DeleteMembership? ==> th.kind.StopAndForget?
    ensures var pc := MovePc(sh, ms, th, ok);
      && (pc.RemovePublished? || pc.StopSession? || pc.KillRuntimes? || pc.DeleteMembership? || pc.Finished?)
      && (pc.DeleteMembership? ==> th.kind.StopAndForget?)
  {
  }

  lemma DeletionForgets(events: seq<Event>, k: nat, i: ThreadId)
    requires StepsAt(events, k, i) && PcAt(events, k, i).DeleteMembership?
    ensures Forgot(events, k, i)
  {
    StepAt(events, k, i);
  }

  lemma StopStepStands(events: seq<Event>, i: ThreadId, forgets: bool)
    requires events != [] && StopStands(events[..|events| - 1], i, forgets)
    requires events[|events| - 1].Advance? && events[|events| - 1].thread == i
    requires !Execute(events[..|events| - 1]).threads[i].pc.Finished?
    ensures StopStands(events, i, forgets)
  {
    var n := |events| - 1;
    var sv, th := Execute(events[..n]), Execute(events[..n]).threads[i];
    OneMore(events, i);
    StopPcs(sv.core, sv.members, th, events[n].ok);
    if forgets && MovePc(sv.core, sv.members, th, events[n].ok).Finished? {
      StopReturnsFrom(sv.core, sv.members, th, events[n].ok);
      DeletionForgets(events, n, i);
    }
  }

  lemma StopStandsOn(events: seq<Event>, i: ThreadId, forgets: bool)
    requires events != [] && StopStands(events[..|events| - 1], i, forgets)
    ensures StopStands(events, i, forgets)
  {
    var n := |events| - 1;
    OneMore(events, i);
    if Execute(events[..n]).threads[i].pc.Finished? {
      if forgets {
        var k: nat :| Forgot(events[..n], k, i);
        StepsStay(events, n, k, i);
        assert Forgot(events, k, i);
      }
    } else if events[n].Advance? && events[n].thread == i {
      StopStepStands(events, i, forgets);
    }
  }

  /** In every run, a stop that archives or removes its team has, when it has returned, deleted the team's membership
    * mutex by its last step; one that does not never comes to that. */
  lemma {:induction false} StopsForgetIff(events: seq<Event>, p: nat)
    requires p < |events| && events[p].CallStop?
    ensures StopStands(events, |Execute(events[..p]).threads|, events[p].forgetTeam)
  {
    var n := |events| - 1;
    if p < n {
      assert events[..n][..p] == events[..p];
      StopsForgetIff(events[..n], p);
      StopStandsOn(events, |Execute(events[..p]).threads|, events[p].forgetTeam);
    }
  }

  // ---- What an ensure has done ----

  predicate IsEnsure(kind: Kind) {
    kind.EnsureTeam? || kind.EnsureAgent?
  }

  /** Right after this step of the thread its team has a published session. */
  predicate FoundPublished(events: seq<Event>, k: nat, i: ThreadId) {
    && StepsAt(events, k, i) && i < |Execute(events[..k + 1]).threads|
    && Execute(events[..k]).threads[i].team in Execute(events[..k + 1]).core.published
  }

  /** At this step the team was missing, or its session could not be started or bootstrapped. */
  predicate Failed(events: seq<Event>, k: nat, i: ThreadId) {
    && StepsAt(events, k, i) && !events[k].ok
    && (PcAt(events, k, i).LoadTeam? || PcAt(events, k, i).StartSession? || PcAt(events, k, i).Bootstrap?)
  }

  /** At this step the thread bootstrapped this session. */
  predicate Bootstrapped(events: seq<Event>, k: nat, i: ThreadId, s: SessionId) {
    StepsAt(events, k, i) && events[k].ok && PcAt(events, k, i).Bootstrap? && PcAt(events, k, i).session == s
  }

  ghost predicate EverBootstrapped(events: seq<Event>, i: ThreadId, s: SessionId) {
    exists k: nat :: Bootstrapped(events, k, i, s)
  }

  ghost predicate EverPublished(events: seq<Event>, i: ThreadId) {
    exists k: nat :: FoundPublished(events, k, i)
  }

  ghost predicate EverFailed(events: seq<Event>, i: ThreadId) {
    exists k: nat :: Failed(events, k, i)
  }

  /** Where an ensure caller stands, and why it goes on to its reservation, gives up, or has returned. */
  ghost predicate EnsureStands(events: seq<Event>, i: ThreadId)
    requires i < |Execute(events).threads|
  {
    match Execute(events).threads[i].pc
    case Publish(_, _, s) => Execute(events).threads[i].kind.EnsureTeam? ==> EverBootstrapped(events, i, s)
    case Reserve(_) => EverPublished(events, i)
    case ReserveUnderBoth(_, _) => EverPublished(events, i)
    case Recover(_) => EverPublished(events, i)
    case AbortKills(_, _, _) => EverFailed(events, i)
    case Finished => EverPublished(events, i) || EverFailed(events, i)
    case _ => true
  }

  lemma EnsureStandsOn(events: seq<Event>, n: nat, i: ThreadId)
    requires n <= |events|
    ensures EverPublished(events[..n], i) ==> EverPublished(events, i)
    ensures EverFailed(events[..n], i) ==> EverFailed(events, i)
    ensures forall s :: EverBootstrapped(events[..n], i, s) ==> EverBootstrapped(events, i, s)
  {
    forall s | EverBootstrapped(events[..n], i, s)
      ensures EverBootstrapped(events, i, s)
    {
      var k: nat :| Bootstrapped(events[..n], k, i, s);
      StepsStay(events, n, k, i);
      assert Bootstrapped(events, k, i, s);
    }
    if k: nat :| FoundPublished(events[..n], k, i) {
      StepsStay(events, n, k, i);
      assert FoundPublished(events, k, i);
    }
    if k: nat :| Failed(events[..n], k, i) {
      StepsStay(events, n, k, i);
      assert Failed(events, k, i);
    }
  }

  lemma EnsureSteps(events: seq<Event>, i: ThreadId)
    requires events != [] && StepsAt(events, |events| - 1, i)
    requires IsEnsure(Execute(events[..|events| - 1]).threads[i].kind)
    requires EnsureKind(Execute(events[..|events| - 1]).threads[i].pc)
    requires EnsureStands(events[..|events| - 1], i)
    ensures i < |Execute(events).threads| && EnsureStands(events, i)
  {
    var n := |events| - 1;
    var sv := Execute(events[..n]);
    assert events[..n + 1] == events;
    StepAt(events, n, i);
    OneMore(events, i);
    EnsureStandsOn(events, n, i);
    if Failed(events, n, i) {
      assert EverFailed(events, i);
    }
    if FoundPublished(events, n, i) {
      assert EverPublished(events, i);
    }
    if sv.threads[i].pc.Bootstrap? && events[n].ok {
      assert Bootstrapped(events, n, i, sv.threads[i].pc.session);
      assert EverBootstrapped(events, i, sv.threads[i].pc.session);
    }
  }

  /** The points of an ensure caller. */
  predicate EnsureKind(pc: Pc) {
    || pc.LookUpMembership? || pc.AcquireMembership? || pc.LoadTeam? || pc.CheckPublished? || pc.LookUpEnsure?
    || pc.AcquireEnsure? || pc.Recheck? || pc.StartSession? || pc.Bootstrap? || pc.AbortKills? || pc.Publish?
    || pc.Recover? || pc.Reserve? || pc.ReserveUnderBoth? || pc.Finished?
  }

  lemma EnsureKindMoves(sh: Core, ms: Members, th: Thread, ok: bool)
    requires EnsureKind(th.pc)
    ensures EnsureKind(MovePc(sh, ms, th, ok))
  {
  }

  lemma NewThread(sv: Service, event: Event, i: ThreadId)
    requires |sv.threads| <= i < |Next(sv, event).threads| && IsEnsure(Next(sv, event).threads[i].kind)
    ensures Next(sv, event).threads[i].pc.LookUpMembership?
  {
  }

  lemma {:induction false} EnsureIsEnsure(events: seq<Event>, i: ThreadId)
    requires i < |Execute(events).threads| && IsEnsure(Execute(events).threads[i].kind)
    ensures EnsureKind(Execute(events).threads[i].pc)
  {
    var init := events[..|events| - 1];
    if i < |Execute(init).threads| {
      var th := Execute(init).threads[i];
      OneMore(events, i);
      EnsureIsEnsure(init, i);
      EnsureKindMoves(Execute(init).core, Execute(init).members, th, events[|init|].Advance? && events[|init|].ok);
    } else {
      NewThread(Execute(init), events[|init|], i);
    }
  }

  /** In every run, an ensure caller that has returned has seen its team with a published session at one of its own
    * steps, or the team missing, or the start or the bootstrap of its session fail; and one that ensures the whole team
    * publishes no session that it has not bootstrapped. */
  lemma {:induction false} EnsuresServe(events: seq<Event>, i: ThreadId)
    requires i < |Execute(events).threads| && IsEnsure(Execute(events).threads[i].kind)
    ensures EnsureStands(events, i)
  {
    var n := |events| - 1;
    if i < |Execute(events[..n]).threads| {
      OneMore(events, i);
      EnsuresServe(events[..n], i);
      EnsureIsEnsure(events[..n], i);
      if events[n].Advance? && events[n].thread == i {
        EnsureSteps(events, i);
      } else {
        EnsureStandsOn(events, n, i);
      }
    }
  }
}
