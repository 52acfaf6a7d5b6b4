/** The bounded scheduler that rebuilds a team's agent processes: at most three jobs in flight, no launch after a
  * collected failure, the rest drained, and every process that did come up killed again when one failed.
  * Jobs complete in any order and with any result, and the stagger timer may fire at any moment.
  */
module Rebuild {
  import opened Roles

  datatype Agent = Agent(slot: nat, conversation: nat, role: Role)

  datatype Outcome = Outcome(agent: Agent, ok: bool)

  const MAX_CONCURRENCY: nat := 3

  // ---- Launch order ----

  function OfRole(agents: seq<Agent>, role: Role): seq<Agent> {
    if agents == [] then []
    else (if agents[0].role == role then [agents[0]] else []) + OfRole(agents[1..], role)
  }

  /** The roster sorted by role, leads first; the sort is stable. */
  function LeadsFirst(agents: seq<Agent>): seq<Agent> {
    OfRole(agents, Lead) + OfRole(agents, Teammate)
  }

  lemma TailOfAppend(a: seq<Agent>, b: seq<Agent>)
    requires a != []
    ensures (a + b)[1..] == a[1..] + b && (a + b)[0] == a[0]
  {
  }

  lemma Associative(a: seq<Agent>, b: seq<Agent>, c: seq<Agent>)
    ensures (a + b) + c == a + (b + c)
  {
  }

  lemma {:induction false} OfRoleAppend(a: seq<Agent>, b: seq<Agent>, role: Role)
    ensures OfRole(a + b, role) == OfRole(a, role) + OfRole(b, role)
  {
    if a == [] {
      assert a + b == b;
    } else {
      TailOfAppend(a, b);
      OfRoleAppend(a[1..], b, role);
      Associative(if a[0].role == role then [a[0]] else [], OfRole(a[1..], role), OfRole(b, role));
    }
  }

  lemma {:induction false} OfRoleMembers(agents: seq<Agent>, role: Role)
    ensures AllOfRole(OfRole(agents, role), role)
  {
    if agents == [] {
    } else {
      OfRoleMembers(agents[1..], role);
    }
  }

  lemma {:induction false} OfRoleTwice(agents: seq<Agent>, role: Role, other: Role)
    ensures OfRole(OfRole(agents, role), other) == if other == role then OfRole(agents, role) else []
  {
    if agents == [] {
    } else {
      OfRoleTwice(agents[1..], role, other);
      OfRoleAppend(if agents[0].role == role then [agents[0]] else [], OfRole(agents[1..], role), other);
    }
  }

  lemma {:induction false} OfRoleSplits(agents: seq<Agent>)
    ensures multiset(OfRole(agents, Lead)) + multiset(OfRole(agents, Teammate)) == multiset(agents)
  {
    if agents == [] {
    } else {
      OfRoleSplits(agents[1..]);
      assert agents == [agents[0]] + agents[1..];
    }
  }

  predicate AllOfRole(agents: seq<Agent>, role: Role) {
    forall i :: 0 <= i < |agents| ==> agents[i].role == role
  }

  /** No teammate comes before a lead. */
  predicate LeadsComeFirst(agents: seq<Agent>) {
    forall i, j :: 0 <= i < j < |agents| && agents[j].role == Lead ==> agents[i].role == Lead
  }

  lemma LeadsThenTeammates(leads: seq<Agent>, teammates: seq<Agent>)
    requires AllOfRole(leads, Lead) && AllOfRole(teammates, Teammate)
    ensures LeadsComeFirst(leads + teammates)
  {
  }

  lemma OfRoleOfSorted(agents: seq<Agent>, role: Role)
    ensures OfRole(LeadsFirst(agents), role) == OfRole(agents, role)
  {
    var leads, teammates := OfRole(agents, Lead), OfRole(agents, Teammate);
    OfRoleAppend(leads, teammates, role);
    OfRoleTwice(agents, Lead, role);
    OfRoleTwice(agents, Teammate, role);
  }

  /** The launch order is the stable sort of the roster by role: a permutation, leads before teammates, and the
    * agents of each role in roster order. */
  lemma LeadsFirstIsStableSort(agents: seq<Agent>)
    ensures multiset(LeadsFirst(agents)) == multiset(agents)
    ensures LeadsComeFirst(LeadsFirst(agents))
    ensures OfRole(LeadsFirst(agents), Lead) == OfRole(agents, Lead)
    ensures OfRole(LeadsFirst(agents), Teammate) == OfRole(agents, Teammate)
  {
    OfRoleSplits(agents);
    OfRoleMembers(agents, Lead);
    OfRoleMembers(agents, Teammate);
    LeadsThenTeammates(OfRole(agents, Lead), OfRole(agents, Teammate));
    OfRoleOfSorted(agents, Lead);
    OfRoleOfSorted(agents, Teammate);
  }

  // ---- What happened, in order ----

  datatype Event =
    | Launch(agent: Agent)
    | Collect(outcome: Outcome)
    | Panic(agent: Agent)      // the job panicked, which its joiner notices
    | Abort(agent: Agent)      // the job was still running when the job set was dropped
    | Kill(agent: Agent)

  function Launched(trace: seq<Event>): seq<Agent> {
    if trace == [] then []
    else
      LaunchedWith(Launched(trace[..|trace| - 1]), trace[|trace| - 1])
  }

  function LaunchedWith(before: seq<Agent>, e: Event): seq<Agent> {
    if e.Launch? then before + [e.agent] else before
  }

  function Collected(trace: seq<Event>): seq<Outcome> {
    if trace == [] then []
    else
      CollectedWith(Collected(trace[..|trace| - 1]), trace[|trace| - 1])
  }

  function CollectedWith(before: seq<Outcome>, e: Event): seq<Outcome> {
    if e.Collect? then before + [e.outcome] else before
  }

  function Killed(trace: seq<Event>): seq<Agent> {
    if trace == [] then []
    else
      var before, e := Killed(trace[..|trace| - 1]), trace[|trace| - 1];
      if e.Kill? then before + [e.agent] else before
  }

  /** The jobs that ended without an outcome: they panicked, or were aborted. */
  function Lost(trace: seq<Event>): multiset<Agent> {
    if trace == [] then multiset{}
    else
      LostWith(Lost(trace[..|trace| - 1]), trace[|trace| - 1])
  }

  function LostWith(before: multiset<Agent>, e: Event): multiset<Agent> {
    if e.Panic? || e.Abort? then before + multiset{e.agent} else before
  }

  /** What an event does to the jobs in flight. */
  function After(running: multiset<Agent>, e: Event): multiset<Agent> {
    match e
    case Launch(a) => running + multiset{a}
    case Collect(o) => running - multiset{o.agent}
    case Panic(a) => running - multiset{a}
    case Abort(a) => running - multiset{a}
    case Kill(_) => running
  }

  /** The jobs in flight: launched, and neither collected, panicked nor aborted since. */
  function Running(trace: seq<Event>): multiset<Agent> {
    if trace == [] then multiset{} else After(Running(trace[..|trace| - 1]), trace[|trace| - 1])
  }

  /** A job is ended only while it runs, and processes are killed only when no job runs. */
  predicate Permitted(running: multiset<Agent>, e: Event) {
    match e
    case Launch(_) => true
    case Collect(o) => o.agent in running
    case Panic(a) => a in running
    case Abort(a) => a in running
    case Kill(_) => running == multiset{}
  }

  ghost predicate EndsRunningJobs(trace: seq<Event>) {
    forall k :: 0 <= k < |trace| ==> Permitted(Running(trace[..k]), trace[k])
  }

  ghost predicate Bounded(trace: seq<Event>) {
    forall k :: 0 <= k <= |trace| ==> |Running(trace[..k])| <= MAX_CONCURRENCY
  }

  ghost predicate NoLaunchAfterFailure(trace: seq<Event>) {
    forall i, j :: 0 <= i < j < |trace| && trace[i].Collect? && !trace[i].outcome.ok ==> !trace[j].Launch?
  }

  ghost predicate Panicked(trace: seq<Event>) {
    exists k :: 0 <= k < |trace| && trace[k].Panic?
  }

  predicate AllOk(outcomes: seq<Outcome>) {
    forall i :: 0 <= i < |outcomes| ==> outcomes[i].ok
  }

  function Failures(outcomes: seq<Outcome>): seq<Outcome> {
    if outcomes == [] then []
    else
      var before, last := Failures(outcomes[..|outcomes| - 1]), outcomes[|outcomes| - 1];
      if last.ok then before else before + [last]
  }

  function Successes(outcomes: seq<Outcome>): seq<Agent> {
    if outcomes == [] then []
    else
      var before, last := Successes(outcomes[..|outcomes| - 1]), outcomes[|outcomes| - 1];
      if last.ok then before + [last.agent] else before
  }

  lemma AllOkAppend(outcomes: seq<Outcome>, o: Outcome)
    ensures AllOk(outcomes + [o]) <==> AllOk(outcomes) && o.ok
  {
    var all := outcomes + [o];
    assert all[|outcomes|] == o;
    if AllOk(all) {
      assert forall i :: 0 <= i < |outcomes| ==> all[i] == outcomes[i];
    }
  }

  lemma {:induction false} NoFailuresIffAllOk(outcomes: seq<Outcome>)
    ensures Failures(outcomes) == [] <==> AllOk(outcomes)
  {
    if outcomes == [] {
    } else {
      var init, last := outcomes[..|outcomes| - 1], outcomes[|outcomes| - 1];
      NoFailuresIffAllOk(init);
      assert outcomes == init + [last];
      AllOkAppend(init, last);
    }
  }

  lemma TraceGrows(trace: seq<Event>, e: Event)
    ensures var t := trace + [e];
      && Launched(t) == LaunchedWith(Launched(trace), e)
      && Collected(t) == CollectedWith(Collected(trace), e)
      && Killed(t) == (if e.Kill? then Killed(trace) + [e.agent] else Killed(trace))
      && Running(t) == After(Running(trace), e)
      && Lost(t) == LostWith(Lost(trace), e)
  {
    assert (trace + [e])[..|trace|] == trace;
  }

  // ---- The scheduler ----

  /** A state of the scheduler: the job set, the collected outcomes, and the history that led there. */
  datatype Progress = Progress(jobs: seq<Agent>, outcomes: seq<Outcome>, trace: seq<Event>)

  /** The history fits the job set and the outcomes, and keeps the bounds at every point; jobs are lost only to a
    * panic. */
  ghost predicate Sound(p: Progress, order: seq<Agent>, launched: nat) {
    && launched <= |order| && Launched(p.trace) == order[..launched]
    && Running(p.trace) == multiset(p.jobs)
    && Collected(p.trace) == p.outcomes
    && Bounded(p.trace) && EndsRunningJobs(p.trace) && NoLaunchAfterFailure(p.trace)
    && (Panicked(p.trace) || Lost(p.trace) == multiset{})
  }

  /** Nothing has panicked or been compensated yet. */
  ghost predicate Undisturbed(p: Progress) {
    Killed(p.trace) == [] && !Panicked(p.trace)
  }

  lemma BoundsGrow(trace: seq<Event>, e: Event)
    requires Bounded(trace) && EndsRunningJobs(trace) && NoLaunchAfterFailure(trace)
    requires |Running(trace + [e])| <= MAX_CONCURRENCY
    requires EndsRunningJobs(trace + [e]) <== EndsRunningJobs(trace)
    requires e.Launch? ==> AllOk(Collected(trace))
    ensures Bounded(trace + [e]) && EndsRunningJobs(trace + [e]) && NoLaunchAfterFailure(trace + [e])
  {
    var t := trace + [e];
    forall k | 0 <= k <= |t|
      ensures |Running(t[..k])| <= MAX_CONCURRENCY
    {
      assert k <= |trace| ==> t[..k] == trace[..k];
      assert k == |t| ==> t[..k] == t;
    }
    if e.Launch? {
      FailuresAreCollected(trace);
    }
  }

  lemma {:induction false} FailuresAreCollected(trace: seq<Event>)
    requires AllOk(Collected(trace))
    ensures forall i :: 0 <= i < |trace| && trace[i].Collect? ==> trace[i].outcome.ok
  {
    if trace == [] {
    } else {
      var e := trace[|trace| - 1];
      var rest := Collected(trace[..|trace| - 1]);
      assert Collected(trace)[..|rest|] == rest;
      if e.Collect? {
        assert Collected(trace)[|rest|] == e.outcome;
      }
      FailuresAreCollected(trace[..|trace| - 1]);
    }
  }

  lemma EndsGrow(trace: seq<Event>, e: Event)
    requires EndsRunningJobs(trace)
    requires Permitted(Running(trace), e)
    ensures EndsRunningJobs(trace + [e])
  {
    var t := trace + [e];
    forall k | 0 <= k < |t|
      ensures t[..k] == trace[..k]
    {
    }
    assert trace[..|trace|] == trace;
  }

  lemma WithoutIndex(jobs: seq<Agent>, i: nat)
    requires i < |jobs|
    ensures multiset(jobs[..i] + jobs[i + 1..]) == multiset(jobs) - multiset{jobs[i]}
  {
    assert jobs == jobs[..i] + [jobs[i]] + jobs[i + 1..];
  }

  /** A job of the set ends, in one of the three ways a job can end. */
  lemma JobEnds(p: Progress, i: nat, e: Event, order: seq<Agent>, launched: nat)
    requires Sound(p, order, launched) && i < |p.jobs| <= MAX_CONCURRENCY
    requires (e.Collect? && e.outcome.agent == p.jobs[i]) || ((e.Panic? || e.Abort?) && e.agent == p.jobs[i])
    requires e.Abort? ==> Panicked(p.trace)
    ensures Sound(Progress(p.jobs[..i] + p.jobs[i + 1..], CollectedWith(p.outcomes, e), p.trace + [e]),
                  order, launched)
    ensures Killed(p.trace + [e]) == Killed(p.trace)
    ensures Panicked(p.trace + [e]) <==> Panicked(p.trace) || e.Panic?
  {
    WithoutIndex(p.jobs, i);
    assert p.jobs[i] in Running(p.trace);
    TraceGrows(p.trace, e);
    EndsGrow(p.trace, e);
    assert |multiset(p.jobs[..i] + p.jobs[i + 1..])| == |p.jobs| - 1;
    BoundsGrow(p.trace, e);
    PanicGrows(p.trace, e);
  }

  lemma PanicGrows(trace: seq<Event>, e: Event)
    ensures Panicked(trace + [e]) <==> Panicked(trace) || e.Panic?
  {
    var t := trace + [e];
    if Panicked(trace) {
      var k :| 0 <= k < |trace| && trace[k].Panic?;
      assert t[k].Panic?;
    }
    if e.Panic? {
      assert t[|trace|].Panic?;
    }
    if Panicked(t) {
      var k :| 0 <= k < |t| && t[k].Panic?;
      assert k < |trace| ==> trace[k].Panic?;
    }
  }

  /** Waits for any job of the set: whichever finishes first, and however it ends. */
  method JoinNext(p: Progress, ghost order: seq<Agent>, ghost launched: nat)
      returns (q: Progress, panicked: bool, outcome: Outcome)
    requires Sound(p, order, launched) && Undisturbed(p) && 0 < |p.jobs| <= MAX_CONCURRENCY
    ensures Sound(q, order, launched) && |q.jobs| == |p.jobs| - 1 && Killed(q.trace) == []
    ensures Panicked(q.trace) <==> panicked
    ensures q.outcomes == if panicked then p.outcomes else p.outcomes + [outcome]
  {
    var i :| 0 <= i < |p.jobs|;
    panicked := *;
    var ok: bool := *;
    var agent := p.jobs[i];
    var rest := p.jobs[..i] + p.jobs[i + 1..];
    outcome := Outcome(agent, ok);
    if panicked {
      JobEnds(p, i, Panic(agent), order, launched);
      q := Progress(rest, p.outcomes, p.trace + [Panic(agent)]);
    } else {
      JobEnds(p, i, Collect(outcome), order, launched);
      q := Progress(rest, p.outcomes + [outcome], p.trace + [Collect(outcome)]);
    }
  }

  /** Dropping the job set aborts what is still running. */
  method DropJobs(p: Progress, ghost order: seq<Agent>, ghost launched: nat) returns (q: Progress)
    requires Sound(p, order, launched) && |p.jobs| <= MAX_CONCURRENCY && Panicked(p.trace)
    ensures Sound(q, order, launched) && q.jobs == [] && q.outcomes == p.outcomes
    ensures Killed(q.trace) == Killed(p.trace) && (Panicked(q.trace) <==> Panicked(p.trace))
  {
    q := p;
    while q.jobs != []
      invariant Sound(q, order, launched) && |q.jobs| <= MAX_CONCURRENCY && q.outcomes == p.outcomes
      invariant Killed(q.trace) == Killed(p.trace) && (Panicked(q.trace) <==> Panicked(p.trace))
      decreases |q.jobs|
    {
      JobEnds(q, 0, Abort(q.jobs[0]), order, launched);
      q := Progress(q.jobs[..0] + q.jobs[1..], q.outcomes, q.trace + [Abort(q.jobs[0])]);
    }
  }

  lemma OneMoreJob(jobs: seq<Agent>, agent: Agent)
    ensures multiset(jobs + [agent]) == multiset(jobs) + multiset{agent}
    ensures |multiset(jobs + [agent])| == |jobs| + 1
  {
  }

  lemma OneMoreLaunched(order: seq<Agent>, launched: nat)
    requires launched < |order|
    ensures order[..launched] + [order[launched]] == order[..launched + 1]
  {
  }

  /** A job starts while there is room, and no failure has been collected. */
  lemma JobStarts(p: Progress, order: seq<Agent>, launched: nat)
    requires Sound(p, order, launched) && launched < |order| && |p.jobs| < MAX_CONCURRENCY && AllOk(p.outcomes)
    ensures Sound(Progress(p.jobs + [order[launched]], p.outcomes, p.trace + [Launch(order[launched])]), order,
      launched + 1)
  {
    var agent := order[launched];
    TraceGrows(p.trace, Launch(agent));
    EndsGrow(p.trace, Launch(agent));
    OneMoreJob(p.jobs, agent);
    BoundsGrow(p.trace, Launch(agent));
    PanicGrows(p.trace, Launch(agent));
    OneMoreLaunched(order, launched);
  }

  /** Launches the next agent of the order. */
  method LaunchNext(p: Progress, order: seq<Agent>, launched: nat) returns (q: Progress)
    requires Sound(p, order, launched) && Undisturbed(p) && launched < |order| && |p.jobs| < MAX_CONCURRENCY &&
      AllOk(p.outcomes)
    ensures Sound(q, order, launched + 1) && Undisturbed(q) && |q.jobs| <= MAX_CONCURRENCY && q.outcomes == p.outcomes
  {
    var agent := order[launched];
    JobStarts(p, order, launched);
    TraceGrows(p.trace, Launch(agent));
    PanicGrows(p.trace, Launch(agent));
    q := Progress(p.jobs + [agent], p.outcomes, p.trace + [Launch(agent)]);
  }

  /** Whether collection went on, met a failed attach, or met a panic. */
  datatype Signal = Continue | Failure | JobPanic

  /** What holds between two steps of the launch phase. */
  ghost predicate Launching(p: Progress, order: seq<Agent>, launched: nat, signal: Signal) {
    && Sound(p, order, launched) && |p.jobs| <= MAX_CONCURRENCY && Killed(p.trace) == []
    && (Panicked(p.trace) <==> signal.JobPanic?)
    && (signal.Continue? ==> AllOk(p.outcomes))
    && (signal.Failure? ==> !AllOk(p.outcomes))
  }

  /** Collects one outcome and classifies it. */
  method CollectOne(p: Progress, ghost order: seq<Agent>, ghost launched: nat) returns (q: Progress, signal: Signal)
    requires Launching(p, order, launched, Continue) && p.jobs != []
    ensures Launching(q, order, launched, signal) && |q.jobs| == |p.jobs| - 1
  {
    var panicked, outcome;
    q, panicked, outcome := JoinNext(p, order, launched);
    if panicked {
      return q, JobPanic;
    }
    AllOkAppend(p.outcomes, outcome);
    signal := if outcome.ok then Continue else Failure;
  }

  /** Makes room in the job set before a launch. */
  method WaitForRoom(p: Progress, ghost order: seq<Agent>, ghost launched: nat) returns (q: Progress, signal: Signal)
    requires Launching(p, order, launched, Continue)
    ensures Launching(q, order, launched, signal)
    ensures signal.Continue? ==> |q.jobs| < MAX_CONCURRENCY
  {
    q, signal := p, Continue;
    while |q.jobs| >= MAX_CONCURRENCY && signal.Continue?
      invariant Launching(q, order, launched, signal)
      decreases |q.jobs|
    {
      q, signal := CollectOne(q, order, launched);
    }
  }

  /** Waits for the stagger timer, collecting whatever finishes first; an empty job set leaves only the timer. */
  method Stagger(p: Progress, ghost order: seq<Agent>, ghost launched: nat) returns (q: Progress, signal: Signal)
    requires Launching(p, order, launched, Continue)
    ensures Launching(q, order, launched, signal) && |q.jobs| <= |p.jobs|
  {
    q, signal := p, Continue;
    var timer: bool := *;
    while !timer && q.jobs != [] && signal.Continue?
      invariant Launching(q, order, launched, signal) && |q.jobs| <= |p.jobs|
      decreases |q.jobs|
    {
      q, signal := CollectOne(q, order, launched);
      timer := *;
    }
  }

  /** Collects every job that is still in the set, failures included; only a panic cuts this short. */
  method Drain(p: Progress, ghost order: seq<Agent>, ghost launched: nat) returns (q: Progress, panicked: bool)
    requires Sound(p, order, launched) && Undisturbed(p) && |p.jobs| <= MAX_CONCURRENCY
    ensures Sound(q, order, launched) && |q.jobs| <= MAX_CONCURRENCY && Killed(q.trace) == []
    ensures Panicked(q.trace) <==> panicked
    ensures !panicked ==> q.jobs == []
    ensures p.outcomes <= q.outcomes
  {
    q, panicked := p, false;
    while q.jobs != [] && !panicked
      invariant Sound(q, order, launched) && |q.jobs| <= MAX_CONCURRENCY && Killed(q.trace) == []
      invariant Panicked(q.trace) <==> panicked
      invariant p.outcomes <= q.outcomes
      decreases |q.jobs|
    {
      ghost var before := q.outcomes;
      var outcome;
      q, panicked, outcome := JoinNext(q, order, launched);
      assert before <= q.outcomes;
    }
  }

  /** Splits off the failures, in the order in which they were collected. */
  method Classify(outcomes: seq<Outcome>) returns (failures: seq<Outcome>)
    ensures failures == Failures(outcomes)
  {
    failures := [];
    for k := 0 to |outcomes|
      invariant failures == Failures(outcomes[..k])
    {
      assert outcomes[..k + 1][..k] == outcomes[..k];
      if !outcomes[k].ok {
        failures := failures + [outcomes[k]];
      }
    }
    assert outcomes[..|outcomes|] == outcomes;
  }

  /** Kills every process that did come up, in the order in which the outcomes were collected. */
  method KillSuccesses(outcomes: seq<Outcome>, before: seq<Event>) returns (trace: seq<Event>)
    requires Running(before) == multiset{} && Killed(before) == []
    requires Bounded(before) && EndsRunningJobs(before) && NoLaunchAfterFailure(before)
    ensures Killed(trace) == Successes(outcomes)
    ensures Launched(trace) == Launched(before) && Collected(trace) == Collected(before)
    ensures Running(trace) == multiset{} && Lost(trace) == Lost(before) && (Panicked(trace) <==> Panicked(before))
    ensures Bounded(trace) && EndsRunningJobs(trace) && NoLaunchAfterFailure(trace)
  {
    trace := before;
    for k := 0 to |outcomes|
      invariant Killed(trace) == Successes(outcomes[..k])
      invariant Launched(trace) == Launched(before) && Collected(trace) == Collected(before)
      invariant Running(trace) == multiset{} && Lost(trace) == Lost(before) && (Panicked(trace) <==> Panicked(before))
      invariant Bounded(trace) && EndsRunningJobs(trace) && NoLaunchAfterFailure(trace)
    {
      assert outcomes[..k + 1][..k] == outcomes[..k];
      if outcomes[k].ok {
        var kill := Kill(outcomes[k].agent);
        TraceGrows(trace, kill);
        EndsGrow(trace, kill);
        BoundsGrow(trace, kill);
        PanicGrows(trace, kill);
        trace := trace + [kill];
      }
    }
    assert outcomes[..|outcomes|] == outcomes;
  }

  datatype Result = Ok | AttachFailed(first: Agent) | JobPanicked

  /** What a rebuild promises, whatever order and results the jobs complete with. */
  ghost predicate Rebuilt(agents: seq<Agent>, result: Result, trace: seq<Event>) {
    var order := LeadsFirst(agents);
    && Bounded(trace) && EndsRunningJobs(trace) && NoLaunchAfterFailure(trace)
    && Launched(trace) <= order
    && Running(trace) == multiset{}
    && (result.Ok? <==> Launched(trace) == order && AllOk(Collected(trace)) && !Panicked(trace))
    && (result.JobPanicked? <==> Panicked(trace))
    && (Panicked(trace) || Lost(trace) == multiset{})
    && Killed(trace) == (if result.AttachFailed? then Successes(Collected(trace)) else [])
    && (result.AttachFailed? ==>
          Failures(Collected(trace)) != [] && result.first == Failures(Collected(trace))[0].agent)
  }

  /** Launches the agents one by one, until all are launched, an attach failed or a job panicked. */
  method LaunchAll(order: seq<Agent>) returns (p: Progress, signal: Signal, launched: nat)
    ensures Launching(p, order, launched, signal)
    ensures signal.Continue? ==> launched == |order|
  {
    p, signal, launched := Progress([], [], []), Continue, 0;
    while launched < |order| && signal.Continue?
      invariant Launching(p, order, launched, signal)
    {
      p, signal := WaitForRoom(p, order, launched);
      if signal.Continue? && launched > 0 {
        p, signal := Stagger(p, order, launched);
      }
      if !signal.Continue? {
        break;
      }
      p := LaunchNext(p, order, launched);
      launched := launched + 1;
    }
  }

  method RebuildAgentProcesses(agents: seq<Agent>) returns (result: Result, trace: seq<Event>)
    ensures Rebuilt(agents, result, trace)
  {
    var order := LeadsFirst(agents);
    var p, signal, launched := LaunchAll(order);
    if signal.JobPanic? {
      p := DropJobs(p, order, launched);
      return JobPanicked, p.trace;
    }
    ghost var collected := p.outcomes;
    var panicked;
    p, panicked := Drain(p, order, launched);
    if panicked {
      p := DropJobs(p, order, launched);
      return JobPanicked, p.trace;
    }
    assert AllOk(p.outcomes) ==> AllOk(collected) by {
      assert forall i :: 0 <= i < |collected| ==> collected[i] == p.outcomes[i];
    }
    var failures := Classify(p.outcomes);
    NoFailuresIffAllOk(p.outcomes);
    if failures == [] {
      return Ok, p.trace;
    }
    trace := KillSuccesses(p.outcomes, p.trace);
    result := AttachFailed(failures[0].agent);
  }

  // ---- What the promise means ----

  lemma InitAndLast(trace: seq<Event>)
    requires trace != []
    ensures trace[..|trace| - 1] + [trace[|trace| - 1]] == trace
  {
  }

  /** Every launched job ends exactly once: collected, or panicked or aborted by a panic. */
  lemma {:induction false} JobsAreConserved(trace: seq<Event>)
    requires EndsRunningJobs(trace)
    ensures multiset(Launched(trace)) == Running(trace) + Agents(Collected(trace)) + Lost(trace)
  {
    if trace == [] {
    } else {
      var init, e := trace[..|trace| - 1], trace[|trace| - 1];
      InitAndLast(trace);
      EndsShrink(init, e);
      JobsAreConserved(init);
      TraceGrows(init, e);
      OneStepConserves(Launched(init), Running(init), Collected(init), Lost(init), e);
    }
  }

  lemma EndsShrink(trace: seq<Event>, e: Event)
    requires EndsRunningJobs(trace + [e])
    ensures EndsRunningJobs(trace) && Permitted(Running(trace), e)
  {
    var t := trace + [e];
    assert forall k :: 0 <= k <= |trace| ==> t[..k] == trace[..k];
    assert trace[..|trace|] == trace;
    assert Permitted(Running(t[..|trace|]), t[|trace|]);
  }

  lemma OneStepConserves(launched: seq<Agent>, running: multiset<Agent>, collected: seq<Outcome>, lost: multiset<Agent>,
      e: Event)
    requires multiset(launched) == running + Agents(collected) + lost && Permitted(running, e)
    ensures multiset(LaunchedWith(launched, e)) ==
      After(running, e) + Agents(CollectedWith(collected, e)) + LostWith(lost, e)
  {
    if e.Collect? {
      AgentsGrow(collected, e.outcome);
    }
  }

  function Agents(outcomes: seq<Outcome>): multiset<Agent> {
    if outcomes == [] then multiset{}
    else Agents(outcomes[..|outcomes| - 1]) + multiset{outcomes[|outcomes| - 1].agent}
  }

  lemma AgentsGrow(outcomes: seq<Outcome>, o: Outcome)
    ensures Agents(outcomes + [o]) == Agents(outcomes) + multiset{o.agent}
  {
    assert (outcomes + [o])[..|outcomes|] == outcomes;
  }

  /** Successes and failures are all there is among the collected outcomes. */
  lemma {:induction false} SuccessesAndFailures(outcomes: seq<Outcome>)
    ensures Agents(outcomes) == multiset(Successes(outcomes)) + Agents(Failures(outcomes))
  {
    if outcomes == [] {
    } else {
      var init, last := outcomes[..|outcomes| - 1], outcomes[|outcomes| - 1];
      SuccessesAndFailures(init);
      if !last.ok {
        AgentsGrow(Failures(init), last);
      }
    }
  }

  /** A job that panicked is lost. */
  lemma {:induction false} PanicsLoseJobs(trace: seq<Event>)
    requires Panicked(trace)
    ensures Lost(trace) != multiset{}
  {
    var init, e := trace[..|trace| - 1], trace[|trace| - 1];
    InitAndLast(trace);
    PanicGrows(init, e);
    if e.Panic? {
      assert e.agent in Lost(trace);
    } else {
      PanicsLoseJobs(init);
      var a :| a in Lost(init);
      assert a in Lost(trace);
    }
  }

  /** A failed rebuild has seen every agent that it launched fail, or has killed its process, once each, exactly when
    * no job panicked. After a panic neither is known of the jobs that were lost, and no process that was collected as
    * a success is killed, since a panic returns past the kills. */
  lemma EveryLaunchIsSettledIff(agents: seq<Agent>, result: Result, trace: seq<Event>)
    requires Rebuilt(agents, result, trace) && !result.Ok?
    ensures multiset(Launched(trace)) == multiset(Killed(trace)) + Agents(Failures(Collected(trace))) <==>
      !Panicked(trace)
  {
    JobsAreConserved(trace);
    SuccessesAndFailures(Collected(trace));
    if Panicked(trace) {
      PanicsLoseJobs(trace);
    }
    Settlement(multiset(Launched(trace)), Successes(Collected(trace)), Killed(trace),
      Agents(Failures(Collected(trace))),
               Lost(trace));
  }

  /** Two cases of one account: all successes are killed and nothing is lost, or something is lost and none killed. */
  lemma Settlement(launched: multiset<Agent>, successes: seq<Agent>, killed: seq<Agent>, failed: multiset<Agent>,
      lost: multiset<Agent>)
    requires launched == multiset(successes) + failed + lost
    requires (killed == successes && lost == multiset{}) || (killed == [] && lost != multiset{})
    ensures launched == multiset(killed) + failed <==> lost == multiset{}
  {
    if lost != multiset{} {
      var a :| a in lost;
      assert launched[a] > failed[a];
    }
  }

  lemma OneLead(a: Agent)
    requires a.role == Lead
    ensures LeadsFirst([a]) == [a]
  {
    assert [a][1..] == [];
    assert OfRole([a], Lead) == [a] + [];
    assert OfRole([a], Teammate) == [] + [];
  }

  lemma OneLaunch(a: Agent)
    ensures Sound(Progress([a], [], [Launch(a)]), [a], 1) && Killed([Launch(a)]) == []
  {
    assert [] + [Launch(a)] == [Launch(a)] && [] + [a] == [a];
    assert [a][..0] == [];
    JobStarts(Progress([], [], []), [a], 0);
    TraceGrows([], Launch(a));
  }

  lemma OnePanic(a: Agent)
    ensures var trace := [Launch(a)] + [Panic(a)];
      && Launched(trace) == [a] && Collected(trace) == [] && Killed(trace) == [] && Panicked(trace)
      && Running(trace) == multiset{} && Bounded(trace) && EndsRunningJobs(trace) && NoLaunchAfterFailure(trace)
  {
    OneLaunch(a);
    JobEnds(Progress([a], [], [Launch(a)]), 0, Panic(a), [a], 1);
    assert [a][..0] + [a][1..] == [] && [a][..1] == [a];
  }

  /** The shortest such run: the one job of a team panics, and nothing is collected or killed. */
  lemma PanicLeavesJobsUnsettled(a: Agent)
    requires a.role == Lead
    ensures var trace := [Launch(a)] + [Panic(a)];
      && Rebuilt([a], JobPanicked, trace) && Launched(trace) == [a]
      && Collected(trace) == [] && Killed(trace) == []
  {
    OneLead(a);
    OnePanic(a);
  }

  /** A rebuild that succeeds has collected exactly the team, all of it attached. */
  lemma SuccessAttachesTheWholeTeam(agents: seq<Agent>, result: Result, trace: seq<Event>)
    requires Rebuilt(agents, result, trace) && result.Ok?
    ensures multiset(Successes(Collected(trace))) == multiset(agents) && Killed(trace) == []
  {
    JobsAreConserved(trace);
    SuccessesAndFailures(Collected(trace));
    NoFailuresIffAllOk(Collected(trace));
    LeadsFirstIsStableSort(agents);
  }
}
