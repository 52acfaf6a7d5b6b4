/** One event loop task per slot: a notifier map and a handle map changed together under the lifecycle lock. */
module EventLoops {
  import opened MemberRuntime

  type NotifierId = nat

  /** Tasks are numbered in the order in which they were spawned. */
  type TaskId = nat

  datatype SpawnResult = Spawned | Duplicate | Stopped

  /** `home[t]` is the slot that task `t` was spawned for; together with `aborted` it is the history of all tasks. */
  datatype Loops = Loops(
    notifiers: map<SlotId, NotifierId>,
    handles: map<SlotId, TaskId>,
    stopped: bool,
    home: seq<SlotId>,
    aborted: set<TaskId>)

  function NewLoops(): Loops {
    Loops(map[], map[], false, [], {})
  }

  predicate Has(s: Loops, slot: SlotId) {
    slot in s.notifiers
  }

  function SpawnLoop(s: Loops, slot: SlotId): (Loops, SpawnResult) {
    if s.stopped then (s, Stopped)
    else if slot in s.notifiers then (s, Duplicate)
    else
      var task := |s.home|;
      (s.(notifiers := s.notifiers[slot := task], handles := s.handles[slot := task], home := s.home + [slot]), Spawned)
  }

  function RemoveLoop(s: Loops, slot: SlotId): Loops {
    s.(notifiers := s.notifiers - {slot},
       handles := s.handles - {slot},
       aborted := s.aborted + if slot in s.handles then {s.handles[slot]} else {})
  }

  function ShutdownLoops(s: Loops): Loops {
    if s.stopped then s
    else s.(notifiers := map[], handles := map[], stopped := true, aborted := s.aborted + s.handles.Values)
  }

  datatype LoopOp = SpawnOp(slot: SlotId) | RemoveOp(slot: SlotId) | ShutdownOp

  function LoopStep(s: Loops, op: LoopOp): Loops {
    match op
    case SpawnOp(slot) => SpawnLoop(s, slot).0
    case RemoveOp(slot) => RemoveLoop(s, slot)
    case ShutdownOp => ShutdownLoops(s)
  }

  function LoopsAfter(s: Loops, ops: seq<LoopOp>): Loops {
    if ops == [] then s else LoopStep(LoopsAfter(s, ops[..|ops| - 1]), ops[|ops| - 1])
  }

  ghost predicate LoopInv(s: Loops) {
    && s.notifiers.Keys == s.handles.Keys
    && (s.stopped ==> s.handles == map[])
    && (forall t :: t in s.aborted ==> t < |s.home|)
    // a handle is a task of its own slot that nobody aborted
    && (forall slot {:trigger s.handles[slot]} :: slot in s.handles ==>
          s.handles[slot] < |s.home| && s.home[s.handles[slot]] == slot && s.handles[slot] !in s.aborted)
    // every task ever spawned is in the map or aborted
    && (forall t {:trigger s.home[t]} :: 0 <= t < |s.home| ==>
          t in s.aborted || (s.home[t] in s.handles && s.handles[s.home[t]] == t))
  }

  lemma LoopStepKeepsInv(s: Loops, op: LoopOp)
    requires LoopInv(s)
    ensures var t := LoopStep(s, op);
      && LoopInv(t)
      && s.aborted <= t.aborted && s.home <= t.home
      && (s.stopped ==> t.stopped)
  {
    var t := LoopStep(s, op);
    match op
    case SpawnOp(_) =>
    case RemoveOp(slot) =>
      forall u | 0 <= u < |t.home|
        ensures u in t.aborted || (t.home[u] in t.handles && t.handles[t.home[u]] == u)
      {
        assert u in s.aborted || s.handles[s.home[u]] == u;
      }
    case ShutdownOp =>
      forall u | 0 <= u < |t.home|
        ensures u in t.aborted || (t.home[u] in t.handles && t.handles[t.home[u]] == u)
      {
        assert u in s.aborted || s.handles[s.home[u]] == u;
      }
  }

  lemma {:induction false} LoopRunKeepsInv(ops: seq<LoopOp>)
    ensures LoopInv(LoopsAfter(NewLoops(), ops))
  {
    if ops == [] {
    } else {
      LoopRunKeepsInv(ops[..|ops| - 1]);
      LoopStepKeepsInv(LoopsAfter(NewLoops(), ops[..|ops| - 1]), ops[|ops| - 1]);
    }
  }

  /** In every run each slot has at most one task that was not aborted, and it is the one the maps know. */
  lemma OneLoopPerSlot(ops: seq<LoopOp>, t: TaskId, u: TaskId)
    requires var s := LoopsAfter(NewLoops(), ops);
      t < |s.home| && u < |s.home| && t !in s.aborted && u !in s.aborted && s.home[t] == s.home[u]
    ensures var s := LoopsAfter(NewLoops(), ops);
      t == u && Has(s, s.home[t]) && s.home[t] in s.handles && s.handles[s.home[t]] == t
  {
    LoopRunKeepsInv(ops);
  }

  /** The task of the slot that was spawned and not aborted, if there is one. */
  predicate Runs(s: Loops, slot: SlotId, t: TaskId) {
    t < |s.home| && s.home[t] == slot && t !in s.aborted
  }

  /** In every run a spawn brings up one new task, for its own slot, exactly when the slot has none and nothing is shut
    * down, and says so; it touches no other task. */
  lemma SpawnsAreExclusive(ops: seq<LoopOp>, slot: SlotId)
    ensures var s := LoopsAfter(NewLoops(), ops);
      var (t, result) := SpawnLoop(s, slot);
      && (result.Stopped? <==> s.stopped)
      && (result.Duplicate? <==> !s.stopped && exists u: TaskId :: Runs(s, slot, u))
      && (forall a, u: TaskId :: Runs(t, a, u) <==> Runs(s, a, u) || (result.Spawned? && a == slot && u == |s.home|))
      && (forall a :: Has(t, a) <==> Has(s, a) || (result.Spawned? && a == slot))
  {
    LoopRunKeepsInv(ops);
    var s := LoopsAfter(NewLoops(), ops);
    if Has(s, slot) {
      assert Runs(s, slot, s.handles[slot]);
    }
  }

  /** In every run a removal aborts the task of its slot, if there is one, and no other. */
  lemma RemovalsAreExact(ops: seq<LoopOp>, slot: SlotId)
    ensures var s := LoopsAfter(NewLoops(), ops);
      var t := RemoveLoop(s, slot);
      && (forall a, u: TaskId :: Runs(t, a, u) <==> Runs(s, a, u) && a != slot)
      && (forall a :: Has(t, a) <==> Has(s, a) && a != slot)
      && t.home == s.home && t.stopped == s.stopped
  {
    LoopRunKeepsInv(ops);
    var s := LoopsAfter(NewLoops(), ops);
    forall a, u: TaskId | Runs(s, a, u)
      ensures a in s.handles && s.handles[a] == u
    {
    }
  }

  /** After a shutdown no loop is registered or left running, whatever is called afterwards. */
  lemma {:induction false} ShutdownIsFinal(ops: seq<LoopOp>, later: seq<LoopOp>, slot: SlotId)
    ensures var s := LoopsAfter(NewLoops(), ops + [ShutdownOp] + later);
      && s.notifiers == map[] && s.handles == map[]
      && SpawnLoop(s, slot) == (s, Stopped)
      && (forall t :: 0 <= t < |s.home| ==> t in s.aborted)
  {
    var run := ops + [ShutdownOp] + later;
    LoopRunKeepsInv(run);
    if later == [] {
      assert run[..|run| - 1] == ops;
    } else {
      var fewer := later[..|later| - 1];
      assert run[..|run| - 1] == ops + [ShutdownOp] + fewer;
      ShutdownIsFinal(ops, fewer, slot);
    }
    var s := LoopsAfter(NewLoops(), run);
    assert s.stopped;
    forall t | 0 <= t < |s.home|
      ensures t in s.aborted
    {
      assert s.home[t] !in s.handles;
    }
  }

  lemma ValuesWithout(m: map<SlotId, TaskId>, slot: SlotId)
    requires slot in m
    ensures m.Values == (m - {slot}).Values + {m[slot]}
  {
    var rest := m - {slot};
    forall t | t in m.Values
      ensures t in rest.Values + {m[slot]}
    {
      var k :| k in m && m[k] == t;
      assert k != slot ==> k in rest && rest[k] == t;
    }
  }

  class EventLoopRegistry {
    var notifiers: map<SlotId, NotifierId>
    var handles: map<SlotId, TaskId>
    /** The value behind the lifecycle lock. */
    var stopped: bool
    /** What every running loop sees on its shutdown receiver. */
    var shutdownSignal: bool
    ghost var home: seq<SlotId>
    ghost var aborted: set<TaskId>
    var spawned: nat

    ghost function State(): Loops
      reads this
    {
      Loops(notifiers, handles, stopped, home, aborted)
    }

    ghost predicate Valid()
      reads this
    {
      LoopInv(State()) && spawned == |home| && shutdownSignal == stopped
    }

    constructor ()
      ensures Valid() && State() == NewLoops()
    {
      notifiers, handles, stopped, shutdownSignal, home, aborted, spawned := map[], map[], false, false, [], {}, 0;
    }

    method Spawn(slot: SlotId) returns (result: SpawnResult)
      requires Valid()
      modifies this
      ensures Valid() && (State(), result) == SpawnLoop(old(State()), slot)
    {
      LoopStepKeepsInv(State(), SpawnOp(slot));
      if stopped {
        return Stopped;
      }
      if slot in notifiers {
        return Duplicate;
      }
      notifiers := notifiers[slot := spawned];
      var task := spawned;
      spawned, home := spawned + 1, home + [slot];
      handles := handles[slot := task];
      return Spawned;
    }

    method Remove(slot: SlotId)
      requires Valid()
      modifies this
      ensures Valid() && State() == RemoveLoop(old(State()), slot)
    {
      LoopStepKeepsInv(State(), RemoveOp(slot));
      notifiers := notifiers - {slot};
      if slot in handles {
        aborted := aborted + {handles[slot]};
      }
      handles := handles - {slot};
    }

    /** Aborts every task in the handle map, in any order. */
    method AbortAll()
      modifies this`aborted
      ensures aborted == old(aborted) + handles.Values
    {
      var rest := handles;
      while rest.Keys != {}
        invariant aborted + rest.Values == old(aborted) + handles.Values
        decreases |rest.Keys|
      {
        var slot :| slot in rest.Keys;
        ValuesWithout(rest, slot);
        aborted := aborted + {rest[slot]};
        rest := rest - {slot};
      }
      assert rest == map[];
    }

    method Shutdown()
      requires Valid()
      modifies this
      ensures Valid() && State() == ShutdownLoops(old(State()))
    {
      LoopStepKeepsInv(State(), ShutdownOp);
      if stopped {
        return;
      }
      stopped := true;
      shutdownSignal := true;
      AbortAll();
      handles := map[];
      notifiers := map[];
    }
  }
}
