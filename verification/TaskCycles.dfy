/** Overrides and cycles: on any board without cycles, exactly which overrides of a task's blockers make one. */
module TaskCycles {
  import opened Wrappers
  import opened TaskGraph

  /** No chain of blockers leads from a task back to itself. */
  ghost predicate Acyclic(tasks: seq<Task>) {
    forall ids :: |ids| >= 2 && Chain(tasks, ids) ==> ids[0] != ids[|ids| - 1]
  }

  /** A chain of blockers, maybe of no step, leads from one id to another. */
  ghost predicate Reaches(tasks: seq<Task>, from: TaskId, to: TaskId) {
    exists ids :: |ids| >= 1 && ids[0] == from && ids[|ids| - 1] == to && Chain(tasks, ids)
  }

  /** The boards have the same tasks with the same blockers, but for the blockers of task `t`. */
  predicate SameElsewhere(a: seq<Task>, b: seq<Task>, t: TaskId) {
    && SameRows(a, b)
    && forall i :: 0 <= i < |a| && a[i].id != t ==> a[i].blockedBy == b[i].blockedBy
  }

  /** A chain none of whose links starts at `t` does not see the change. */
  lemma ChainAvoiding(a: seq<Task>, b: seq<Task>, t: TaskId, ids: seq<TaskId>)
    requires SameElsewhere(a, b, t) && Chain(a, ids)
    requires forall k :: 0 <= k < |ids| - 1 ==> ids[k] != t
    ensures Chain(b, ids)
  {
    SameLookups(a, b);
    forall k | 0 <= k < |ids| - 1
      ensures Link(b, ids, k)
    {
      assert Link(a, ids, k);
    }
  }

  lemma PartOfChain(tasks: seq<Task>, ids: seq<TaskId>, lo: nat, hi: nat)
    requires lo <= hi <= |ids| && Chain(tasks, ids)
    ensures Chain(tasks, ids[lo..hi])
  {
    forall k | 0 <= k < hi - lo - 1
      ensures Link(tasks, ids[lo..hi], k)
    {
      assert Link(tasks, ids, lo + k);
    }
  }

  lemma JoinChains(tasks: seq<Task>, x: seq<TaskId>, y: seq<TaskId>)
    requires Chain(tasks, x) && Chain(tasks, y) && x != [] && y != [] && x[|x| - 1] == y[0]
    ensures Chain(tasks, x + y[1..])
  {
    var z := x + y[1..];
    forall k | 0 <= k < |z| - 1
      ensures Link(tasks, z, k)
    {
      if k < |x| - 1 {
        assert Link(tasks, x, k);
      } else {
        var m := k - (|x| - 1);
        assert z[k] == y[m] && z[k + 1] == y[m + 1];
        assert Link(tasks, y, m);
      }
    }
  }

  lemma FirstVisit(ids: seq<TaskId>, t: TaskId) returns (m: nat)
    requires t in ids
    ensures m < |ids| && ids[m] == t && forall k :: 0 <= k < m ==> ids[k] != t
  {
    if ids[0] == t {
      m := 0;
    } else {
      m := FirstVisit(ids[1..], t);
      assert forall k :: 0 < k <= m ==> ids[k] == ids[1..][k - 1];
      m := m + 1;
    }
  }

  /** What reaches `t` on one board reaches it on the other. */
  lemma ReachesAlike(a: seq<Task>, b: seq<Task>, t: TaskId, ids: seq<TaskId>) returns (path: seq<TaskId>)
    requires SameElsewhere(a, b, t) && Chain(a, ids) && ids != [] && ids[|ids| - 1] == t
    ensures path != [] && path[0] == ids[0] && path[|path| - 1] == t && Chain(a, path) && Chain(b, path)
  {
    var m := FirstVisit(ids, t);
    path := ids[..m + 1];
    PartOfChain(a, ids, 0, m + 1);
    ChainAvoiding(a, b, t, path);
  }

  /** A cycle that visits `t` leaves it by one of its blockers and comes back. */
  lemma LeavesAndComesBack(tasks: seq<Task>, cycle: seq<TaskId>, p: nat) returns (path: seq<TaskId>)
    requires |cycle| >= 2 && Chain(tasks, cycle) && cycle[0] == cycle[|cycle| - 1] && p < |cycle| - 1
    ensures path != [] && BlockedBy(tasks, cycle[p], path[0]) && path[|path| - 1] == cycle[p] && Chain(tasks, path)
  {
    var x, y := cycle[p + 1..|cycle|], cycle[0..p + 1];
    PartOfChain(tasks, cycle, p + 1, |cycle|);
    PartOfChain(tasks, cycle, 0, p + 1);
    JoinChains(tasks, x, y);
    path := x + y[1..];
    assert Link(tasks, cycle, p);
    assert p > 0 ==> path[|path| - 1] == y[|y| - 1];
  }

  function WithBlockers(tasks: seq<Task>, k: nat, blockedBy: seq<TaskId>): seq<Task>
    requires k < |tasks|
  {
    tasks[k := tasks[k].(blockedBy := blockedBy)]
  }

  /** A link from `t` in front of a chain that ends in `t` closes a cycle. */
  lemma ClosedChain(tasks: seq<Task>, t: TaskId, path: seq<TaskId>)
    requires path != [] && path[|path| - 1] == t && Chain(tasks, path) && BlockedBy(tasks, t, path[0])
    ensures !Acyclic(tasks)
  {
    var cycle := [t] + path;
    forall k | 0 <= k < |cycle| - 1
      ensures Link(tasks, cycle, k)
    {
      if k > 0 {
        assert Link(tasks, path, k - 1);
      }
    }
    assert Chain(tasks, cycle) && cycle[|cycle| - 1] == t;
  }

  lemma NewCycle(tasks: seq<Task>, k: nat, blockedBy: seq<TaskId>, d: TaskId)
    requires Unique(tasks) && k < |tasks| && d in blockedBy && Reaches(tasks, d, tasks[k].id)
    ensures !Acyclic(WithBlockers(tasks, k, blockedBy))
  {
    var t, after := tasks[k].id, WithBlockers(tasks, k, blockedBy);
    var ids :| |ids| >= 1 && ids[0] == d && ids[|ids| - 1] == t && Chain(tasks, ids);
    var path := ReachesAlike(tasks, after, t, ids);
    AtIs(after, k);
    ClosedChain(after, t, path);
  }

  lemma OldCycleOrReach(tasks: seq<Task>, k: nat, blockedBy: seq<TaskId>, cycle: seq<TaskId>)
    requires Unique(tasks) && k < |tasks| && Acyclic(tasks)
    requires |cycle| >= 2 && Chain(WithBlockers(tasks, k, blockedBy), cycle) && cycle[0] == cycle[|cycle| - 1]
    ensures exists d :: d in blockedBy && Reaches(tasks, d, tasks[k].id)
  {
    var t, after := tasks[k].id, WithBlockers(tasks, k, blockedBy);
    if forall p :: 0 <= p < |cycle| - 1 ==> cycle[p] != t {
      ChainAvoiding(after, tasks, t, cycle);
    } else {
      var p :| 0 <= p < |cycle| - 1 && cycle[p] == t;
      var path := LeavesAndComesBack(after, cycle, p);
      AtIs(after, k);
      var back := ReachesAlike(after, tasks, t, path);
      assert Reaches(tasks, back[0], t);
    }
  }

  /** New blockers of a task keep a board without cycles exactly when no chain of blockers leads from one of them back
    * to the task; a task that names itself is the shortest such chain. */
  lemma OverrideKeepsAcyclicIff(tasks: seq<Task>, k: nat, blockedBy: seq<TaskId>)
    requires Unique(tasks) && k < |tasks| && Acyclic(tasks)
    ensures Acyclic(WithBlockers(tasks, k, blockedBy)) <==>
      forall d :: d in blockedBy ==> !Reaches(tasks, d, tasks[k].id)
  {
    if d :| d in blockedBy && Reaches(tasks, d, tasks[k].id) {
      NewCycle(tasks, k, blockedBy, d);
    }
    if !Acyclic(WithBlockers(tasks, k, blockedBy)) {
      var cycle :| |cycle| >= 2 && Chain(WithBlockers(tasks, k, blockedBy), cycle) && cycle[0] == cycle[|cycle| - 1];
      OldCycleOrReach(tasks, k, blockedBy, cycle);
    }
  }

  /** Taking blockers away makes no cycle. */
  lemma FewerBlockersFewerCycles(a: seq<Task>, b: seq<Task>)
    requires SameRows(a, b) && forall i, d :: 0 <= i < |a| && d in b[i].blockedBy ==> d in a[i].blockedBy
    requires Acyclic(a)
    ensures Acyclic(b)
  {
    forall ids | |ids| >= 2 && Chain(b, ids)
      ensures ids[0] != ids[|ids| - 1]
    {
      SameLookups(a, b);
      forall k | 0 <= k < |ids| - 1
        ensures Link(a, ids, k)
      {
        assert Link(b, ids, k);
      }
      assert Chain(a, ids);
    }
  }

  /** On any board with unique ids, the whole effect of an update that does not stop midway. */
  lemma UpdateRows(b: Board, team: TeamId, id: TaskId, changes: Changes)
    requires Unique(b.tasks) && AtInTeam(b.tasks, team, id) < |b.tasks|
    requires !Updated(b, team, id, changes).1.RowNotFound?
    ensures SameRows(b.tasks, Updated(b, team, id, changes).0.tasks)
    ensures forall i :: 0 <= i < |b.tasks| ==>
      Updated(b, team, id, changes).0.tasks[i] == Rewritten(b, i, AtInTeam(b.tasks, team, id), changes)
  {
    var k := AtInTeam(b.tasks, team, id);
    BlockersFound(b.tasks, team, id);
    if changes.status == Some(Completed) {
      var tasks := b.tasks[k := Changed(b.tasks[k], changes)];
      EditsStopIff(tasks, b.tasks[k].blocks, DropBlocker(id));
      EditAllIs(tasks, b.tasks[k].blocks, DropBlocker(id));
    }
  }

  lemma RewrittenAlike(b: Board, i: nat, k: nat, changes: Changes)
    requires i < |b.tasks| && k < |b.tasks|
    ensures var (plain, row) := (Rewritten(b, i, k, changes.(blockedBy := None)), Rewritten(b, i, k, changes));
      && (i != k ==> plain == row)
      && (forall d :: d in plain.blockedBy ==> d in b.tasks[i].blockedBy)
  {
    MinusMembers(b.tasks[i].blockedBy, {b.tasks[k].id});
  }

  lemma StopsAlike(b: Board, team: TeamId, id: TaskId, changes: Changes)
    requires AtInTeam(b.tasks, team, id) < |b.tasks|
    ensures Updated(b, team, id, changes.(blockedBy := None)).1.RowNotFound? <==>
      Updated(b, team, id, changes).1.RowNotFound?
  {
    if changes.status == Some(Completed) {
      CompletionFailsIff(b, team, id, changes);
      CompletionFailsIff(b, team, id, changes.(blockedBy := None));
    }
  }

  /** What an update that does not stop midway leaves of the blockers of every row but its own does not depend on its
    * override, and without the override it only takes blockers away. */
  lemma UpdatesAlike(b: Board, team: TeamId, id: TaskId, changes: Changes)
    requires Unique(b.tasks) && AtInTeam(b.tasks, team, id) < |b.tasks|
    requires !Updated(b, team, id, changes).1.RowNotFound?
    ensures var k := AtInTeam(b.tasks, team, id);
      var plain, after :=
        Updated(b, team, id, changes.(blockedBy := None)).0.tasks, Updated(b, team, id, changes).0.tasks;
      && SameRows(b.tasks, plain) && SameRows(b.tasks, after)
      && (forall i :: 0 <= i < |b.tasks| && i != k ==> plain[i].blockedBy == after[i].blockedBy)
      && (forall i, d :: 0 <= i < |b.tasks| && d in plain[i].blockedBy ==> d in b.tasks[i].blockedBy)
  {
    var k := AtInTeam(b.tasks, team, id);
    StopsAlike(b, team, id, changes);
    UpdateRows(b, team, id, changes);
    UpdateRows(b, team, id, changes.(blockedBy := None));
    forall i | 0 <= i < |b.tasks|
      ensures var (plain, row) := (Rewritten(b, i, k, changes.(blockedBy := None)), Rewritten(b, i, k, changes));
        (i != k ==> plain == row) && forall d :: d in plain.blockedBy ==> d in b.tasks[i].blockedBy
    {
      RewrittenAlike(b, i, k, changes);
    }
  }

  /** So an update, completing or not, keeps a board without cycles exactly when on the board that it leaves but for its
    * override, no chain leads back to the task from a blocker that the task ends up with. */
  lemma UpdateKeepsAcyclicIff(b: Board, team: TeamId, id: TaskId, changes: Changes)
    requires Unique(b.tasks) && Acyclic(b.tasks) && AtInTeam(b.tasks, team, id) < |b.tasks|
    requires !Updated(b, team, id, changes).1.RowNotFound?
    ensures AtInTeam(b.tasks, team, id) < |Updated(b, team, id, changes).0.tasks|
    ensures var plain, after :=
      Updated(b, team, id, changes.(blockedBy := None)).0.tasks, Updated(b, team, id, changes).0.tasks;
      Acyclic(after) <==> forall d :: d in after[AtInTeam(b.tasks, team, id)].blockedBy ==> !Reaches(plain, d, id)
  {
    var k := AtInTeam(b.tasks, team, id);
    var plain, after :=
      Updated(b, team, id, changes.(blockedBy := None)).0.tasks, Updated(b, team, id, changes).0.tasks;
    UpdatesAlike(b, team, id, changes);
    FewerBlockersFewerCycles(b.tasks, plain);
    OverrideKeepsAcyclicIff(plain, k, after[k].blockedBy);
    var overridden := WithBlockers(plain, k, after[k].blockedBy);
    if Acyclic(overridden) {
      FewerBlockersFewerCycles(overridden, after);
    }
    if Acyclic(after) {
      FewerBlockersFewerCycles(after, overridden);
    }
  }

  /** Linked boards, and so all boards that are reached without overrides, have no cycles. */
  lemma LinkedBoardsAreAcyclic(b: Board)
    requires Linked(b)
    ensures Acyclic(b.tasks)
  {
    forall ids | |ids| >= 2 && Chain(b.tasks, ids)
      ensures ids[0] != ids[|ids| - 1]
    {
      NoCycles(b, ids);
    }
  }
}
