/** The task board as a dependency graph kept in two lists: what blocks a task, and what a task blocks.
  *
  * A board is the list of all tasks of all teams in order of creation. Task ids are fresh numbers; the stored JSON
  * lists are sequences, and update times are not modelled.
  */
module TaskGraph {
  import opened Wrappers

  type TaskId = nat
  type TeamId = nat

  datatype Status = Pending | InProgress | Completed | Deleted

  datatype Task = Task(
    id: TaskId,
    team: TeamId,
    subject: string,
    description: Option<string>,
    status: Status,
    owner: Option<string>,
    blockedBy: seq<TaskId>,
    blocks: seq<TaskId>,
    metadata: Option<string>)

  /** The optional fields of an update. */
  datatype Changes = Changes(
    status: Option<Status>,
    description: Option<string>,
    owner: Option<string>,
    blockedBy: Option<seq<TaskId>>,
    metadata: Option<string>)

  const COMPLETE := Changes(Some(Completed), None, None, None, None)

  datatype Reply =
    | Done(task: Task)
    | BlockedTaskNotFound(id: TaskId)
    | TaskNotFound(id: TaskId)
    | RowNotFound(id: TaskId)     // a store operation met an id without a row

  datatype Board = Board(tasks: seq<Task>, nextId: TaskId)

  // ---- Store lookups and edits ----

  /** The first row with this id, of whatever team; the length of the list when there is none. */
  function At(tasks: seq<Task>, id: TaskId): (i: nat)
    ensures i <= |tasks|
    ensures i < |tasks| ==> tasks[i].id == id
    ensures forall j :: 0 <= j < i ==> tasks[j].id != id
  {
    if tasks == [] || tasks[0].id == id then 0 else 1 + At(tasks[1..], id)
  }

  /** The first row of this team with this id. */
  function AtInTeam(tasks: seq<Task>, team: TeamId, id: TaskId): (i: nat)
    ensures i <= |tasks|
    ensures i < |tasks| ==> tasks[i].id == id && tasks[i].team == team
    ensures forall j :: 0 <= j < i ==> tasks[j].id != id || tasks[j].team != team
  {
    if tasks == [] || (tasks[0].id == id && tasks[0].team == team) then 0 else 1 + AtInTeam(tasks[1..], team, id)
  }

  /** The ids of the list that are not in the set, in order and with their repetitions. */
  function Minus(ids: seq<TaskId>, gone: set<TaskId>): seq<TaskId> {
    if ids == [] then []
    else
      var before, last := Minus(ids[..|ids| - 1], gone), ids[|ids| - 1];
      if last in gone then before else before + [last]
  }

  /** A change to one edge list of one row. */
  datatype Edit =
    | AddBlocked(id: TaskId)      // append to what the row blocks, unless it is there
    | DropBlocker(id: TaskId)     // remove every occurrence from what blocks the row

  function Apply(t: Task, e: Edit): Task {
    match e
    case AddBlocked(id) => if id in t.blocks then t else t.(blocks := t.blocks + [id])
    case DropBlocker(id) => t.(blockedBy := Minus(t.blockedBy, {id}))
  }

  function OrElse<T>(change: Option<T>, value: T): T {
    if change.Some? then change.value else value
  }

  function Changed(t: Task, c: Changes): Task {
    t.(status := OrElse(c.status, t.status),
       description := if c.description.Some? then c.description else t.description,
       owner := if c.owner.Some? then c.owner else t.owner,
       blockedBy := OrElse(c.blockedBy, t.blockedBy),
       metadata := if c.metadata.Some? then c.metadata else t.metadata)
  }

  // ---- Board operations ----

  function FirstMissing(tasks: seq<Task>, team: TeamId, deps: seq<TaskId>): Option<TaskId> {
    if deps == [] then None
    else if AtInTeam(tasks, team, deps[0]) == |tasks| then Some(deps[0])
    else FirstMissing(tasks, team, deps[1..])
  }

  /** Edits the rows with these ids one by one; stops at an id without a row. */
  function EditAll(tasks: seq<Task>, ids: seq<TaskId>, e: Edit): (seq<Task>, Option<TaskId>)
    decreases |ids|
  {
    if ids == [] then (tasks, None)
    else
      var i := At(tasks, ids[0]);
      if i == |tasks| then (tasks, Some(ids[0])) else EditAll(tasks[i := Apply(tasks[i], e)], ids[1..], e)
  }

  datatype Draft = Draft(subject: string, description: Option<string>, owner: Option<string>)

  function NewTask(id: TaskId, team: TeamId, draft: Draft, blockedBy: seq<TaskId>): Task {
    Task(id, team, draft.subject, draft.description, Pending, draft.owner, blockedBy, [], None)
  }

  function Created(b: Board, team: TeamId, draft: Draft, blockedBy: seq<TaskId>): (Board, Reply) {
    var missing := FirstMissing(b.tasks, team, blockedBy);
    if missing.Some? then (b, BlockedTaskNotFound(missing.value))
    else
      var row := NewTask(b.nextId, team, draft, blockedBy);
      var (tasks, absent) := EditAll(b.tasks + [row], blockedBy, AddBlocked(row.id));
      (Board(tasks, b.nextId + 1), if absent.Some? then RowNotFound(absent.value) else Done(row))
  }

  function Updated(b: Board, team: TeamId, id: TaskId, changes: Changes): (Board, Reply) {
    var i := AtInTeam(b.tasks, team, id);
    if i == |b.tasks| then (b, TaskNotFound(id))
    else
      var k := At(b.tasks, id);
      var tasks := b.tasks[k := Changed(b.tasks[k], changes)];
      var (after, absent) :=
        if changes.status == Some(Completed) then EditAll(tasks, b.tasks[i].blocks, DropBlocker(id)) else (tasks, None);
      var j := AtInTeam(after, team, id);
      (b.(tasks := after),
       if absent.Some? then RowNotFound(absent.value) else if j == |after| then TaskNotFound(id) else Done(after[j]))
  }

  /** The rows of all other teams, in order. */
  function OtherTeams(tasks: seq<Task>, team: TeamId): seq<Task> {
    if tasks == [] then []
    else
      var before, last := OtherTeams(tasks[..|tasks| - 1], team), tasks[|tasks| - 1];
      if last.team == team then before else before + [last]
  }

  datatype Op =
    | CreateOp(team: TeamId, draft: Draft, blockedBy: seq<TaskId>)
    | UpdateOp(team: TeamId, id: TaskId, changes: Changes)
    | DeleteTeamOp(team: TeamId)

  function Step(b: Board, op: Op): Board {
    match op
    case CreateOp(team, draft, blockedBy) => Created(b, team, draft, blockedBy).0
    case UpdateOp(team, id, changes) => Updated(b, team, id, changes).0
    case DeleteTeamOp(team) => b.(tasks := OtherTeams(b.tasks, team))
  }

  function After(b: Board, ops: seq<Op>): Board {
    if ops == [] then b else Step(After(b, ops[..|ops| - 1]), ops[|ops| - 1])
  }

  // ---- The invariant ----

  predicate Unique(tasks: seq<Task>) {
    forall i, j :: 0 <= i < j < |tasks| ==> tasks[i].id != tasks[j].id
  }

  /** Task `d` is an earlier task of the same team that lists task `i` among what it blocks. */
  predicate LinkedBlocker(tasks: seq<Task>, i: nat, d: TaskId)
    requires i < |tasks|
  {
    var j := At(tasks, d);
    j < i && tasks[j].team == tasks[i].team && tasks[i].id in tasks[j].blocks
  }

  /** Task `u` is a later task of the same team. */
  predicate LaterTask(tasks: seq<Task>, j: nat, u: TaskId)
    requires j < |tasks|
  {
    var i := At(tasks, u);
    j < i < |tasks| && tasks[i].team == tasks[j].team
  }

  ghost predicate Forward(tasks: seq<Task>) {
    forall i, d :: 0 <= i < |tasks| && d in tasks[i].blockedBy ==> LinkedBlocker(tasks, i, d)
  }

  ghost predicate Backward(tasks: seq<Task>) {
    forall j, u :: 0 <= j < |tasks| && u in tasks[j].blocks ==> LaterTask(tasks, j, u)
  }

  predicate NoRepeats(ids: seq<TaskId>) {
    forall i, j :: 0 <= i < j < |ids| ==> ids[i] != ids[j]
  }

  ghost predicate Linked(b: Board) {
    && Unique(b.tasks)
    && (forall i :: 0 <= i < |b.tasks| ==> b.tasks[i].id < b.nextId && NoRepeats(b.tasks[i].blocks))
    && Forward(b.tasks)
    && Backward(b.tasks)
  }

  // ---- What the loops do to every row ----

  lemma {:induction false} MinusMembers(ids: seq<TaskId>, gone: set<TaskId>)
    ensures forall d :: d in Minus(ids, gone) <==> d in ids && d !in gone
  {
    if ids == [] {
    } else {
      MinusMembers(ids[..|ids| - 1], gone);
      assert ids == ids[..|ids| - 1] + [ids[|ids| - 1]];
    }
  }

  lemma {:induction false} MinusTwice(ids: seq<TaskId>, a: set<TaskId>, b: set<TaskId>)
    ensures Minus(Minus(ids, a), b) == Minus(ids, a + b)
  {
    if ids == [] {
    } else {
      var init, last := ids[..|ids| - 1], ids[|ids| - 1];
      MinusTwice(init, a, b);
      if last !in a {
        assert Minus(ids, a)[..|Minus(init, a)|] == Minus(init, a);
      }
    }
  }

  lemma {:induction false} MinusNothing(ids: seq<TaskId>, gone: set<TaskId>)
    requires forall d :: d in ids ==> d !in gone
    ensures Minus(ids, gone) == ids
  {
    if ids == [] {
    } else {
      MinusNothing(ids[..|ids| - 1], gone);
    }
  }

  lemma {:induction false} MinusAll(ids: seq<TaskId>, gone: set<TaskId>)
    requires forall d :: d in ids ==> d in gone
    ensures Minus(ids, gone) == []
  {
    if ids == [] {
    } else {
      MinusAll(ids[..|ids| - 1], gone);
    }
  }

  lemma {:induction false} FirstMissingIs(tasks: seq<Task>, team: TeamId, deps: seq<TaskId>)
    ensures var missing := FirstMissing(tasks, team, deps);
      if missing.Some? then missing.value in deps && AtInTeam(tasks, team, missing.value) == |tasks|
      else forall d :: d in deps ==> AtInTeam(tasks, team, d) < |tasks|
  {
    if deps == [] {
    } else {
      FirstMissingIs(tasks, team, deps[1..]);
      assert deps == [deps[0]] + deps[1..];
    }
  }

  /** The ids of the rows stay what they were; lookups by id find the same indices. */
  predicate SameRows(a: seq<Task>, b: seq<Task>) {
    |a| == |b| && forall i :: 0 <= i < |a| ==> a[i].id == b[i].id && a[i].team == b[i].team
  }

  lemma SameLookups(a: seq<Task>, b: seq<Task>)
    requires SameRows(a, b)
    ensures forall id :: At(a, id) == At(b, id)
    ensures forall team, id :: AtInTeam(a, team, id) == AtInTeam(b, team, id)
  {
  }

  lemma ApplyTwice(t: Task, e: Edit)
    ensures Apply(Apply(t, e), e) == Apply(t, e)
  {
    if e.DropBlocker? {
      MinusTwice(t.blockedBy, {e.id}, {e.id});
      assert {e.id} + {e.id} == {e.id};
    }
  }

  lemma OneEdit(tasks: seq<Task>, i: nat, e: Edit)
    requires Unique(tasks) && i < |tasks|
    ensures var next := tasks[i := Apply(tasks[i], e)];
      Unique(next) && SameRows(tasks, next) && forall id :: At(tasks, id) == At(next, id)
  {
    SameLookups(tasks, tasks[i := Apply(tasks[i], e)]);
  }

  lemma {:induction false} EditAllIs(tasks: seq<Task>, ids: seq<TaskId>, e: Edit)
    requires Unique(tasks) && forall d :: d in ids ==> At(tasks, d) < |tasks|
    ensures EditAll(tasks, ids, e).1 == None && SameRows(tasks, EditAll(tasks, ids, e).0)
    ensures forall i :: 0 <= i < |tasks| ==>
      EditAll(tasks, ids, e).0[i] == if tasks[i].id in ids then Apply(tasks[i], e) else tasks[i]
    decreases |ids|
  {
    if ids == [] {
    } else {
      var k := At(tasks, ids[0]);
      var next := tasks[k := Apply(tasks[k], e)];
      OneEdit(tasks, k, e);
      EditAllIs(next, ids[1..], e);
      ApplyTwice(tasks[k], e);
      var after := EditAll(next, ids[1..], e).0;
      assert EditAll(tasks, ids, e) == (after, None);
      forall i | 0 <= i < |tasks|
        ensures after[i] == if tasks[i].id in ids then Apply(tasks[i], e) else tasks[i]
      {
        assert tasks[i].id in ids <==> i == k || next[i].id in ids[1..];
      }
    }
  }

  /** A loop of edits stops midway exactly when one of the ids has no row: that is when completing a task fails. */
  lemma {:induction false} EditsStopIff(tasks: seq<Task>, ids: seq<TaskId>, e: Edit)
    ensures EditAll(tasks, ids, e).1 == None <==> forall k :: 0 <= k < |ids| ==> At(tasks, ids[k]) < |tasks|
    decreases |ids|
  {
    if ids != [] && At(tasks, ids[0]) < |tasks| {
      var i := At(tasks, ids[0]);
      var next := tasks[i := Apply(tasks[i], e)];
      SameLookups(tasks, next);
      EditsStopIff(next, ids[1..], e);
      if forall k :: 0 <= k < |ids[1..]| ==> At(next, ids[1..][k]) < |next| {
        forall k | 0 <= k < |ids|
          ensures At(tasks, ids[k]) < |tasks|
        {
          assert k > 0 ==> ids[k] == ids[1..][k - 1];
        }
      } else {
        var k :| 0 <= k < |ids[1..]| && At(next, ids[1..][k]) >= |next|;
        assert At(tasks, ids[k + 1]) >= |tasks|;
      }
    }
  }

  // ---- Every operation keeps the graph linked ----

  /** The rows of `c` are those of `b` with the new task appended and linked. */
  predicate Extends(b: Board, c: Board, row: Task) {
    && c.nextId == b.nextId + 1 && |c.tasks| == |b.tasks| + 1 && Unique(c.tasks)
    && c.tasks[|b.tasks|] == row
    && (forall d :: d in row.blockedBy ==> At(b.tasks, d) < |b.tasks| && b.tasks[At(b.tasks, d)].team == row.team)
    && (forall i :: 0 <= i < |b.tasks| ==> c.tasks[i] == Linking(b.tasks[i], row.blockedBy, b.nextId))
  }

  /** What linking the new task makes of an older row. */
  function Linking(t: Task, blockers: seq<TaskId>, id: TaskId): Task {
    if t.id in blockers then t.(blocks := t.blocks + [id]) else t
  }

  lemma AtIs(tasks: seq<Task>, i: nat)
    requires Unique(tasks) && i < |tasks|
    ensures At(tasks, tasks[i].id) == i
  {
  }

  lemma BlockersFound(tasks: seq<Task>, team: TeamId, d: TaskId)
    requires Unique(tasks) && AtInTeam(tasks, team, d) < |tasks|
    ensures At(tasks, d) == AtInTeam(tasks, team, d)
  {
  }

  lemma FreshIsNotBlocked(b: Board, i: nat)
    requires Linked(b) && i < |b.tasks|
    ensures b.nextId !in b.tasks[i].blocks
  {
    assert b.nextId in b.tasks[i].blocks ==> LaterTask(b.tasks, i, b.nextId);
  }

  lemma NewRow(b: Board, row: Task)
    requires Linked(b) && row.id == b.nextId && FirstMissing(b.tasks, row.team, row.blockedBy).None?
    ensures Unique(b.tasks + [row]) && row.id !in row.blockedBy
    ensures forall d :: d in row.blockedBy ==>
      At(b.tasks + [row], d) < |b.tasks + [row]| && At(b.tasks, d) < |b.tasks| &&
        b.tasks[At(b.tasks, d)].team == row.team
  {
    FirstMissingIs(b.tasks, row.team, row.blockedBy);
    var rows := b.tasks + [row];
    forall d | d in row.blockedBy
      ensures At(rows, d) < |rows| && At(b.tasks, d) < |b.tasks| && b.tasks[At(b.tasks, d)].team == row.team
    {
      BlockersFound(b.tasks, row.team, d);
      assert rows[At(b.tasks, d)].id == d;
    }
  }

  lemma CreateShape(b: Board, team: TeamId, draft: Draft, blockedBy: seq<TaskId>)
    requires Linked(b) && FirstMissing(b.tasks, team, blockedBy).None?
    ensures Created(b, team, draft, blockedBy).1 == Done(NewTask(b.nextId, team, draft, blockedBy))
    ensures Extends(b, Created(b, team, draft, blockedBy).0, NewTask(b.nextId, team, draft, blockedBy))
  {
    var row := NewTask(b.nextId, team, draft, blockedBy);
    var rows := b.tasks + [row];
    NewRow(b, row);
    EditAllIs(rows, blockedBy, AddBlocked(b.nextId));
    var after := EditAll(rows, blockedBy, AddBlocked(b.nextId)).0;
    assert after[|b.tasks|] == row;
    forall i | 0 <= i < |b.tasks|
      ensures after[i] == Linking(b.tasks[i], blockedBy, b.nextId)
    {
      FreshIsNotBlocked(b, i);
    }
  }

  /** Creating a task succeeds exactly when every blocker is a task of the team, and otherwise changes nothing. */
  lemma CreateSucceedsIff(b: Board, team: TeamId, draft: Draft, blockedBy: seq<TaskId>)
    requires Linked(b)
    ensures Created(b, team, draft, blockedBy).1.Done? <==>
      forall d :: d in blockedBy ==> AtInTeam(b.tasks, team, d) < |b.tasks|
    ensures !Created(b, team, draft, blockedBy).1.Done? ==>
      Created(b, team, draft, blockedBy).0 == b && Created(b, team, draft, blockedBy).1.BlockedTaskNotFound?
  {
    FirstMissingIs(b.tasks, team, blockedBy);
    if FirstMissing(b.tasks, team, blockedBy).None? {
      CreateShape(b, team, draft, blockedBy);
    }
  }

  lemma CreateKeepsLinks(b: Board, team: TeamId, draft: Draft, blockedBy: seq<TaskId>)
    requires Linked(b)
    ensures Linked(Created(b, team, draft, blockedBy).0)
  {
    if FirstMissing(b.tasks, team, blockedBy).None? {
      CreateShape(b, team, draft, blockedBy);
      var c := Created(b, team, draft, blockedBy).0;
      CreatedForward(b, c, c.tasks[|b.tasks|]);
      CreatedBackward(b, c, c.tasks[|b.tasks|]);
      CreatedWithoutRepeats(b, c, c.tasks[|b.tasks|]);
    }
  }

  lemma CreatedForward(b: Board, c: Board, row: Task)
    requires Linked(b) && Extends(b, c, row) && row.id == b.nextId
    ensures Forward(c.tasks)
  {
    forall i, d | 0 <= i < |c.tasks| && d in c.tasks[i].blockedBy
      ensures LinkedBlocker(c.tasks, i, d)
    {
      var j := At(b.tasks, d);
      if i < |b.tasks| {
        assert Linking(b.tasks[i], row.blockedBy, b.nextId).blockedBy == b.tasks[i].blockedBy;
        assert LinkedBlocker(b.tasks, i, d);
      }
      assert c.tasks[j] == Linking(b.tasks[j], row.blockedBy, b.nextId);
      AtIs(c.tasks, j);
    }
  }

  lemma CreatedBackward(b: Board, c: Board, row: Task)
    requires Linked(b) && Extends(b, c, row) && row.id == b.nextId && row.blocks == []
    ensures Backward(c.tasks)
  {
    forall j, u | 0 <= j < |c.tasks| && u in c.tasks[j].blocks
      ensures LaterTask(c.tasks, j, u)
    {
      assert c.tasks[j] == Linking(b.tasks[j], row.blockedBy, b.nextId);
      if u in b.tasks[j].blocks {
        assert LaterTask(b.tasks, j, u);
        var i := At(b.tasks, u);
        assert c.tasks[i] == Linking(b.tasks[i], row.blockedBy, b.nextId);
        AtIs(c.tasks, i);
      } else {
        AtIs(b.tasks, j);
        AtIs(c.tasks, |b.tasks|);
      }
    }
  }

  lemma CreatedWithoutRepeats(b: Board, c: Board, row: Task)
    requires Linked(b) && Extends(b, c, row) && row.id == b.nextId && row.blocks == []
    ensures forall i :: 0 <= i < |c.tasks| ==> NoRepeats(c.tasks[i].blocks) && c.tasks[i].id < c.nextId
  {
    forall i | 0 <= i < |c.tasks|
      ensures NoRepeats(c.tasks[i].blocks) && c.tasks[i].id < c.nextId
    {
      if i < |b.tasks| {
        FreshIsNotBlocked(b, i);
        assert c.tasks[i] == Linking(b.tasks[i], row.blockedBy, b.nextId);
      }
    }
  }

  /** What an update completes: the task itself, if it is there and the update sets its status to completed. */
  function Completes(b: Board, op: Op): set<TaskId> {
    if op.UpdateOp? && op.changes.status == Some(Completed) && AtInTeam(b.tasks, op.team, op.id) < |b.tasks| then
      {op.id}
    else {}
  }

  /** What an update of row `k` makes of row `i`. */
  function Rewritten(b: Board, i: nat, k: nat, changes: Changes): Task
    requires i < |b.tasks| && k < |b.tasks|
  {
    var t := if i == k then Changed(b.tasks[i], changes) else b.tasks[i];
    if changes.status == Some(Completed) && t.id in b.tasks[k].blocks then Apply(t, DropBlocker(b.tasks[k].id)) else t
  }

  /** The whole effect of an update on a linked graph, with or without an override. */
  lemma UpdateShape(b: Board, team: TeamId, id: TaskId, changes: Changes)
    requires Linked(b) && AtInTeam(b.tasks, team, id) < |b.tasks|
    ensures var (c, reply) := Updated(b, team, id, changes);
      var k := At(b.tasks, id);
      && c.nextId == b.nextId && SameRows(b.tasks, c.tasks)
      && k == AtInTeam(b.tasks, team, id) && reply == Done(c.tasks[k])
      && (forall i :: 0 <= i < |b.tasks| ==> c.tasks[i] == Rewritten(b, i, k, changes))
  {
    var k := At(b.tasks, id);
    assert k == AtInTeam(b.tasks, team, id);
    var tasks := b.tasks[k := Changed(b.tasks[k], changes)];
    SameLookups(b.tasks, tasks);
    if changes.status == Some(Completed) {
      forall u | u in b.tasks[k].blocks
        ensures At(tasks, u) < |tasks|
      {
        assert LaterTask(b.tasks, k, u);
      }
      EditAllIs(tasks, b.tasks[k].blocks, DropBlocker(id));
      SameLookups(b.tasks, EditAll(tasks, b.tasks[k].blocks, DropBlocker(id)).0);
    }
  }

  /** On any board, a completion fails midway exactly when a task that the completed one blocks has no row. */
  lemma CompletionFailsIff(b: Board, team: TeamId, id: TaskId, changes: Changes)
    requires AtInTeam(b.tasks, team, id) < |b.tasks| && changes.status == Some(Completed)
    ensures var blocks := b.tasks[AtInTeam(b.tasks, team, id)].blocks;
      Updated(b, team, id, changes).1.RowNotFound? <==>
        exists k :: 0 <= k < |blocks| && At(b.tasks, blocks[k]) == |b.tasks|
  {
    var blocks := b.tasks[AtInTeam(b.tasks, team, id)].blocks;
    var k := At(b.tasks, id);
    var tasks := b.tasks[k := Changed(b.tasks[k], changes)];
    SameLookups(b.tasks, tasks);
    EditsStopIff(tasks, blocks, DropBlocker(id));
    assert forall k :: 0 <= k < |blocks| ==> At(b.tasks, blocks[k]) == At(tasks, blocks[k]);
  }

  /** On any board with unique ids, linked or not, a completion that does not stop midway leaves a task blocked by the
    * completed one exactly when it was blocked by it, after the update's own override, and the completed task does not
    * list it among what it blocks. */
  lemma CompletionLeavesBlockedIff(b: Board, team: TeamId, id: TaskId, changes: Changes, i: nat)
    requires Unique(b.tasks) && AtInTeam(b.tasks, team, id) < |b.tasks| && i < |b.tasks|
    requires changes.status == Some(Completed) && !Updated(b, team, id, changes).1.RowNotFound?
    ensures var (c, k) := (Updated(b, team, id, changes).0, AtInTeam(b.tasks, team, id));
      var before := if i == k then OrElse(changes.blockedBy, b.tasks[i].blockedBy) else b.tasks[i].blockedBy;
      && i < |c.tasks| && c.tasks[i].id == b.tasks[i].id
      && (id in c.tasks[i].blockedBy <==> id in before && b.tasks[i].id !in b.tasks[k].blocks)
  {
    var k := AtInTeam(b.tasks, team, id);
    BlockersFound(b.tasks, team, id);
    var blocks := b.tasks[k].blocks;
    var tasks := b.tasks[k := Changed(b.tasks[k], changes)];
    EditsStopIff(tasks, blocks, DropBlocker(id));
    EditAllIs(tasks, blocks, DropBlocker(id));
    MinusMembers(tasks[i].blockedBy, {id});
  }

  /** Without an override, an update never fails on a task that is there, and takes a completed task out of every
    * blocker list of the board, however often it occurs, leaving the rest of each list in order. */
  lemma UpdateUnblocks(b: Board, team: TeamId, id: TaskId, changes: Changes)
    requires Linked(b) && changes.blockedBy == None
    ensures var (c, reply) := Updated(b, team, id, changes);
      && (reply.Done? <==> AtInTeam(b.tasks, team, id) < |b.tasks|)
      && (!reply.Done? ==> c == b && reply == TaskNotFound(id))
      && SameRows(b.tasks, c.tasks)
      && forall i :: 0 <= i < |b.tasks| ==>
           && c.tasks[i].blocks == b.tasks[i].blocks
           && c.tasks[i].blockedBy == Minus(b.tasks[i].blockedBy, Completes(b, UpdateOp(team, id, changes)))
  {
    var c := Updated(b, team, id, changes).0;
    if AtInTeam(b.tasks, team, id) < |b.tasks| {
      UpdateShape(b, team, id, changes);
    }
    forall i | 0 <= i < |b.tasks|
      ensures c.tasks[i].blockedBy == Minus(b.tasks[i].blockedBy, Completes(b, UpdateOp(team, id, changes)))
    {
      var gone := Completes(b, UpdateOp(team, id, changes));
      if forall d :: d in b.tasks[i].blockedBy ==> d !in gone {
        MinusNothing(b.tasks[i].blockedBy, gone);
      } else {
        assert LinkedBlocker(b.tasks, i, id);
      }
    }
  }

  /** An override is harmless when it names only tasks that already block the task: earlier ones of its team, with
    * the reverse edge in place. */
  predicate NamesLinkedBlockers(b: Board, team: TeamId, id: TaskId, blockedBy: seq<TaskId>) {
    var i := AtInTeam(b.tasks, team, id);
    i < |b.tasks| ==> forall d :: d in blockedBy ==> LinkedBlocker(b.tasks, i, d)
  }

  /** An update keeps the graph linked exactly when it overrides no blockers or names only linked ones. */
  lemma UpdateKeepsLinksIff(b: Board, team: TeamId, id: TaskId, changes: Changes)
    requires Linked(b)
    ensures Linked(Updated(b, team, id, changes).0)
       <==> changes.blockedBy == None || NamesLinkedBlockers(b, team, id, changes.blockedBy.value)
  {
    var k := AtInTeam(b.tasks, team, id);
    if k < |b.tasks| {
      UpdateShape(b, team, id, changes);
      var c := Updated(b, team, id, changes).0;
      SameLookups(b.tasks, c.tasks);
      BackwardStays(b, c);
      if changes.blockedBy == None || NamesLinkedBlockers(b, team, id, changes.blockedBy.value) {
        ForwardStays(b, c, team, id, changes);
      } else {
        var d :| d in changes.blockedBy.value && !LinkedBlocker(b.tasks, k, d);
        assert b.tasks[k].id !in b.tasks[k].blocks;
        assert c.tasks[k].blockedBy == changes.blockedBy.value;
        assert !LinkedBlocker(c.tasks, k, d);
      }
    }
  }

  lemma BackwardStays(b: Board, c: Board)
    requires Linked(b) && SameRows(b.tasks, c.tasks)
    requires forall i :: 0 <= i < |b.tasks| ==> c.tasks[i].blocks == b.tasks[i].blocks
    ensures Unique(c.tasks) && Backward(c.tasks)
  {
    SameLookups(b.tasks, c.tasks);
    forall j, u | 0 <= j < |c.tasks| && u in c.tasks[j].blocks
      ensures LaterTask(c.tasks, j, u)
    {
      assert LaterTask(b.tasks, j, u);
    }
  }

  /** An update takes blockers away, or overrides them. */
  lemma RewrittenBlockers(b: Board, i: nat, k: nat, changes: Changes, d: TaskId)
    requires i < |b.tasks| && k < |b.tasks| && d in Rewritten(b, i, k, changes).blockedBy
    ensures d in if i == k then OrElse(changes.blockedBy, b.tasks[i].blockedBy) else b.tasks[i].blockedBy
  {
    var t := if i == k then Changed(b.tasks[i], changes) else b.tasks[i];
    MinusMembers(t.blockedBy, {b.tasks[k].id});
  }

  lemma ForwardStays(b: Board, c: Board, team: TeamId, id: TaskId, changes: Changes)
    requires Linked(b) && AtInTeam(b.tasks, team, id) < |b.tasks| && c == Updated(b, team, id, changes).0
    requires changes.blockedBy == None || NamesLinkedBlockers(b, team, id, changes.blockedBy.value)
    ensures Forward(c.tasks)
  {
    UpdateShape(b, team, id, changes);
    SameLookups(b.tasks, c.tasks);
    var k := At(b.tasks, id);
    forall i, d | 0 <= i < |c.tasks| && d in c.tasks[i].blockedBy
      ensures LinkedBlocker(c.tasks, i, d)
    {
      RewrittenBlockers(b, i, k, changes, d);
      assert LinkedBlocker(b.tasks, i, d);
      assert c.tasks[At(b.tasks, d)] == Rewritten(b, At(b.tasks, d), k, changes);
    }
  }

  lemma {:induction false} OtherTeamsPrefix(tasks: seq<Task>, team: TeamId, i: nat)
    requires i <= |tasks|
    ensures OtherTeams(tasks[..i], team) <= OtherTeams(tasks, team)
  {
    if i < |tasks| {
      OtherTeamsPrefix(tasks[..|tasks| - 1], team, i);
      assert tasks[..|tasks| - 1][..i] == tasks[..i];
    } else {
      assert tasks[..i] == tasks;
    }
  }

  /** How many rows of other teams come before row `i`: its place after the team is deleted. */
  function Rank(tasks: seq<Task>, team: TeamId, i: nat): nat
    requires i <= |tasks|
  {
    |OtherTeams(tasks[..i], team)|
  }

  /** Deleting a team keeps the rows of the others as they are, in their order. */
  lemma OtherTeamsAt(tasks: seq<Task>, team: TeamId, i: nat)
    requires Unique(tasks) && i < |tasks| && tasks[i].team != team
    ensures var rest, k := OtherTeams(tasks, team), Rank(tasks, team, i);
      k < |rest| && rest[k] == tasks[i] && At(rest, tasks[i].id) == k
  {
    OtherTeamsPrefix(tasks, team, i + 1);
    assert tasks[..i + 1][..i] == tasks[..i];
    OtherTeamsFrom(tasks, team);
  }

  lemma RankGrows(tasks: seq<Task>, team: TeamId, j: nat, i: nat)
    requires j < i <= |tasks| && tasks[j].team != team
    ensures Rank(tasks, team, j) < Rank(tasks, team, i)
  {
    OtherTeamsPrefix(tasks[..i], team, j + 1);
    assert tasks[..i][..j + 1] == tasks[..j + 1];
    assert tasks[..j + 1][..j] == tasks[..j];
  }

  lemma {:induction false} OtherTeamsFrom(tasks: seq<Task>, team: TeamId)
    ensures forall k :: 0 <= k < |OtherTeams(tasks, team)| ==>
      OtherTeams(tasks, team)[k] in tasks && OtherTeams(tasks, team)[k].team != team
    ensures Unique(tasks) ==> Unique(OtherTeams(tasks, team))
  {
    if tasks == [] {
    } else {
      OtherTeamsFrom(tasks[..|tasks| - 1], team);
    }
  }

  lemma DeleteKeepsLinks(b: Board, team: TeamId)
    requires Linked(b)
    ensures Linked(b.(tasks := OtherTeams(b.tasks, team)))
  {
    var rest := OtherTeams(b.tasks, team);
    OtherTeamsFrom(b.tasks, team);
    forall k | 0 <= k < |rest|
      ensures rest[k].id < b.nextId && NoRepeats(rest[k].blocks)
      ensures forall d :: d in rest[k].blockedBy ==> LinkedBlocker(rest, k, d)
      ensures forall u :: u in rest[k].blocks ==> LaterTask(rest, k, u)
    {
      var i :| 0 <= i < |b.tasks| && b.tasks[i] == rest[k];
      OtherTeamsAt(b.tasks, team, i);
      assert At(rest, rest[k].id) == k;
      forall d | d in rest[k].blockedBy
        ensures LinkedBlocker(rest, k, d)
      {
        assert LinkedBlocker(b.tasks, i, d);
        OtherTeamsAt(b.tasks, team, At(b.tasks, d));
        RankGrows(b.tasks, team, At(b.tasks, d), i);
      }
      forall u | u in rest[k].blocks
        ensures LaterTask(rest, k, u)
      {
        assert LaterTask(b.tasks, i, u);
        OtherTeamsAt(b.tasks, team, At(b.tasks, u));
        RankGrows(b.tasks, team, i, At(b.tasks, u));
      }
    }
  }

  /** The operation overrides no blocker list. */
  predicate Plain(op: Op) {
    op.UpdateOp? ==> op.changes.blockedBy == None
  }

  lemma StepKeepsLinks(b: Board, op: Op)
    requires Linked(b) && Plain(op)
    ensures Linked(Step(b, op))
  {
    match op
    case CreateOp(team, draft, blockedBy) => CreateKeepsLinks(b, team, draft, blockedBy);
    case UpdateOp(team, id, changes) => UpdateKeepsLinksIff(b, team, id, changes);
    case DeleteTeamOp(team) => DeleteKeepsLinks(b, team);
  }

  /** Every board that is reachable without overrides is linked: blockers exist, are older tasks of the same team, and
    * know what they block. */
  lemma {:induction false} BoardsAreLinked(b: Board, ops: seq<Op>)
    requires Linked(b) && forall k :: 0 <= k < |ops| ==> Plain(ops[k])
    ensures Linked(After(b, ops))
  {
    if ops == [] {
    } else {
      BoardsAreLinked(b, ops[..|ops| - 1]);
      StepKeepsLinks(After(b, ops[..|ops| - 1]), ops[|ops| - 1]);
    }
  }

  // ---- What a linked graph means ----

  /** The task with this id is on the board and blocked by `d`. */
  predicate BlockedBy(tasks: seq<Task>, id: TaskId, d: TaskId) {
    At(tasks, id) < |tasks| && d in tasks[At(tasks, id)].blockedBy
  }

  predicate Link(tasks: seq<Task>, ids: seq<TaskId>, k: nat)
    requires k + 1 < |ids|
  {
    BlockedBy(tasks, ids[k], ids[k + 1])
  }

  /** A chain of tasks, each blocked by the next one. */
  ghost predicate Chain(tasks: seq<Task>, ids: seq<TaskId>) {
    forall k :: 0 <= k < |ids| - 1 ==> Link(tasks, ids, k)
  }

  /** Chains of blockers go back in time within one team, so no task blocks itself, at any distance. */
  lemma {:induction false} NoCycles(b: Board, ids: seq<TaskId>)
    requires Linked(b) && |ids| >= 2 && Chain(b.tasks, ids)
    ensures At(b.tasks, ids[|ids| - 1]) < At(b.tasks, ids[0]) < |b.tasks|
    ensures b.tasks[At(b.tasks, ids[|ids| - 1])].team == b.tasks[At(b.tasks, ids[0])].team
    ensures ids[|ids| - 1] != ids[0]
    decreases |ids|
  {
    var init := ids[..|ids| - 1];
    if |ids| > 2 {
      assert forall k :: 0 <= k < |init| - 1 ==> (Link(b.tasks, init, k) <==> Link(b.tasks, ids, k));
      NoCycles(b, init);
    }
    assert Link(b.tasks, ids, |ids| - 2);
    assert LinkedBlocker(b.tasks, At(b.tasks, ids[|ids| - 2]), ids[|ids| - 1]);
  }

  /** The tasks that a run of operations completes. */
  function CompletedIn(b: Board, ops: seq<Op>): set<TaskId> {
    if ops == [] then {}
    else CompletedIn(b, ops[..|ops| - 1]) + Completes(After(b, ops[..|ops| - 1]), ops[|ops| - 1])
  }

  lemma StepUnblocks(b: Board, op: Op, i: nat)
    requires Linked(b) && Plain(op) && !op.DeleteTeamOp? && i < |b.tasks|
    ensures i < |Step(b, op).tasks| && Step(b, op).tasks[i].id == b.tasks[i].id &&
      Step(b, op).tasks[i].team == b.tasks[i].team
    ensures Step(b, op).tasks[i].blockedBy == Minus(b.tasks[i].blockedBy, Completes(b, op))
  {
    match op
    case CreateOp(team, draft, blockedBy) =>
      MinusNothing(b.tasks[i].blockedBy, {});
      if FirstMissing(b.tasks, team, blockedBy).None? {
        CreateShape(b, team, draft, blockedBy);
      }
    case UpdateOp(team, id, changes) =>
      UpdateUnblocks(b, team, id, changes);
  }

  /** At any later time a task is blocked by what blocked it before, less what was completed since, in order. */
  lemma {:induction false} BlockersAreWhatIsLeft(b: Board, ops: seq<Op>, i: nat)
    requires Linked(b) && i < |b.tasks|
    requires forall k :: 0 <= k < |ops| ==> Plain(ops[k]) && !ops[k].DeleteTeamOp?
    ensures var c := After(b, ops);
      i < |c.tasks| && c.tasks[i].id == b.tasks[i].id && c.tasks[i].team == b.tasks[i].team
      && c.tasks[i].blockedBy == Minus(b.tasks[i].blockedBy, CompletedIn(b, ops))
  {
    if ops == [] {
      MinusNothing(b.tasks[i].blockedBy, {});
    } else {
      var init, last := ops[..|ops| - 1], ops[|ops| - 1];
      BlockersAreWhatIsLeft(b, init, i);
      BoardsAreLinked(b, init);
      StepUnblocks(After(b, init), last, i);
      MinusTwice(b.tasks[i].blockedBy, CompletedIn(b, init), Completes(After(b, init), last));
    }
  }

  predicate CompletesTask(op: Op, t: Task) {
    op.UpdateOp? && op.team == t.team && op.id == t.id && op.changes.status == Some(Completed)
  }

  lemma LateCompletion(b: Board, ops: seq<Op>, op: Op, i: nat)
    requires Linked(b) && i < |b.tasks| && CompletesTask(op, b.tasks[i])
    requires forall k :: 0 <= k < |ops| ==> Plain(ops[k]) && !ops[k].DeleteTeamOp?
    ensures Completes(After(b, ops), op) == {b.tasks[i].id}
  {
    BlockersAreWhatIsLeft(b, ops, i);
  }

  /** Every completion of a task that was there at the start is effective, wherever in the run it comes. */
  lemma {:induction false} CompletionsCount(b: Board, ops: seq<Op>, k: nat, i: nat)
    requires Linked(b) && i < |b.tasks| && k < |ops| && CompletesTask(ops[k], b.tasks[i])
    requires forall k :: 0 <= k < |ops| ==> Plain(ops[k]) && !ops[k].DeleteTeamOp?
    ensures b.tasks[i].id in CompletedIn(b, ops)
    decreases |ops|
  {
    var init := ops[..|ops| - 1];
    if k < |init| {
      CompletionsCount(b, init, k, i);
    } else {
      LateCompletion(b, init, ops[k], i);
    }
  }

  lemma BlockerIsCompleted(b: Board, ops: seq<Op>, i: nat, d: TaskId)
    requires Linked(b) && i < |b.tasks| && d in b.tasks[i].blockedBy
    requires forall k :: 0 <= k < |ops| ==> Plain(ops[k]) && !ops[k].DeleteTeamOp?
    requires forall j :: 0 <= j < |b.tasks| ==> exists k :: 0 <= k < |ops| && CompletesTask(ops[k], b.tasks[j])
    ensures d in CompletedIn(b, ops)
  {
    assert LinkedBlocker(b.tasks, i, d);
    var j := At(b.tasks, d);
    var k :| 0 <= k < |ops| && CompletesTask(ops[k], b.tasks[j]);
    CompletionsCount(b, ops, k, j);
  }

  /** A run that completes every task of a linked board, in any order and whatever else it does, leaves none of them
    * blocked. */
  lemma CompletingAllUnblocksAll(b: Board, ops: seq<Op>, i: nat)
    requires Linked(b) && i < |b.tasks|
    requires forall k :: 0 <= k < |ops| ==> Plain(ops[k]) && !ops[k].DeleteTeamOp?
    requires forall j :: 0 <= j < |b.tasks| ==> exists k :: 0 <= k < |ops| && CompletesTask(ops[k], b.tasks[j])
    ensures var c := After(b, ops);
      i < |c.tasks| && c.tasks[i].id == b.tasks[i].id && c.tasks[i].blockedBy == []
  {
    BlockersAreWhatIsLeft(b, ops, i);
    forall d | d in b.tasks[i].blockedBy
      ensures d in CompletedIn(b, ops)
    {
      BlockerIsCompleted(b, ops, i, d);
    }
    MinusAll(b.tasks[i].blockedBy, CompletedIn(b, ops));
  }

  // ---- Where the board promises less ----

  /** A new task may name a blocker that is already completed, and is then blocked by it all the same. */
  lemma CompletedBlockersStillBlock(b: Board, team: TeamId, draft: Draft, d: TaskId)
    requires Linked(b) && AtInTeam(b.tasks, team, d) < |b.tasks| &&
      b.tasks[AtInTeam(b.tasks, team, d)].status == Completed
    ensures var (c, reply) := Created(b, team, draft, [d]);
      var i := AtInTeam(b.tasks, team, d);
      && reply == Done(NewTask(b.nextId, team, draft, [d]))
      && |c.tasks| == |b.tasks| + 1 && c.tasks[|b.tasks|] == reply.task && reply.task.blockedBy == [d]
      && c.tasks[i].id == d && c.tasks[i].team == team && c.tasks[i].status == Completed
  {
    FirstMissingIs(b.tasks, team, [d]);
    CreateShape(b, team, draft, [d]);
  }

  /** Completing that blocker once more is what frees such a task. */
  lemma RecompletionUnblocks(c: Board, team: TeamId, i: nat, n: nat)
    requires Linked(c) && i < |c.tasks| && n < |c.tasks| && c.tasks[i].team == team &&
      c.tasks[n].blockedBy == [c.tasks[i].id]
    ensures var again := Updated(c, team, c.tasks[i].id, COMPLETE).0;
      |again.tasks| == |c.tasks| && again.tasks[n].id == c.tasks[n].id && again.tasks[n].blockedBy == []
  {
    UpdateUnblocks(c, team, c.tasks[i].id, COMPLETE);
    MinusAll(c.tasks[n].blockedBy, {c.tasks[i].id});
  }

  /** Task `d` is on the board and completed. */
  predicate IsCompleted(tasks: seq<Task>, d: TaskId) {
    At(tasks, d) < |tasks| && tasks[At(tasks, d)].status == Completed
  }

  /** No task is blocked by a completed one. */
  ghost predicate NoneWaitsInVain(tasks: seq<Task>) {
    forall i, d :: 0 <= i < |tasks| && d in tasks[i].blockedBy ==> !IsCompleted(tasks, d)
  }

  lemma OldTasksKeepStatus(b: Board, c: Board, row: Task, d: TaskId)
    requires Extends(b, c, row) && At(b.tasks, d) < |b.tasks|
    ensures IsCompleted(c.tasks, d) <==> IsCompleted(b.tasks, d)
  {
    var j := At(b.tasks, d);
    assert c.tasks[j] == Linking(b.tasks[j], row.blockedBy, b.nextId);
    AtIs(c.tasks, j);
  }

  lemma OldTasksWaitAsBefore(b: Board, c: Board, row: Task, i: nat)
    requires Linked(b) && NoneWaitsInVain(b.tasks) && Extends(b, c, row) && i < |b.tasks|
    ensures forall d :: d in c.tasks[i].blockedBy ==> !IsCompleted(c.tasks, d)
  {
    assert c.tasks[i] == Linking(b.tasks[i], row.blockedBy, b.nextId);
    forall d | d in b.tasks[i].blockedBy
      ensures !IsCompleted(c.tasks, d)
    {
      assert LinkedBlocker(b.tasks, i, d);
      OldTasksKeepStatus(b, c, row, d);
    }
  }

  lemma ExtensionWaitsInVainIff(b: Board, c: Board, row: Task)
    requires Linked(b) && NoneWaitsInVain(b.tasks) && Extends(b, c, row)
    ensures NoneWaitsInVain(c.tasks) <==> forall d :: d in row.blockedBy ==> !IsCompleted(b.tasks, d)
  {
    var n := |b.tasks|;
    forall d | d in row.blockedBy
      ensures IsCompleted(c.tasks, d) <==> IsCompleted(b.tasks, d)
    {
      OldTasksKeepStatus(b, c, row, d);
    }
    forall i | 0 <= i < n
      ensures forall d :: d in c.tasks[i].blockedBy ==> !IsCompleted(c.tasks, d)
    {
      OldTasksWaitAsBefore(b, c, row, i);
    }
    if d :| d in row.blockedBy && IsCompleted(b.tasks, d) {
      assert d in c.tasks[n].blockedBy && IsCompleted(c.tasks, d);
    }
  }

  /** A creation that succeeds keeps it so exactly when none of the blockers it names is completed. */
  lemma CreationWaitsInVainIff(b: Board, team: TeamId, draft: Draft, blockedBy: seq<TaskId>)
    requires Linked(b) && NoneWaitsInVain(b.tasks) && Created(b, team, draft, blockedBy).1.Done?
    ensures NoneWaitsInVain(Created(b, team, draft, blockedBy).0.tasks) <==>
      forall d :: d in blockedBy ==> !IsCompleted(b.tasks, d)
  {
    CreateShape(b, team, draft, blockedBy);
    ExtensionWaitsInVainIff(b, Created(b, team, draft, blockedBy).0, NewTask(b.nextId, team, draft, blockedBy));
  }

  /** An update without an override always keeps it so: what it completes blocks nobody any more. */
  lemma UpdatesFreeWaiters(b: Board, team: TeamId, id: TaskId, changes: Changes)
    requires Linked(b) && NoneWaitsInVain(b.tasks) && changes.blockedBy == None
    ensures NoneWaitsInVain(Updated(b, team, id, changes).0.tasks)
  {
    if AtInTeam(b.tasks, team, id) < |b.tasks| {
      var c := Updated(b, team, id, changes).0;
      var gone := Completes(b, UpdateOp(team, id, changes));
      UpdateShape(b, team, id, changes);
      UpdateUnblocks(b, team, id, changes);
      SameLookups(b.tasks, c.tasks);
      forall i, d | 0 <= i < |c.tasks| && d in c.tasks[i].blockedBy
        ensures !IsCompleted(c.tasks, d)
      {
        MinusMembers(b.tasks[i].blockedBy, gone);
        assert LinkedBlocker(b.tasks, i, d) && !IsCompleted(b.tasks, d);
        var j := At(b.tasks, d);
        assert c.tasks[j] == Rewritten(b, j, At(b.tasks, id), changes);
      }
    }
  }

  lemma DeletionFreesNobodyInVain(b: Board, team: TeamId)
    requires Linked(b) && NoneWaitsInVain(b.tasks)
    ensures NoneWaitsInVain(OtherTeams(b.tasks, team))
  {
    var rest := OtherTeams(b.tasks, team);
    OtherTeamsFrom(b.tasks, team);
    forall k, d | 0 <= k < |rest| && d in rest[k].blockedBy
      ensures !IsCompleted(rest, d)
    {
      var i :| 0 <= i < |b.tasks| && b.tasks[i] == rest[k];
      assert LinkedBlocker(b.tasks, i, d) && !IsCompleted(b.tasks, d);
      OtherTeamsAt(b.tasks, team, At(b.tasks, d));
    }
  }

  /** The operation overrides nothing, and a task that it creates names only blockers that are not completed. */
  predicate Careful(b: Board, op: Op) {
    Plain(op) && (op.CreateOp? ==> forall d :: d in op.blockedBy ==> !IsCompleted(b.tasks, d))
  }

  /** In a run of such operations no task ever waits for a completed one. */
  lemma {:induction false} CarefulRunsWaitForOpenTasks(b: Board, ops: seq<Op>)
    requires Linked(b) && NoneWaitsInVain(b.tasks)
    requires forall k :: 0 <= k < |ops| ==> Careful(After(b, ops[..k]), ops[k])
    ensures Linked(After(b, ops)) && NoneWaitsInVain(After(b, ops).tasks)
  {
    if ops == [] {
    } else {
      var init, last := ops[..|ops| - 1], ops[|ops| - 1];
      assert forall k :: 0 <= k < |init| ==> init[..k] == ops[..k];
      CarefulRunsWaitForOpenTasks(b, init);
      var c := After(b, init);
      assert Careful(c, last);
      StepKeepsLinks(c, last);
      match last
      case CreateOp(team, draft, blockedBy) =>
        CreateSucceedsIff(c, team, draft, blockedBy);
        if Created(c, team, draft, blockedBy).1.Done? {
          CreationWaitsInVainIff(c, team, draft, blockedBy);
        }
      case UpdateOp(team, id, changes) => UpdatesFreeWaiters(c, team, id, changes);
      case DeleteTeamOp(team) => DeletionFreesNobodyInVain(c, team);
    }
  }

  function Override(blockedBy: seq<TaskId>): Changes {
    Changes(None, None, None, Some(blockedBy), None)
  }

  /** The board on which two tasks block each other. */
  function Entangled(b: Board, i: nat, j: nat): Board
    requires i < |b.tasks| && j < |b.tasks|
  {
    b.(tasks :=
      b.tasks[i := Changed(b.tasks[i], Override([b.tasks[j].id]))][j := Changed(b.tasks[j], Override([b.tasks[i].id]))])
  }

  /** With an override the promises fail: on any two tasks of a team that block nothing, both overrides are accepted,
    * and the two tasks then block each other. */
  lemma OverridesCanEntangle(b: Board, team: TeamId, i: nat, j: nat)
    requires Linked(b) && i < |b.tasks| && j < |b.tasks| && i != j
    requires b.tasks[i].team == team == b.tasks[j].team && b.tasks[i].blocks == [] == b.tasks[j].blocks
    ensures var one, two := b.tasks[i].id, b.tasks[j].id;
      && Step(Step(b, UpdateOp(team, one, Override([two]))), UpdateOp(team, two, Override([one]))) == Entangled(b, i, j)
      && Chain(Entangled(b, i, j).tasks, [one, two, one])
  {
    TwoUpdates(b, team, i, Override([b.tasks[j].id]), j, Override([b.tasks[i].id]));
    ChainOfTwo(Entangled(b, i, j).tasks, i, j);
  }

  lemma ChainOfTwo(tasks: seq<Task>, i: nat, j: nat)
    requires Unique(tasks) && i < |tasks| && j < |tasks|
    requires tasks[i].blockedBy == [tasks[j].id] && tasks[j].blockedBy == [tasks[i].id]
    ensures Chain(tasks, [tasks[i].id, tasks[j].id, tasks[i].id])
  {
    AtIs(tasks, i);
    AtIs(tasks, j);
  }

  /** Completing both of the entangled tasks leaves them blocked. */
  lemma EntangledTasksStayBlocked(b: Board, team: TeamId, i: nat, j: nat)
    requires Linked(b) && i < |b.tasks| && j < |b.tasks| && i != j
    requires b.tasks[i].team == team == b.tasks[j].team && b.tasks[i].blocks == [] == b.tasks[j].blocks
    ensures var one, two := b.tasks[i].id, b.tasks[j].id;
      var e := Step(Step(Entangled(b, i, j), UpdateOp(team, one, COMPLETE)), UpdateOp(team, two, COMPLETE));
      && |e.tasks| == |b.tasks| && e.tasks[i].status == Completed == e.tasks[j].status
      && e.tasks[i].blockedBy == [two] && e.tasks[j].blockedBy == [one]
  {
    TwoUpdates(Entangled(b, i, j), team, i, COMPLETE, j, COMPLETE);
  }

  lemma TwoUpdates(b: Board, team: TeamId, i: nat, x: Changes, j: nat, y: Changes)
    requires Unique(b.tasks) && i < |b.tasks| && j < |b.tasks| && i != j
    requires b.tasks[i].team == team == b.tasks[j].team && b.tasks[i].blocks == [] == b.tasks[j].blocks
    ensures Step(Step(b, UpdateOp(team, b.tasks[i].id, x)), UpdateOp(team, b.tasks[j].id, y))
         == b.(tasks := b.tasks[i := Changed(b.tasks[i], x)][j := Changed(b.tasks[j], y)])
    ensures Unique(b.tasks[i := Changed(b.tasks[i], x)][j := Changed(b.tasks[j], y)])
  {
    UpdateWithoutDownstream(b, team, i, x);
    UpdateWithoutDownstream(Step(b, UpdateOp(team, b.tasks[i].id, x)), team, j, y);
  }

  /** An update of a task that blocks nothing changes that row alone. */
  lemma UpdateWithoutDownstream(b: Board, team: TeamId, i: nat, changes: Changes)
    requires Unique(b.tasks) && i < |b.tasks| && b.tasks[i].team == team && b.tasks[i].blocks == []
    ensures Updated(b, team, b.tasks[i].id, changes).0 == b.(tasks := b.tasks[i := Changed(b.tasks[i], changes)])
  {
    assert AtInTeam(b.tasks, team, b.tasks[i].id) == i == At(b.tasks, b.tasks[i].id);
  }
}
