/** What the board's operations store, field by field. */
module TaskEffects {
  import opened Wrappers
  import opened TaskGraph

  // ---- Lists with something taken out ----

  /** Taking ids out of a list works piece by piece: it goes at every place where one of them is, the rest stays in
    * order. */
  lemma {:induction false} MinusByPieces(a: seq<TaskId>, d: TaskId, b: seq<TaskId>, gone: set<TaskId>)
    ensures Minus([], gone) == []
    ensures Minus(a + [d] + b, gone) == Minus(a, gone) + (if d in gone then [] else [d]) + Minus(b, gone)
  {
    var x := a + [d] + b;
    if b == [] {
      assert x[..|x| - 1] == a;
    } else {
      var init, last := b[..|b| - 1], b[|b| - 1];
      MinusByPieces(a, d, init, gone);
      assert x[..|x| - 1] == a + [d] + init && x[|x| - 1] == last;
    }
  }

  /** Deleting a team works in the same way on rows. */
  lemma {:induction false} DeletionByPieces(a: seq<Task>, t: Task, b: seq<Task>, team: TeamId)
    ensures OtherTeams([], team) == []
    ensures OtherTeams(a + [t] + b, team) ==
      OtherTeams(a, team) + (if t.team == team then [] else [t]) + OtherTeams(b, team)
  {
    var x := a + [t] + b;
    if b == [] {
      assert x[..|x| - 1] == a;
    } else {
      var init, last := b[..|b| - 1], b[|b| - 1];
      DeletionByPieces(a, t, init, team);
      assert x[..|x| - 1] == a + [t] + init && x[|x| - 1] == last;
    }
  }

  /** Deleting a team leaves exactly the rows of the others. */
  lemma {:induction false} DeletionLeaves(tasks: seq<Task>, team: TeamId, nextId: TaskId)
    ensures Step(Board(tasks, nextId), DeleteTeamOp(team)).nextId == nextId
    ensures forall t :: t in Step(Board(tasks, nextId), DeleteTeamOp(team)).tasks <==> t in tasks && t.team != team
  {
    if tasks == [] {
    } else {
      DeletionLeaves(tasks[..|tasks| - 1], team, nextId);
      assert tasks == tasks[..|tasks| - 1] + [tasks[|tasks| - 1]];
    }
  }

  // ---- Creation ----

  /** An older row after a creation: nothing has changed but what it blocks, if it is among the blockers. */
  predicate OlderRow(before: Task, after: Task, blockers: seq<TaskId>, created: TaskId) {
    && after.id == before.id && after.team == before.team
    && after.subject == before.subject && after.description == before.description
    && after.status == before.status && after.owner == before.owner
    && after.blockedBy == before.blockedBy && after.metadata == before.metadata
    && after.blocks == if before.id in blockers then before.blocks + [created] else before.blocks
  }

  /** A creation that succeeds stores, and returns, one pending task with an id of its own, just as it was asked for,
    * that blocks nothing; each blocker, named once or more, lists it once; nothing else changes. */
  lemma CreationStores(b: Board, team: TeamId, draft: Draft, blockedBy: seq<TaskId>)
    requires Linked(b) && Created(b, team, draft, blockedBy).1.Done?
    ensures var (c, reply) := Created(b, team, draft, blockedBy);
      var t := reply.task;
      && t.team == team && t.subject == draft.subject && t.description == draft.description && t.owner == draft.owner
      && t.blockedBy == blockedBy && t.status == Pending && t.blocks == [] && t.metadata == None
      && (forall i :: 0 <= i < |b.tasks| ==> b.tasks[i].id != t.id)
      && |c.tasks| == |b.tasks| + 1 && c.tasks[|b.tasks|] == t
      && (forall i :: 0 <= i < |b.tasks| ==> OlderRow(b.tasks[i], c.tasks[i], blockedBy, t.id))
      && c == Step(b, CreateOp(team, draft, blockedBy))
  {
    CreateShape(b, team, draft, blockedBy);
    var c := Created(b, team, draft, blockedBy).0;
    forall i | 0 <= i < |b.tasks|
      ensures OlderRow(b.tasks[i], c.tasks[i], blockedBy, b.nextId)
    {
      assert c.tasks[i] == Linking(b.tasks[i], blockedBy, b.nextId);
    }
  }

  /** A creation that is refused names the first blocker that is not a task of the team. */
  lemma {:induction false} RefusalNamesTheFirst(tasks: seq<Task>, team: TeamId, deps: seq<TaskId>) returns (k: nat)
    requires FirstMissing(tasks, team, deps).Some?
    ensures k < |deps| && FirstMissing(tasks, team, deps) == Some(deps[k])
    ensures AtInTeam(tasks, team, deps[k]) == |tasks|
    ensures forall j :: 0 <= j < k ==> AtInTeam(tasks, team, deps[j]) < |tasks|
  {
    if AtInTeam(tasks, team, deps[0]) == |tasks| {
      k := 0;
    } else {
      k := RefusalNamesTheFirst(tasks, team, deps[1..]);
      assert forall j :: 0 < j <= k ==> deps[j] == deps[1..][j - 1];
      k := k + 1;
    }
  }

  /** On any board, the reply of a refused creation names that blocker, and the board stays as it is. */
  lemma CreationRefuses(b: Board, team: TeamId, draft: Draft, blockedBy: seq<TaskId>) returns (k: nat)
    requires exists d :: d in blockedBy && AtInTeam(b.tasks, team, d) == |b.tasks|
    ensures k < |blockedBy| && Created(b, team, draft, blockedBy) == (b, BlockedTaskNotFound(blockedBy[k]))
    ensures AtInTeam(b.tasks, team, blockedBy[k]) == |b.tasks|
    ensures forall j :: 0 <= j < k ==> AtInTeam(b.tasks, team, blockedBy[j]) < |b.tasks|
  {
    FirstMissingIs(b.tasks, team, blockedBy);
    k := RefusalNamesTheFirst(b.tasks, team, blockedBy);
  }

  // ---- Update ----

  /** The given value, or else the old one. */
  predicate Gets<T(==)>(after: T, given: Option<T>, before: T) {
    after == if given.Some? then given.value else before
  }

  /** Row `before` after an update of its own: each given field has its new value, each other one its old value. */
  predicate OwnRow(before: Task, after: Task, changes: Changes, freed: bool) {
    && after.id == before.id && after.team == before.team && after.subject == before.subject
    && after.blocks == before.blocks
    && Gets(after.status, changes.status, before.status)
    && (if changes.description.Some? then after.description == changes.description
        else after.description == before.description)
    && (if changes.owner.Some? then after.owner == changes.owner else after.owner == before.owner)
    && (if changes.metadata.Some? then after.metadata == changes.metadata else after.metadata == before.metadata)
    && (if freed then Gets(after.blockedBy, None, Minus(OrElse(changes.blockedBy, before.blockedBy), {before.id}))
        else Gets(after.blockedBy, changes.blockedBy, before.blockedBy))
  }

  /** Any other row: nothing has changed but that the completed task blocks it no more. */
  predicate OtherRow(before: Task, after: Task, freed: bool, completed: TaskId) {
    && after.id == before.id && after.team == before.team
    && after.subject == before.subject && after.description == before.description
    && after.status == before.status && after.owner == before.owner
    && after.blocks == before.blocks && after.metadata == before.metadata
    && after.blockedBy == if freed then Minus(before.blockedBy, {completed}) else before.blockedBy
  }

  /** The loop of edits gets as far as the first id without a row. */
  lemma {:induction false} EditsGoAsFar(tasks: seq<Task>, ids: seq<TaskId>, e: Edit) returns (done: seq<TaskId>)
    requires Unique(tasks)
    ensures done <= ids && forall d :: d in done ==> At(tasks, d) < |tasks|
    ensures EditAll(tasks, ids, e).0 == EditAll(tasks, done, e).0
    ensures if done == ids then EditAll(tasks, ids, e).1 == None
            else At(tasks, ids[|done|]) == |tasks| && EditAll(tasks, ids, e).1 == Some(ids[|done|])
    decreases |ids|
  {
    if ids == [] || At(tasks, ids[0]) == |tasks| {
      done := [];
    } else {
      var i := At(tasks, ids[0]);
      var next := tasks[i := Apply(tasks[i], e)];
      OneEdit(tasks, i, e);
      var rest := EditsGoAsFar(next, ids[1..], e);
      done := [ids[0]] + rest;
      assert done[1..] == rest;
      assert ids == [ids[0]] + ids[1..];
    }
  }

  lemma OwnRowIs(before: Task, changes: Changes, freed: bool)
    ensures var t := Changed(before, changes);
      OwnRow(before, if freed then Apply(t, DropBlocker(before.id)) else t, changes, freed)
  {
  }

  lemma OtherRowIs(before: Task, freed: bool, completed: TaskId)
    ensures OtherRow(before, if freed then Apply(before, DropBlocker(completed)) else before, freed, completed)
  {
  }

  /** Which edits an update makes, and its reply. */
  lemma UpdateGoesAsFar(b: Board, team: TeamId, id: TaskId, changes: Changes) returns (freed: seq<TaskId>)
    requires Unique(b.tasks) && AtInTeam(b.tasks, team, id) < |b.tasks|
    ensures var (c, reply) := Updated(b, team, id, changes);
      var k := AtInTeam(b.tasks, team, id);
      var blocks, rows := b.tasks[k].blocks, b.tasks[k := Changed(b.tasks[k], changes)];
      && c == b.(tasks := EditAll(rows, freed, DropBlocker(id)).0)
      && Unique(rows) && SameRows(rows, c.tasks) && (forall d :: d in freed ==> At(rows, d) < |rows|)
      && (if changes.status == Some(Completed) then freed <= blocks else freed == [])
      && (if changes.status == Some(Completed) && freed < blocks
          then At(b.tasks, blocks[|freed|]) == |b.tasks| && reply == RowNotFound(blocks[|freed|])
          else reply == Done(c.tasks[k]))
  {
    var k := AtInTeam(b.tasks, team, id);
    BlockersFound(b.tasks, team, id);
    var rows := b.tasks[k := Changed(b.tasks[k], changes)];
    SameLookups(b.tasks, rows);
    freed := [];
    if changes.status == Some(Completed) {
      freed := EditsGoAsFar(rows, b.tasks[k].blocks, DropBlocker(id));
      EditAllIs(rows, freed, DropBlocker(id));
      SameLookups(rows, EditAll(rows, freed, DropBlocker(id)).0);
    }
  }

  /** On any board with unique ids: an update changes what it is given and nothing else. A completion takes the task out
    * of the blockers of the tasks that it lists, in order, up to the first that has no row, which is then the reply;
    * otherwise the reply is the row as it is stored. */
  lemma UpdateStores(b: Board, team: TeamId, id: TaskId, changes: Changes) returns (freed: seq<TaskId>)
    requires Unique(b.tasks) && AtInTeam(b.tasks, team, id) < |b.tasks|
    ensures var (c, reply) := Updated(b, team, id, changes);
      var k := AtInTeam(b.tasks, team, id);
      var blocks := b.tasks[k].blocks;
      && c == Step(b, UpdateOp(team, id, changes)) && |c.tasks| == |b.tasks| && c.nextId == b.nextId
      && (if changes.status == Some(Completed) then freed <= blocks else freed == [])
      && (if changes.status == Some(Completed) && freed < blocks
          then At(b.tasks, blocks[|freed|]) == |b.tasks| && reply == RowNotFound(blocks[|freed|])
          else reply == Done(c.tasks[k]))
      && OwnRow(b.tasks[k], c.tasks[k], changes, id in freed)
      && (forall i :: 0 <= i < |b.tasks| && i != k ==>
            OtherRow(b.tasks[i], c.tasks[i], b.tasks[i].id in freed, id))
  {
    var k := AtInTeam(b.tasks, team, id);
    var rows := b.tasks[k := Changed(b.tasks[k], changes)];
    freed := UpdateGoesAsFar(b, team, id, changes);
    EditAllIs(rows, freed, DropBlocker(id));
    OwnRowIs(b.tasks[k], changes, id in freed);
    forall i | 0 <= i < |b.tasks| && i != k
      ensures OtherRow(b.tasks[i], Updated(b, team, id, changes).0.tasks[i], b.tasks[i].id in freed, id)
    {
      OtherRowIs(b.tasks[i], b.tasks[i].id in freed, id);
    }
  }

  /** On any board, an update of a task that is not one of the team's says so and changes nothing. */
  lemma UpdateRefuses(b: Board, team: TeamId, id: TaskId, changes: Changes)
    requires AtInTeam(b.tasks, team, id) == |b.tasks|
    ensures Updated(b, team, id, changes) == (b, TaskNotFound(id))
    ensures forall i :: 0 <= i < |b.tasks| ==> b.tasks[i].id != id || b.tasks[i].team != team
  {
  }
}
