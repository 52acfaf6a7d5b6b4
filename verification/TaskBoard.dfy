/** The task board over the in-memory store: the loops that write the dependency graph, row by row. */
module TaskBoards {
  import opened Wrappers
  import opened TaskGraph

  /** The task rows of the team repository. */
  class TaskStore {
    var tasks: seq<Task>

    constructor ()
      ensures tasks == []
    {
      tasks := [];
    }

    /** The index of the first row with this id. */
    method Position(id: TaskId) returns (i: nat)
      ensures i == At(tasks, id)
    {
      i := 0;
      while i < |tasks| && tasks[i].id != id
        invariant i <= |tasks|
        invariant forall j :: 0 <= j < i ==> tasks[j].id != id
      {
        i := i + 1;
      }
    }

    method FindTaskById(team: TeamId, id: TaskId) returns (row: Option<Task>)
      ensures var i := AtInTeam(tasks, team, id);
        row == if i < |tasks| then Some(tasks[i]) else None
    {
      var i := 0;
      while i < |tasks| && (tasks[i].id != id || tasks[i].team != team)
        invariant i <= |tasks|
        invariant forall j :: 0 <= j < i ==> tasks[j].id != id || tasks[j].team != team
      {
        i := i + 1;
      }
      row := if i < |tasks| then Some(tasks[i]) else None;
    }

    method CreateTask(row: Task)
      modifies this
      ensures tasks == old(tasks) + [row]
    {
      tasks := tasks + [row];
    }

    /** Finds the row by id alone, whatever its team. */
    method UpdateTask(id: TaskId, changes: Changes) returns (found: bool)
      modifies this
      ensures var i := At(old(tasks), id);
        && found == (i < |old(tasks)|)
        && tasks == if found then old(tasks)[i := Changed(old(tasks)[i], changes)] else old(tasks)
    {
      var i := Position(id);
      found := i < |tasks|;
      if found {
        var t := tasks[i];
        if changes.status.Some? {
          t := t.(status := changes.status.value);
        }
        if changes.description.Some? {
          t := t.(description := changes.description);
        }
        if changes.owner.Some? {
          t := t.(owner := changes.owner);
        }
        if changes.blockedBy.Some? {
          t := t.(blockedBy := changes.blockedBy.value);
        }
        if changes.metadata.Some? {
          t := t.(metadata := changes.metadata);
        }
        tasks := tasks[i := t];
      }
    }

    method AppendToBlocks(id: TaskId, blocked: TaskId) returns (found: bool)
      modifies this
      ensures var i := At(old(tasks), id);
        && found == (i < |old(tasks)|)
        && tasks == if found then old(tasks)[i := Apply(old(tasks)[i], AddBlocked(blocked))] else old(tasks)
    {
      var i := Position(id);
      found := i < |tasks|;
      if found {
        var blocks := tasks[i].blocks;
        if blocked !in blocks {
          blocks := blocks + [blocked];
        }
        tasks := tasks[i := tasks[i].(blocks := blocks)];
      }
    }

    method RemoveFromBlockedBy(id: TaskId, unblocked: TaskId) returns (found: bool)
      modifies this
      ensures var i := At(old(tasks), id);
        && found == (i < |old(tasks)|)
        && tasks == if found then old(tasks)[i := Apply(old(tasks)[i], DropBlocker(unblocked))] else old(tasks)
    {
      var i := Position(id);
      found := i < |tasks|;
      if found {
        var kept := Retain(tasks[i].blockedBy, unblocked);
        tasks := tasks[i := tasks[i].(blockedBy := kept)];
      }
    }

    static method Retain(ids: seq<TaskId>, removed: TaskId) returns (kept: seq<TaskId>)
      ensures kept == Minus(ids, {removed})
    {
      kept := [];
      for k := 0 to |ids|
        invariant kept == Minus(ids[..k], {removed})
      {
        assert ids[..k + 1][..k] == ids[..k];
        if ids[k] != removed {
          kept := kept + [ids[k]];
        }
      }
      assert ids[..|ids|] == ids;
    }

    method DeleteTasksByTeam(team: TeamId)
      modifies this
      ensures tasks == OtherTeams(old(tasks), team)
    {
      var kept: seq<Task> := [];
      for k := 0 to |tasks|
        invariant tasks == old(tasks)
        invariant kept == OtherTeams(tasks[..k], team)
      {
        assert tasks[..k + 1][..k] == tasks[..k];
        if tasks[k].team != team {
          kept := kept + [tasks[k]];
        }
      }
      assert tasks[..|tasks|] == tasks;
      tasks := kept;
    }
  }

  class TaskBoard {
    const repo: TaskStore
    /** The source of fresh task ids. */
    var nextId: TaskId

    ghost function State(): Board
      reads this, repo
    {
      Board(repo.tasks, nextId)
    }

    constructor (repo: TaskStore)
      ensures this.repo == repo && nextId == 0
    {
      this.repo, nextId := repo, 0;
    }

    method CreateTask(team: TeamId, draft: Draft, blockedBy: seq<TaskId>) returns (reply: Reply)
      modifies this, repo
      ensures (State(), reply) == Created(old(State()), team, draft, blockedBy)
    {
      ghost var before := repo.tasks;
      for k := 0 to |blockedBy|
        invariant State() == old(State())
        invariant FirstMissing(before, team, blockedBy) == FirstMissing(before, team, blockedBy[k..])
      {
        var dep := repo.FindTaskById(team, blockedBy[k]);
        if dep.None? {
          return BlockedTaskNotFound(blockedBy[k]);
        }
      }
      var row := NewTask(nextId, team, draft, blockedBy);
      nextId := nextId + 1;
      repo.CreateTask(row);
      ghost var rows := repo.tasks;
      for k := 0 to |blockedBy|
        invariant nextId == old(nextId) + 1
        invariant EditAll(rows, blockedBy, AddBlocked(row.id)) ==
          EditAll(repo.tasks, blockedBy[k..], AddBlocked(row.id))
      {
        var found := repo.AppendToBlocks(blockedBy[k], row.id);
        if !found {
          return RowNotFound(blockedBy[k]);
        }
        assert blockedBy[k..][1..] == blockedBy[k + 1..];
      }
      reply := Done(row);
    }

    method UpdateTask(team: TeamId, id: TaskId, changes: Changes) returns (reply: Reply)
      modifies repo
      ensures (State(), reply) == Updated(old(State()), team, id, changes)
    {
      var existing := repo.FindTaskById(team, id);
      if existing.None? {
        return TaskNotFound(id);
      }
      var found := repo.UpdateTask(id, changes);
      if !found {
        return RowNotFound(id);
      }
      if changes.status == Some(Completed) {
        var missing := CheckUnblocks(id, existing.value);
        if missing.Some? {
          return RowNotFound(missing.value);
        }
      }
      var updated := repo.FindTaskById(team, id);
      reply := if updated.Some? then Done(updated.value) else TaskNotFound(id);
    }

    /** Takes a completed task out of what blocks the tasks after it; the id of the first one without a row ends it. */
    method CheckUnblocks(completed: TaskId, row: Task) returns (missing: Option<TaskId>)
      modifies repo
      ensures (repo.tasks, missing) == EditAll(old(repo.tasks), row.blocks, DropBlocker(completed))
    {
      ghost var rows := repo.tasks;
      for k := 0 to |row.blocks|
        invariant EditAll(rows, row.blocks, DropBlocker(completed)) ==
          EditAll(repo.tasks, row.blocks[k..], DropBlocker(completed))
      {
        var found := repo.RemoveFromBlockedBy(row.blocks[k], completed);
        if !found {
          return Some(row.blocks[k]);
        }
        assert row.blocks[k..][1..] == row.blocks[k + 1..];
      }
      missing := None;
    }
  }
}
