/** What the agents see of the mailbox: each operation told by what it makes of every unread list and every history. */
module Inboxes {
  import opened Mail

  /** The messages but for those with these ids, in order. */
  function Except(messages: seq<Message>, ids: set<MessageId>): seq<Message> {
    if messages == [] then []
    else
      var before, last := Except(messages[..|messages| - 1], ids), messages[|messages| - 1];
      if last.id in ids then before else before + [last]
  }

  lemma {:induction false} UnreadExcept(messages: seq<Message>, ids: set<MessageId>, team: TeamId, agent: AgentId)
    ensures Unread(Flagged(messages, ids), team, agent) == Except(Unread(messages, team, agent), ids)
  {
    if messages == [] {
    } else {
      var init, last := messages[..|messages| - 1], messages[|messages| - 1];
      UnreadExcept(init, ids, team, agent);
      assert Flagged(messages, ids)[..|init|] == Flagged(init, ids);
    }
  }

  lemma {:induction false} ExceptAll(messages: seq<Message>, ids: set<MessageId>)
    requires forall i :: 0 <= i < |messages| ==> messages[i].id in ids
    ensures Except(messages, ids) == []
  {
    if messages == [] {
    } else {
      ExceptAll(messages[..|messages| - 1], ids);
    }
  }

  lemma {:induction false} ExceptNone(messages: seq<Message>, ids: set<MessageId>)
    requires forall i :: 0 <= i < |messages| ==> messages[i].id !in ids
    ensures Except(messages, ids) == messages
  {
    if messages == [] {
    } else {
      ExceptNone(messages[..|messages| - 1], ids);
    }
  }

  lemma OneMessagePerId(b: Box, m: Message, n: Message)
    requires Ordered(b) && m in b.messages && n in b.messages && m.id == n.id
    ensures m == n
  {
    var i :| 0 <= i < |b.messages| && b.messages[i] == m;
    var j :| 0 <= j < |b.messages| && b.messages[j] == n;
    assert i == j;
  }

  /** Ids of one agent's unread messages are not those of another agent's. */
  lemma UnreadIdsDiffer(b: Box, team: TeamId, agent: AgentId, t: TeamId, a: AgentId)
    requires Ordered(b) && (t != team || a != agent)
    ensures forall id :: id in Ids(Unread(b.messages, t, a)) ==> id !in Ids(Unread(b.messages, team, agent))
  {
    forall id | id in Ids(Unread(b.messages, t, a)) && id in Ids(Unread(b.messages, team, agent))
      ensures false
    {
      var m := UnreadIdOf(b.messages, t, a, id);
      var n := UnreadIdOf(b.messages, team, agent, id);
      OneMessagePerId(b, m, n);
    }
  }

  /** What marking all makes of one list: its ids are among those marked exactly when its agent is named. */
  lemma {:induction false} AllUnreadOf(b: Box, team: TeamId, agents: seq<AgentId>, t: TeamId, a: AgentId)
    requires Ordered(b)
    ensures forall id :: id in Ids(Unread(b.messages, t, a)) ==>
      (id in AllUnread(b.messages, team, agents) <==> t == team && a in agents)
  {
    if agents == [] {
    } else {
      var init, last := agents[..|agents| - 1], agents[|agents| - 1];
      AllUnreadOf(b, team, init, t, a);
      assert agents == init + [last];
      if t != team || a != last {
        UnreadIdsDiffer(b, team, last, t, a);
      }
    }
  }

  lemma ListAfterMarking(b: Box, ids: set<MessageId>, all: bool, t: TeamId, a: AgentId)
    requires forall id :: id in Ids(Unread(b.messages, t, a)) ==> (id in ids <==> all)
    ensures Unread(Flagged(b.messages, ids), t, a) == if all then [] else Unread(b.messages, t, a)
  {
    var unread := Unread(b.messages, t, a);
    UnreadExcept(b.messages, ids, t, a);
    assert forall i :: 0 <= i < |unread| ==> Ids(unread)[i] == unread[i].id;
    if all {
      ExceptAll(unread, ids);
    } else {
      ExceptNone(unread, ids);
    }
  }

  lemma {:induction false} ListsAfterDeletion(messages: seq<Message>, team: TeamId, t: TeamId, a: AgentId)
    ensures Unread(OtherTeams(messages, team), t, a) == if t == team then [] else Unread(messages, t, a)
    ensures History(OtherTeams(messages, team), t, a) == if t == team then [] else History(messages, t, a)
  {
    if messages == [] {
    } else {
      ListsAfterDeletion(messages[..|messages| - 1], team, t, a);
    }
  }

  lemma Appended(messages: seq<Message>, m: Message, t: TeamId, a: AgentId)
    ensures Unread(messages + [m], t, a) == Unread(messages, t, a) + if For(m, t, a) && !m.read then [m] else []
    ensures History(messages + [m], t, a) == History(messages, t, a) + if For(m, t, a) then [m] else []
  {
    assert (messages + [m])[..|messages|] == messages;
  }

  // ---- What agents see ----

  /** In every run, what an operation makes of the unread list of agent `a` in team `t`. A message arrives in the list
    * of the agent it is for, and in no other, with its sender and content and an id that no message has; a group
    * message arrives in none; a read empties the list of the reader, marking all empties the lists of the agents
    * named; a batch takes the named messages out of every list; a deletion empties the lists of the team. */
  lemma UnreadChanges(ops: seq<Op>, op: Op, t: TeamId, a: AgentId)
    ensures var b := After(ops);
      var list, after := Unread(b.messages, t, a), Unread(Step(b, op).messages, t, a);
      && (forall i :: 0 <= i < |b.messages| ==> b.messages[i].id < Issued(ops))
      && match op
         case Write(team, to, from, content) =>
           after == if t == team && a == to then list + [Message(Issued(ops), team, to, from, content, false)] else list
         case WriteGroup(_, _, _) => after == list
         case ReadUnread(team, agent) => after == if t == team && a == agent then [] else list
         case PeekUnread(_, _) => after == list
         case MarkReadBatch(ids) => after == Except(list, SetOf(ids))
         case MarkAllRead(team, agents) => after == if t == team && a in agents then [] else list
         case DeleteTeam(team) => after == if t == team then [] else list
  {
    var b := After(ops);
    IdsAreOrdered(ops);
    IdsCountWrites(ops);
    match op
    case Write(team, to, from, content) => Appended(b.messages, NewMessage(b, op), t, a);
    case WriteGroup(team, from, content) => Appended(b.messages, NewMessage(b, op), t, a);
    case PeekUnread(_, _) =>
    case ReadUnread(team, agent) =>
      if t != team || a != agent {
        UnreadIdsDiffer(b, team, agent, t, a);
      }
      ListAfterMarking(b, SetOf(Ids(Unread(b.messages, team, agent))), t == team && a == agent, t, a);
    case MarkReadBatch(ids) => UnreadExcept(b.messages, SetOf(ids), t, a);
    case MarkAllRead(team, agents) =>
      AllUnreadOf(b, team, agents, t, a);
      ListAfterMarking(b, SetOf(AllUnread(b.messages, team, agents)), t == team && a in agents, t, a);
    case DeleteTeam(team) => ListsAfterDeletion(b.messages, team, t, a);
  }

  /** The histories hold the same messages, some of them now read: those of which `now` holds. */
  predicate SameButRead(before: seq<Message>, after: seq<Message>, now: Message -> bool) {
    && |after| == |before|
    && forall i :: 0 <= i < |before| ==> after[i] == before[i].(read := before[i].read || now(before[i]))
  }

  lemma {:induction false} HistoryIsFor(messages: seq<Message>, t: TeamId, a: AgentId)
    ensures forall m :: m in History(messages, t, a) <==> m in messages && For(m, t, a)
  {
    if messages == [] {
    } else {
      HistoryIsFor(messages[..|messages| - 1], t, a);
      assert messages == messages[..|messages| - 1] + [messages[|messages| - 1]];
    }
  }

  /** Whether a message of a history is among the unread of an agent is a matter of whose history it is. */
  lemma UnreadInHistory(b: Box, team: TeamId, agent: AgentId, t: TeamId, a: AgentId, m: Message)
    requires Ordered(b) && m in History(b.messages, t, a) && !m.read
    ensures m.id in Ids(Unread(b.messages, team, agent)) <==> t == team && a == agent
    ensures m.id in Ids(Unread(b.messages, t, a))
  {
    HistoryIsFor(b.messages, t, a);
    UnreadMembers(b.messages, t, a);
    var unread := Unread(b.messages, t, a);
    var k :| 0 <= k < |unread| && unread[k] == m;
    assert Ids(unread)[k] == m.id;
    if t != team || a != agent {
      UnreadIdsDiffer(b, team, agent, t, a);
    }
  }

  /** In every run, what an operation makes of the history of agent `a` in team `t`: nothing goes but with its team,
    * nothing changes but the flag, and a group message is kept, read, under the address of the group. */
  lemma HistoryChanges(ops: seq<Op>, op: Op, t: TeamId, a: AgentId)
    ensures var b := After(ops);
      var list, after := History(b.messages, t, a), History(Step(b, op).messages, t, a);
      match op
      case Write(team, to, from, content) =>
        after == if t == team && a == to then list + [Message(Issued(ops), team, to, from, content, false)] else list
      case WriteGroup(team, from, content) =>
        after == if t == team && a == TEAM_GROUP
                 then list + [Message(Issued(ops), team, TEAM_GROUP, from, content, true)] else list
      case ReadUnread(team, agent) => SameButRead(list, after, m => t == team && a == agent)
      case PeekUnread(_, _) => after == list
      case MarkReadBatch(ids) => SameButRead(list, after, (m: Message) => m.id in ids)
      case MarkAllRead(team, agents) => SameButRead(list, after, m => t == team && a in agents)
      case DeleteTeam(team) => after == if t == team then [] else list
  {
    var b := After(ops);
    var list := History(b.messages, t, a);
    IdsAreOrdered(ops);
    IdsCountWrites(ops);
    match op
    case Write(team, to, from, content) => Appended(b.messages, NewMessage(b, op), t, a);
    case WriteGroup(team, from, content) => Appended(b.messages, NewMessage(b, op), t, a);
    case PeekUnread(_, _) =>
    case ReadUnread(team, agent) =>
      HistoryFlagged(b.messages, SetOf(Ids(Unread(b.messages, team, agent))), t, a);
      forall i | 0 <= i < |list| && !list[i].read
        ensures list[i].id in Ids(Unread(b.messages, team, agent)) <==> t == team && a == agent
      {
        UnreadInHistory(b, team, agent, t, a, list[i]);
      }
    case MarkReadBatch(ids) => HistoryFlagged(b.messages, SetOf(ids), t, a);
    case MarkAllRead(team, agents) =>
      HistoryFlagged(b.messages, SetOf(AllUnread(b.messages, team, agents)), t, a);
      AllUnreadOf(b, team, agents, t, a);
      forall i | 0 <= i < |list| && !list[i].read
        ensures list[i].id in AllUnread(b.messages, team, agents) <==> t == team && a in agents
      {
        UnreadInHistory(b, team, "", t, a, list[i]);
      }
    case DeleteTeam(team) => ListsAfterDeletion(b.messages, team, t, a);
  }
}
