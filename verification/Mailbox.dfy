/** The mailbox over the in-memory store, which marks messages in place. */
module Mailboxes {
  import opened Wrappers
  import opened Mail

  /** A 64-bit limit as a count: a negative one turns into a count beyond any list. */
  function TakeCount(limit: int, available: nat): nat {
    if limit < 0 || limit > available then available else limit
  }

  lemma HistorySplits(messages: seq<Message>, k: nat, team: TeamId, agent: AgentId)
    requires k < |messages|
    ensures History(messages[..k + 1], team, agent)
         == if For(messages[k], team, agent) then History(messages[..k], team, agent) + [messages[k]]
            else History(messages[..k], team, agent)
  {
    assert messages[..k + 1][..k] == messages[..k];
  }

  lemma UnreadSplits(messages: seq<Message>, k: nat, team: TeamId, agent: AgentId)
    requires k < |messages|
    ensures Unread(messages[..k + 1], team, agent)
         == if For(messages[k], team, agent) && !messages[k].read then
           Unread(messages[..k], team, agent) + [messages[k]]
            else Unread(messages[..k], team, agent)
  {
    assert messages[..k + 1][..k] == messages[..k];
  }

  /** With unique ids, the ids of an agent's unread messages are in the list exactly for those messages. */
  lemma UnreadIdIff(b: Box, i: nat, team: TeamId, agent: AgentId)
    requires Ordered(b) && i < |b.messages|
    ensures b.messages[i].id in Ids(Unread(b.messages, team, agent)) <==>
      For(b.messages[i], team, agent) && !b.messages[i].read
  {
    var unread := Unread(b.messages, team, agent);
    if b.messages[i].id in Ids(unread) {
      var m := UnreadIdOf(b.messages, team, agent, b.messages[i].id);
      var j :| 0 <= j < |b.messages| && b.messages[j] == m;
      assert !(i < j) && !(j < i);
    }
    if For(b.messages[i], team, agent) && !b.messages[i].read {
      UnreadMembers(b.messages, team, agent);
      var k :| 0 <= k < |unread| && unread[k] == b.messages[i];
      assert Ids(unread)[k] == b.messages[i].id;
    }
  }

  /** Marking the unread messages of an agent one by one is flagging their ids, as ids are unique. */
  lemma MarkedOneByOne(b: Box, marked: seq<Message>, team: TeamId, agent: AgentId)
    requires Ordered(b) && ReadUpTo(b.messages, marked, |b.messages|, team, agent)
    ensures marked == Flagged(b.messages, SetOf(Ids(Unread(b.messages, team, agent)))) &&
      Ordered(b.(messages := marked))
  {
    forall i | 0 <= i < |b.messages|
      ensures b.messages[i].id in SetOf(Ids(Unread(b.messages, team, agent))) <==>
        For(b.messages[i], team, agent) && !b.messages[i].read
    {
      UnreadIdIff(b, i, team, agent);
    }
    StepKeepsOrdered(b, ReadUnread(team, agent));
  }

  /** What a read returns: the unread messages, each flagged as read. */
  lemma ReturnedAsRead(unread: seq<Message>, result: seq<Message>)
    requires |result| == |unread| && forall i :: 0 <= i < |unread| ==> result[i] == unread[i].(read := true)
    ensures result == Flagged(unread, SetOf(Ids(unread))) && Ids(result) == Ids(unread)
  {
    forall i | 0 <= i < |unread|
      ensures unread[i].id in SetOf(Ids(unread))
    {
      assert Ids(unread)[i] == unread[i].id;
    }
  }

  /** The first `k` messages have been gone through by a read for this agent. */
  ghost predicate ReadUpTo(before: seq<Message>, messages: seq<Message>, k: nat, team: TeamId, agent: AgentId) {
    && |messages| == |before| && k <= |before|
    && (forall i :: k <= i < |before| ==> messages[i] == before[i])
    && (forall i :: 0 <= i < k ==> messages[i] == before[i].(read := before[i].read || For(before[i], team, agent)))
  }

  class Mailbox {
    var messages: seq<Message>
    /** The source of fresh message ids. */
    var nextId: MessageId

    ghost function State(): Box
      reads this
    {
      Box(messages, nextId)
    }

    constructor ()
      ensures State() == Empty()
    {
      messages, nextId := [], 0;
    }

    method WriteMessage(team: TeamId, to: AgentId, from: AgentId, content: string) returns (m: Message)
      modifies this
      ensures State() == Step(old(State()), Write(team, to, from, content)) && messages == old(messages) + [m]
    {
      m := Message(nextId, team, to, from, content, false);
      messages, nextId := messages + [m], nextId + 1;
    }

    /** A group message goes to the group's address, already read. */
    method PersistGroupMessage(team: TeamId, from: AgentId, content: string)
      modifies this
      ensures State() == Step(old(State()), WriteGroup(team, from, content))
    {
      messages := messages + [Message(nextId, team, TEAM_GROUP, from, content, true)];
      nextId := nextId + 1;
    }

    /** Returns the unread messages of an agent in write order, flagged as read, and flags them in the store. */
    method ReadUnreadAndMark(team: TeamId, agent: AgentId) returns (result: seq<Message>)
      requires Ordered(State())
      modifies this`messages
      ensures State() == Step(old(State()), ReadUnread(team, agent)) && Ordered(State())
      ensures result == Flagged(Unread(old(messages), team, agent), SetOf(Ids(Unread(old(messages), team, agent))))
      ensures Ids(result) == Ids(Unread(old(messages), team, agent))
    {
      result := FlagUnread(team, agent);
      MarkedOneByOne(old(State()), messages, team, agent);
      ReturnedAsRead(Unread(old(messages), team, agent), result);
    }

    /** The loop over the store: flags the unread messages of an agent one by one, and collects them. */
    method FlagUnread(team: TeamId, agent: AgentId) returns (result: seq<Message>)
      modifies this`messages
      ensures ReadUpTo(old(messages), messages, |messages|, team, agent)
      ensures var unread := Unread(old(messages), team, agent);
        |result| == |unread| && forall i :: 0 <= i < |unread| ==> result[i] == unread[i].(read := true)
    {
      result := [];
      ghost var before := messages;
      ghost var unread: seq<Message> := [];
      for k := 0 to |messages|
        invariant ReadUpTo(before, messages, k, team, agent)
        invariant unread == Unread(before[..k], team, agent) && |result| == |unread|
        invariant forall i :: 0 <= i < |unread| ==> result[i] == unread[i].(read := true)
      {
        UnreadSplits(before, k, team, agent);
        if For(messages[k], team, agent) && !messages[k].read {
          unread := unread + [before[k]];
          messages := messages[k := messages[k].(read := true)];
          result := result + [messages[k]];
        }
      }
      assert before[..|before|] == before;
    }

    method PeekMessages(team: TeamId, agent: AgentId) returns (result: seq<Message>)
      ensures result == Unread(messages, team, agent)
    {
      result := [];
      for k := 0 to |messages|
        invariant result == Unread(messages[..k], team, agent)
      {
        UnreadSplits(messages, k, team, agent);
        if For(messages[k], team, agent) && !messages[k].read {
          result := result + [messages[k]];
        }
      }
      assert messages[..|messages|] == messages;
    }

    method MarkBatch(ids: seq<MessageId>)
      modifies this`messages
      ensures State() == Step(old(State()), MarkReadBatch(ids))
    {
      ghost var before := messages;
      for k := 0 to |messages|
        invariant |messages| == |before|
        invariant forall i :: k <= i < |before| ==> messages[i] == before[i]
        invariant forall i :: 0 <= i < k ==> messages[i] == before[i].(read := before[i].read || before[i].id in ids)
      {
        if messages[k].id in ids {
          messages := messages[k := messages[k].(read := true)];
        }
      }
      assert messages == Flagged(before, SetOf(ids));
    }

    /** Marks what is unread for these agents; an agent that is named twice is counted twice. */
    method MarkAllUnreadForAgents(team: TeamId, agents: seq<AgentId>) returns (count: nat)
      modifies this`messages
      ensures State() == Step(old(State()), MarkAllRead(team, agents))
      ensures count == |AllUnread(old(messages), team, agents)|
    {
      var ids: seq<MessageId> := [];
      for k := 0 to |agents|
        invariant messages == old(messages)
        invariant ids == AllUnread(messages, team, agents[..k])
      {
        var unread := PeekMessages(team, agents[k]);
        assert agents[..k + 1][..k] == agents[..k];
        ids := ids + Ids(unread);
      }
      assert agents[..|agents|] == agents;
      count := |ids|;
      if ids != [] {
        MarkBatch(ids);
      } else {
        assert messages == Flagged(messages, SetOf(ids));
      }
    }

    /** The oldest messages come first, so a limit keeps the oldest. */
    method GetHistory(team: TeamId, agent: AgentId, limit: Option<int>) returns (result: seq<Message>)
      ensures var all := History(messages, team, agent);
        && result <= all
        && |result| == if limit.Some? && 0 <= limit.value < |all| then limit.value else |all|
    {
      result := [];
      for k := 0 to |messages|
        invariant result == History(messages[..k], team, agent)
      {
        HistorySplits(messages, k, team, agent);
        if For(messages[k], team, agent) {
          result := result + [messages[k]];
        }
      }
      assert messages[..|messages|] == messages;
      if limit.Some? {
        result := result[..TakeCount(limit.value, |result|)];
      }
    }

    method DeleteMailboxByTeam(team: TeamId)
      modifies this`messages
      ensures State() == Step(old(State()), DeleteTeam(team))
    {
      var kept: seq<Message> := [];
      for k := 0 to |messages|
        invariant messages == old(messages)
        invariant kept == OtherTeams(messages[..k], team)
      {
        assert messages[..k + 1][..k] == messages[..k];
        if messages[k].team != team {
          kept := kept + [messages[k]];
        }
      }
      assert messages[..|messages|] == messages;
      messages := kept;
    }
  }
}
