/** The team mailbox: messages are written, peeked at, delivered, and marked as read.
  *
  * Message ids are fresh numbers. Summaries, attached files and times are not modelled.
  */
module Mail {

  type MessageId = nat
  type TeamId = nat
  type AgentId = string

  /** The address under which the messages of a team's group chat are kept. */
  const TEAM_GROUP: AgentId := "__team_group__"

  datatype Message = Message(id: MessageId, team: TeamId, to: AgentId, from: AgentId, content: string, read: bool)

  datatype Box = Box(messages: seq<Message>, nextId: MessageId)

  function Empty(): Box {
    Box([], 0)
  }

  // ---- Operations ----

  predicate For(m: Message, team: TeamId, agent: AgentId) {
    m.team == team && m.to == agent
  }

  function Unread(messages: seq<Message>, team: TeamId, agent: AgentId): seq<Message> {
    if messages == [] then []
    else
      var before, last := Unread(messages[..|messages| - 1], team, agent), messages[|messages| - 1];
      if For(last, team, agent) && !last.read then before + [last] else before
  }

  function History(messages: seq<Message>, team: TeamId, agent: AgentId): seq<Message> {
    if messages == [] then []
    else
      var before, last := History(messages[..|messages| - 1], team, agent), messages[|messages| - 1];
      if For(last, team, agent) then before + [last] else before
  }

  function OtherTeams(messages: seq<Message>, team: TeamId): seq<Message> {
    if messages == [] then []
    else
      var before, last := OtherTeams(messages[..|messages| - 1], team), messages[|messages| - 1];
      if last.team == team then before else before + [last]
  }

  /** The messages with the named ones marked as read. */
  function Flagged(messages: seq<Message>, ids: set<MessageId>): (r: seq<Message>)
    ensures |r| == |messages|
    ensures forall i :: 0 <= i < |r| ==> r[i] == messages[i].(read := messages[i].read || messages[i].id in ids)
  {
    if messages == [] then []
    else
      var last := messages[|messages| - 1];
      Flagged(messages[..|messages| - 1], ids) + [last.(read := last.read || last.id in ids)]
  }

  function Ids(messages: seq<Message>): (r: seq<MessageId>)
    ensures |r| == |messages|
    ensures forall i :: 0 <= i < |r| ==> r[i] == messages[i].id
  {
    if messages == [] then [] else Ids(messages[..|messages| - 1]) + [messages[|messages| - 1].id]
  }

  function SetOf(ids: seq<MessageId>): set<MessageId> {
    set id | id in ids
  }

  function AllUnread(messages: seq<Message>, team: TeamId, agents: seq<AgentId>): seq<MessageId> {
    if agents == [] then []
    else AllUnread(messages, team, agents[..|agents| - 1]) + Ids(Unread(messages, team, agents[|agents| - 1]))
  }

  datatype Op =
    | Write(team: TeamId, to: AgentId, from: AgentId, content: string)
    | WriteGroup(team: TeamId, from: AgentId, content: string)
    | ReadUnread(team: TeamId, agent: AgentId)
    | PeekUnread(team: TeamId, agent: AgentId)
    | MarkReadBatch(ids: seq<MessageId>)
    | MarkAllRead(team: TeamId, agents: seq<AgentId>)
    | DeleteTeam(team: TeamId)

  function Add(b: Box, m: Message): Box {
    Box(b.messages + [m], b.nextId + 1)
  }

  function NewMessage(b: Box, op: Op): Message
    requires op.Write? || op.WriteGroup?
  {
    match op
    case Write(team, to, from, content) => Message(b.nextId, team, to, from, content, false)
    case WriteGroup(team, from, content) => Message(b.nextId, team, TEAM_GROUP, from, content, true)
  }

  function Step(b: Box, op: Op): Box {
    match op
    case Write(_, _, _, _) => Add(b, NewMessage(b, op))
    case WriteGroup(_, _, _) => Add(b, NewMessage(b, op))
    case ReadUnread(team, agent) => b.(messages := Flagged(b.messages, SetOf(Ids(Unread(b.messages, team, agent)))))
    case PeekUnread(_, _) => b
    case MarkReadBatch(ids) => b.(messages := Flagged(b.messages, SetOf(ids)))
    case MarkAllRead(team, agents) => b.(messages := Flagged(b.messages, SetOf(AllUnread(b.messages, team, agents))))
    case DeleteTeam(team) => b.(messages := OtherTeams(b.messages, team))
  }

  function After(ops: seq<Op>): Box {
    if ops == [] then Empty() else Step(After(ops[..|ops| - 1]), ops[|ops| - 1])
  }

  // ---- What a run has done, told without the store's flags ----

  /** How many messages were written, and so the id of the next one. */
  function Issued(ops: seq<Op>): MessageId {
    if ops == [] then 0
    else
      var init, last := ops[..|ops| - 1], ops[|ops| - 1];
      if last.Write? || last.WriteGroup? then Issued(init) + 1 else Issued(init)
  }

  lemma {:induction false} IdsCountWrites(ops: seq<Op>)
    ensures After(ops).nextId == Issued(ops)
  {
    if ops == [] {
    } else {
      IdsCountWrites(ops[..|ops| - 1]);
    }
  }

  /** What was written and not deleted with its team, as it was written. */
  function Written(ops: seq<Op>): seq<Message> {
    if ops == [] then []
    else
      var init, last := ops[..|ops| - 1], ops[|ops| - 1];
      match last
      case Write(team, to, from, content) =>
        Written(init) + [Message(Issued(init), team, to, from, content, false)]
      case WriteGroup(team, from, content) =>
        Written(init) + [Message(Issued(init), team, TEAM_GROUP, from, content, true)]
      case DeleteTeam(team) => OtherTeams(Written(init), team)
      case _ => Written(init)
  }

  /** The ids that reads have returned, in order of delivery. */
  function Delivered(ops: seq<Op>): seq<MessageId> {
    if ops == [] then []
    else
      var init, last := ops[..|ops| - 1], ops[|ops| - 1];
      if last.ReadUnread? then Delivered(init) + Ids(Unread(After(init).messages, last.team, last.agent))
        else Delivered(init)
  }

  /** The ids of messages that marking found in the store. */
  function Marked(ops: seq<Op>): set<MessageId> {
    if ops == [] then {}
    else
      var init, last := ops[..|ops| - 1], ops[|ops| - 1];
      var present := SetOf(Ids(After(init).messages));
      match last
      case MarkReadBatch(ids) => Marked(init) + SetOf(ids) * present
      case MarkAllRead(team, agents) => Marked(init) + SetOf(AllUnread(After(init).messages, team, agents)) * present
      case _ => Marked(init)
  }

  function Gone(ops: seq<Op>): set<MessageId> {
    SetOf(Delivered(ops)) + Marked(ops)
  }

  // ---- Lists ----

  predicate NoRepeats(ids: seq<MessageId>) {
    forall i, j :: 0 <= i < j < |ids| ==> ids[i] != ids[j]
  }

  predicate Increasing(messages: seq<Message>) {
    forall i, j :: 0 <= i < j < |messages| ==> messages[i].id < messages[j].id
  }

  predicate Below(messages: seq<Message>, bound: MessageId) {
    forall i :: 0 <= i < |messages| ==> messages[i].id < bound
  }

  /** Ids grow along the list and are below the next one. */
  predicate Ordered(b: Box) {
    Increasing(b.messages) && Below(b.messages, b.nextId)
  }

  lemma AppendIncreasing(messages: seq<Message>, m: Message)
    requires Increasing(messages) && Below(messages, m.id)
    ensures Increasing(messages + [m]) && Below(messages + [m], m.id + 1)
  {
  }

  lemma PrefixIncreasing(messages: seq<Message>)
    requires messages != [] && Increasing(messages)
    ensures Increasing(messages[..|messages| - 1]) && Below(messages[..|messages| - 1], messages[|messages| - 1].id)
  {
  }

  lemma {:induction false} OtherTeamsSorted(messages: seq<Message>, team: TeamId, bound: MessageId)
    requires Increasing(messages) && Below(messages, bound)
    ensures Increasing(OtherTeams(messages, team)) && Below(OtherTeams(messages, team), bound)
  {
    if messages == [] {
    } else {
      var last := messages[|messages| - 1];
      PrefixIncreasing(messages);
      OtherTeamsSorted(messages[..|messages| - 1], team, last.id);
      if last.team != team {
        AppendIncreasing(OtherTeams(messages[..|messages| - 1], team), last);
      }
    }
  }

  lemma {:induction false} OtherTeamsMembers(messages: seq<Message>, team: TeamId)
    ensures forall m :: m in OtherTeams(messages, team) ==> m in messages
  {
    if messages == [] {
    } else {
      OtherTeamsMembers(messages[..|messages| - 1], team);
      assert messages == messages[..|messages| - 1] + [messages[|messages| - 1]];
    }
  }

  lemma {:induction false} OtherTeamsFlagged(messages: seq<Message>, ids: set<MessageId>, team: TeamId)
    ensures OtherTeams(Flagged(messages, ids), team) == Flagged(OtherTeams(messages, team), ids)
  {
    if messages == [] {
    } else {
      var init := messages[..|messages| - 1];
      OtherTeamsFlagged(init, ids, team);
      assert Flagged(messages, ids)[..|init|] == Flagged(init, ids);
    }
  }

  lemma {:induction false} UnreadMembers(messages: seq<Message>, team: TeamId, agent: AgentId)
    ensures forall m :: m in Unread(messages, team, agent) <==> m in messages && For(m, team, agent) && !m.read
  {
    if messages == [] {
    } else {
      UnreadMembers(messages[..|messages| - 1], team, agent);
      assert messages == messages[..|messages| - 1] + [messages[|messages| - 1]];
    }
  }

  lemma {:induction false} UnreadIncreasing(messages: seq<Message>, team: TeamId, agent: AgentId, bound: MessageId)
    requires Increasing(messages) && Below(messages, bound)
    ensures Increasing(Unread(messages, team, agent)) && Below(Unread(messages, team, agent), bound)
  {
    if messages == [] {
    } else {
      var last := messages[|messages| - 1];
      PrefixIncreasing(messages);
      UnreadIncreasing(messages[..|messages| - 1], team, agent, last.id);
      if For(last, team, agent) && !last.read {
        AppendIncreasing(Unread(messages[..|messages| - 1], team, agent), last);
      }
    }
  }

  lemma IncreasingIdsDiffer(messages: seq<Message>)
    requires Increasing(messages)
    ensures NoRepeats(Ids(messages))
  {
  }

  lemma UnreadIdOf(messages: seq<Message>, team: TeamId, agent: AgentId, id: MessageId) returns (m: Message)
    requires id in Ids(Unread(messages, team, agent))
    ensures m in messages && m.id == id && For(m, team, agent) && !m.read
  {
    UnreadMembers(messages, team, agent);
    var u := Unread(messages, team, agent);
    var k :| 0 <= k < |u| && Ids(u)[k] == id;
    m := u[k];
  }

  lemma FlaggedTwice(messages: seq<Message>, a: set<MessageId>, b: set<MessageId>)
    ensures Flagged(Flagged(messages, a), b) == Flagged(messages, a + b)
  {
  }

  lemma FlaggedAlike(messages: seq<Message>, a: set<MessageId>, b: set<MessageId>)
    requires forall i :: 0 <= i < |messages| ==> (messages[i].id in a <==> messages[i].id in b)
    ensures Flagged(messages, a) == Flagged(messages, b)
  {
  }

  // ---- What every run keeps ----

  lemma FlaggedOrdered(messages: seq<Message>, ids: set<MessageId>, bound: MessageId)
    requires Increasing(messages) && Below(messages, bound)
    ensures Increasing(Flagged(messages, ids)) && Below(Flagged(messages, ids), bound)
  {
  }

  lemma StepKeepsOrdered(b: Box, op: Op)
    requires Ordered(b)
    ensures Ordered(Step(b, op))
  {
    match op
    case Write(_, _, _, _) => AppendIncreasing(b.messages, NewMessage(b, op));
    case WriteGroup(_, _, _) => AppendIncreasing(b.messages, NewMessage(b, op));
    case ReadUnread(team, agent) => FlaggedOrdered(b.messages, SetOf(Ids(Unread(b.messages, team, agent))), b.nextId);
    case PeekUnread(_, _) =>
    case MarkReadBatch(ids) => FlaggedOrdered(b.messages, SetOf(ids), b.nextId);
    case MarkAllRead(team, agents) => FlaggedOrdered(b.messages, SetOf(AllUnread(b.messages, team, agents)), b.nextId);
    case DeleteTeam(team) => OtherTeamsSorted(b.messages, team, b.nextId);
  }

  lemma {:induction false} IdsAreOrdered(ops: seq<Op>)
    ensures Ordered(After(ops))
  {
    if ops == [] {
    } else {
      IdsAreOrdered(ops[..|ops| - 1]);
      StepKeepsOrdered(After(ops[..|ops| - 1]), ops[|ops| - 1]);
    }
  }

  lemma UnreadWasIssued(b: Box, team: TeamId, agent: AgentId)
    requires Ordered(b)
    ensures forall id :: id in Ids(Unread(b.messages, team, agent)) ==> id < b.nextId
  {
    forall id | id in Ids(Unread(b.messages, team, agent))
      ensures id < b.nextId
    {
      var m := UnreadIdOf(b.messages, team, agent, id);
    }
  }

  /** Ids that were delivered or marked were issued. */
  lemma {:induction false} GoneWasIssued(ops: seq<Op>)
    ensures forall id :: id in Delivered(ops) || id in Marked(ops) ==> id < After(ops).nextId
  {
    if ops == [] {
    } else {
      var init, last := ops[..|ops| - 1], ops[|ops| - 1];
      GoneWasIssued(init);
      IdsAreOrdered(init);
      if last.ReadUnread? {
        var read := Ids(Unread(After(init).messages, last.team, last.agent));
        UnreadWasIssued(After(init), last.team, last.agent);
        BothBelow(Delivered(init), read, After(init).nextId);
        assert Delivered(ops) == Delivered(init) + read && After(ops).nextId == After(init).nextId;
      }
    }
  }

  lemma BothBelow(a: seq<MessageId>, b: seq<MessageId>, bound: MessageId)
    requires forall id :: id in a ==> id < bound
    requires forall id :: id in b ==> id < bound
    ensures forall id :: id in a + b ==> id < bound
  {
  }

  /** The store holds exactly what was written and not deleted, in order, and a message is read exactly when it was
    * written so, delivered, or marked. */
  lemma {:induction false} StoreIsWhatWasWritten(ops: seq<Op>)
    ensures After(ops).messages == Flagged(Written(ops), Gone(ops))
  {
    if ops == [] {
    } else {
      var init, last := ops[..|ops| - 1], ops[|ops| - 1];
      StoreIsWhatWasWritten(init);
      var b, w := After(init), Written(init);
      match last
      case Write(_, _, _, _) =>
        GoneWasIssued(init);
        IdsCountWrites(init);
        FlaggedAppend(w, NewMessage(b, last), Gone(init));
      case WriteGroup(_, _, _) =>
        GoneWasIssued(init);
        IdsCountWrites(init);
        FlaggedAppend(w, NewMessage(b, last), Gone(init));
      case DeleteTeam(team) => OtherTeamsFlagged(w, Gone(init), team);
      case PeekUnread(_, _) =>
      case ReadUnread(team, agent) => ReadFlags(b.messages, w, Delivered(init), Marked(init),
        Ids(Unread(b.messages, team, agent)));
      case MarkReadBatch(ids) => MarkFlags(b.messages, w, SetOf(Delivered(init)), Marked(init), SetOf(ids));
      case MarkAllRead(team, agents) =>
        MarkFlags(b.messages, w, SetOf(Delivered(init)), Marked(init), SetOf(AllUnread(b.messages, team, agents)));
    }
  }

  lemma FlaggedAppend(messages: seq<Message>, m: Message, ids: set<MessageId>)
    requires m.id !in ids
    ensures Flagged(messages, ids) + [m] == Flagged(messages + [m], ids)
  {
    assert (messages + [m])[..|messages|] == messages;
  }

  lemma ReadFlags(messages: seq<Message>, w: seq<Message>, delivered: seq<MessageId>, marked: set<MessageId>,
                  read: seq<MessageId>)
    requires messages == Flagged(w, SetOf(delivered) + marked)
    ensures Flagged(messages, SetOf(read)) == Flagged(w, SetOf(delivered + read) + marked)
  {
    FlaggedTwice(w, SetOf(delivered) + marked, SetOf(read));
    FlaggedAlike(w, SetOf(delivered) + marked + SetOf(read), SetOf(delivered + read) + marked);
  }

  lemma MarkFlags(messages: seq<Message>, w: seq<Message>, delivered: set<MessageId>, marked: set<MessageId>,
                  ids: set<MessageId>)
    requires messages == Flagged(w, delivered + marked)
    ensures Flagged(messages, ids) == Flagged(w, delivered + (marked + ids * SetOf(Ids(messages))))
  {
    FlaggedTwice(w, delivered + marked, ids);
    WrittenIsPresent(messages, w, delivered + marked);
    FlaggedAlike(w, delivered + marked + ids, delivered + (marked + ids * SetOf(Ids(messages))));
  }

  lemma WrittenIsPresent(messages: seq<Message>, w: seq<Message>, gone: set<MessageId>)
    requires messages == Flagged(w, gone)
    ensures forall i :: 0 <= i < |w| ==> w[i].id in SetOf(Ids(messages))
  {
    forall i | 0 <= i < |w|
      ensures w[i].id in SetOf(Ids(messages))
    {
      assert Ids(messages)[i] == w[i].id;
    }
  }

  /** The messages for an agent that were written unread and are not gone, in write order. */
  function Outstanding(written: seq<Message>, gone: set<MessageId>, team: TeamId, agent: AgentId): seq<Message> {
    if written == [] then []
    else
      var before, last := Outstanding(written[..|written| - 1], gone, team, agent), written[|written| - 1];
      if For(last, team, agent) && !last.read && last.id !in gone then before + [last] else before
  }

  lemma {:induction false} UnreadFlagged(written: seq<Message>, gone: set<MessageId>, team: TeamId, agent: AgentId)
    ensures Unread(Flagged(written, gone), team, agent) == Outstanding(written, gone, team, agent)
  {
    if written == [] {
    } else {
      var init := written[..|written| - 1];
      UnreadFlagged(init, gone, team, agent);
      assert Flagged(written, gone)[..|init|] == Flagged(init, gone);
    }
  }

  /** In every run the unread list of an agent is what was written to it less what was delivered or marked. */
  lemma UnreadIsWhatIsLeft(ops: seq<Op>, team: TeamId, agent: AgentId)
    ensures Unread(After(ops).messages, team, agent) == Outstanding(Written(ops), Gone(ops), team, agent)
  {
    StoreIsWhatWasWritten(ops);
    UnreadFlagged(Written(ops), Gone(ops), team, agent);
  }

  /** What is unread was neither delivered nor marked before. */
  lemma UnreadIsNotGone(ops: seq<Op>, team: TeamId, agent: AgentId)
    ensures forall id :: id in Ids(Unread(After(ops).messages, team, agent)) ==> id !in Gone(ops)
  {
    StoreIsWhatWasWritten(ops);
    forall id | id in Ids(Unread(After(ops).messages, team, agent))
      ensures id !in Gone(ops)
    {
      var m := UnreadIdOf(After(ops).messages, team, agent, id);
      var i :| 0 <= i < |After(ops).messages| && After(ops).messages[i] == m;
      assert m.id == Written(ops)[i].id;
    }
  }

  /** In every run no message is delivered twice, whoever reads and however often. */
  lemma {:induction false} DeliveredAtMostOnce(ops: seq<Op>)
    ensures NoRepeats(Delivered(ops))
  {
    if ops == [] {
    } else {
      var init, last := ops[..|ops| - 1], ops[|ops| - 1];
      DeliveredAtMostOnce(init);
      if last.ReadUnread? {
        IdsAreOrdered(init);
        UnreadIncreasing(After(init).messages, last.team, last.agent, After(init).nextId);
        IncreasingIdsDiffer(Unread(After(init).messages, last.team, last.agent));
        UnreadIsNotGone(init, last.team, last.agent);
        NoRepeatsAppend(Delivered(init), Ids(Unread(After(init).messages, last.team, last.agent)));
      }
    }
  }

  lemma NoRepeatsAppend(a: seq<MessageId>, b: seq<MessageId>)
    requires NoRepeats(a) && NoRepeats(b) && forall id :: id in b ==> id !in a
    ensures NoRepeats(a + b)
  {
    forall i, j | 0 <= i < j < |a + b|
      ensures (a + b)[i] != (a + b)[j]
    {
      assert i < |a| <= j ==> b[j - |a|] in b;
    }
  }

  /** The ids under which group messages were written. */
  function GroupIds(ops: seq<Op>): set<MessageId> {
    if ops == [] then {}
    else
      var init, last := ops[..|ops| - 1], ops[|ops| - 1];
      if last.WriteGroup? then GroupIds(init) + {After(init).nextId} else GroupIds(init)
  }

  ghost predicate ReadIn(messages: seq<Message>, ids: set<MessageId>) {
    forall m :: m in messages && m.id in ids ==> m.read
  }

  lemma FlaggedStaysRead(messages: seq<Message>, gone: set<MessageId>, ids: set<MessageId>)
    requires ReadIn(messages, ids)
    ensures ReadIn(Flagged(messages, gone), ids)
  {
    forall m | m in Flagged(messages, gone) && m.id in ids
      ensures m.read
    {
      var i :| 0 <= i < |messages| && Flagged(messages, gone)[i] == m;
      assert messages[i] in messages;
    }
  }

  lemma StepKeepsRead(b: Box, op: Op, ids: set<MessageId>)
    requires ReadIn(b.messages, ids) && (op.Write? ==> b.nextId !in ids)
    ensures ReadIn(Step(b, op).messages, ids)
  {
    match op
    case DeleteTeam(team) => OtherTeamsMembers(b.messages, team);
    case ReadUnread(team, agent) => FlaggedStaysRead(b.messages, SetOf(Ids(Unread(b.messages, team, agent))), ids);
    case MarkReadBatch(read) => FlaggedStaysRead(b.messages, SetOf(read), ids);
    case MarkAllRead(team, agents) => FlaggedStaysRead(b.messages, SetOf(AllUnread(b.messages, team, agents)), ids);
    case _ =>
  }

  lemma {:induction false} GroupIdsWereIssued(ops: seq<Op>)
    ensures forall id :: id in GroupIds(ops) ==> id < After(ops).nextId
  {
    if ops == [] {
    } else {
      GroupIdsWereIssued(ops[..|ops| - 1]);
    }
  }

  /** A message of the group chat stays read. */
  lemma {:induction false} GroupMessagesAreRead(ops: seq<Op>)
    ensures ReadIn(After(ops).messages, GroupIds(ops))
  {
    if ops == [] {
    } else {
      var init, last := ops[..|ops| - 1], ops[|ops| - 1];
      GroupMessagesAreRead(init);
      GroupIdsWereIssued(init);
      IdsAreOrdered(init);
      if last.WriteGroup? {
        OnlyTheNewest(After(init), GroupIds(init), NewMessage(After(init), last));
      } else {
        StepKeepsRead(After(init), last, GroupIds(init));
      }
    }
  }

  lemma OnlyTheNewest(b: Box, ids: set<MessageId>, m: Message)
    requires Ordered(b) && ReadIn(b.messages, ids) && m.read && m.id == b.nextId
    ensures ReadIn(b.messages + [m], ids + {m.id})
  {
  }

  /** Group messages are written as read, so no run ever delivers one, not even to a reader of the group address. */
  lemma {:induction false} GroupMessagesAreNeverDelivered(ops: seq<Op>)
    ensures forall id :: id in Delivered(ops) ==> id !in GroupIds(ops)
  {
    if ops == [] {
    } else {
      var init, last := ops[..|ops| - 1], ops[|ops| - 1];
      GroupMessagesAreNeverDelivered(init);
      GroupMessagesAreRead(init);
      GoneWasIssued(init);
      if last.ReadUnread? {
        forall id | id in Ids(Unread(After(init).messages, last.team, last.agent))
          ensures id !in GroupIds(init)
        {
          var m := UnreadIdOf(After(init).messages, last.team, last.agent, id);
        }
      }
    }
  }

  lemma {:induction false} HistoryFlagged(written: seq<Message>, gone: set<MessageId>, team: TeamId, agent: AgentId)
    ensures History(Flagged(written, gone), team, agent) == Flagged(History(written, team, agent), gone)
  {
    if written == [] {
    } else {
      var init := written[..|written| - 1];
      HistoryFlagged(init, gone, team, agent);
      assert Flagged(written, gone)[..|init|] == Flagged(init, gone);
    }
  }

  /** History keeps every message of an agent in write order, delivered or not, and changes nothing but the flag. */
  lemma HistoryKeepsEverything(ops: seq<Op>, team: TeamId, agent: AgentId)
    ensures History(After(ops).messages, team, agent) == Flagged(History(Written(ops), team, agent), Gone(ops))
  {
    StoreIsWhatWasWritten(ops);
    HistoryFlagged(Written(ops), Gone(ops), team, agent);
  }

  /** Every message of the store that was written unread is delivered, marked, or still waiting for its reader. */
  lemma NoMessageIsLost(ops: seq<Op>, m: Message)
    requires m in Written(ops) && !m.read
    ensures m.id in Delivered(ops) || m.id in Marked(ops) || m in Unread(After(ops).messages, m.team, m.to)
  {
    StoreIsWhatWasWritten(ops);
    UnreadMembers(After(ops).messages, m.team, m.to);
    var i :| 0 <= i < |Written(ops)| && Written(ops)[i] == m;
    assert After(ops).messages[i] in After(ops).messages;
  }

  /** Marking what was peeked leaves every message as it is that arrived since, whatever else happened in between. */
  lemma MarkingPeekedSparesArrivals(before: seq<Op>, between: seq<Op>, team: TeamId, agent: AgentId, m: Message)
    requires m in After(before + between).messages && m.id >= After(before).nextId
    ensures var peeked := Ids(Unread(After(before).messages, team, agent));
      m in Step(After(before + between), MarkReadBatch(peeked)).messages
  {
    var b := After(before);
    var peeked := Ids(Unread(b.messages, team, agent));
    IdsAreOrdered(before);
    UnreadWasIssued(b, team, agent);
    var c := After(before + between);
    var i :| 0 <= i < |c.messages| && c.messages[i] == m;
    assert Flagged(c.messages, SetOf(peeked))[i] == m;
  }
}
