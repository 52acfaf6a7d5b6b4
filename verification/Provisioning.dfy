/** Building a team's first roster, and the writers of the roster as they run alone. */
module Provisioning {
  import opened Roles
  import opened Roster
  import opened Wrappers

  /** One requested agent; the role is the text of the request without surrounding blanks. */
  datatype Input = Input(role: string, name: Name)

  function ParseRole(s: string): (role: Option<Role>)
    ensures role == Some(Lead) <==> s in {"lead", "leader"}
    ensures role.None? <==> s !in {"lead", "leader", "teammate"}
  {
    if s == "lead" || s == "leader" then Some(Lead)
    else if s == "teammate" then Some(Teammate)
    else None
  }

  datatype Error = NoAgents | InvalidRole(role: string) | NotOneLead | ConversationFailed

  datatype Result = Provisioned(agents: Members, lead: SlotId) | Refused(error: Error)

  // ---- Specification ----

  /** The conversation service's answer to each input: the new conversation, or none when it fails. */
  type Conversations = seq<Option<ConversationId>>

  predicate IsTeammate(input: Input) {
    ParseRole(input.role) == Some(Teammate)
  }

  /** The teammates among the inputs, in order, with the slots from `first` on. */
  function Teammates(inputs: seq<Input>, conversations: Conversations, first: SlotId): (r: Members)
    requires |conversations| == |inputs| && forall i :: 0 <= i < |conversations| ==> conversations[i].Some?
    ensures forall k :: 0 <= k < |r| ==> r[k].slot == first + k && r[k].role == Teammate
  {
    if inputs == [] then []
    else
      var n := |inputs| - 1;
      var before := Teammates(inputs[..n], conversations[..n], first);
      if IsTeammate(inputs[n])
      then before + [Agent(first + |before|, inputs[n].name, Teammate, conversations[n].value, None)]
      else before
  }

  predicate AllRolesParse(inputs: seq<Input>) {
    forall i :: 0 <= i < |inputs| ==> ParseRole(inputs[i].role).Some?
  }

  /** The places of the inputs with the role of lead. */
  function LeadIndices(inputs: seq<Input>): (r: seq<nat>)
    ensures forall k :: 0 <= k < |r| ==> r[k] < |inputs| && ParseRole(inputs[r[k]].role) == Some(Lead)
  {
    if inputs == [] then []
    else
      var n := |inputs| - 1;
      var before := LeadIndices(inputs[..n]);
      if ParseRole(inputs[n].role) == Some(Lead) then before + [n] else before
  }

  predicate ConversationsMade(conversations: Conversations) {
    forall i :: 0 <= i < |conversations| ==> conversations[i].Some?
  }

  /** A request that can be met: not empty, every role known, exactly one lead. */
  predicate Sensible(inputs: seq<Input>) {
    inputs != [] && AllRolesParse(inputs) && |LeadIndices(inputs)| == 1
  }

  lemma {:induction false} LeadIndicesComplete(inputs: seq<Input>)
    ensures forall i :: 0 <= i < |inputs| && ParseRole(inputs[i].role) == Some(Lead) ==> i in LeadIndices(inputs)
    ensures forall j, k :: 0 <= j < k < |LeadIndices(inputs)| ==> LeadIndices(inputs)[j] < LeadIndices(inputs)[k]
  {
    if inputs == [] {
    } else {
      LeadIndicesComplete(inputs[..|inputs| - 1]);
    }
  }

  /** This input asks for the lead, and no other does. */
  predicate OnlyLead(inputs: seq<Input>, i: nat)
    requires i < |inputs|
  {
    forall j :: 0 <= j < |inputs| ==> (ParseRole(inputs[j].role) == Some(Lead) <==> j == i)
  }

  lemma FirstTwoDiffer(leads: seq<nat>)
    requires |leads| > 1 && forall j, k :: 0 <= j < k < |leads| ==> leads[j] < leads[k]
    ensures leads[0] != leads[1]
  {
  }

  /** The list of leads has one entry exactly when one input and no other asks for the lead. */
  lemma OneLeadIff(inputs: seq<Input>)
    ensures |LeadIndices(inputs)| == 1 <==> exists i :: 0 <= i < |inputs| && OnlyLead(inputs, i)
  {
    var leads := LeadIndices(inputs);
    LeadIndicesComplete(inputs);
    if |leads| == 1 {
      assert OnlyLead(inputs, leads[0]);
    }
    if i :| 0 <= i < |inputs| && OnlyLead(inputs, i) {
      assert i in leads;
      if |leads| > 1 {
        FirstTwoDiffer(leads);
      }
    }
  }

  lemma {:induction false} TeammatesAndLeads(inputs: seq<Input>, conversations: Conversations, first: SlotId)
    requires |conversations| == |inputs| && ConversationsMade(conversations) && AllRolesParse(inputs)
    ensures |Teammates(inputs, conversations, first)| + |LeadIndices(inputs)| == |inputs|
  {
    if inputs == [] {
    } else {
      TeammatesAndLeads(inputs[..|inputs| - 1], conversations[..|inputs| - 1], first);
    }
  }

  /** The first roster of a team is one that every writer keeps good. */
  lemma LeadAndTeammatesAreGood(lead: Agent, inputs: seq<Input>, conversations: Conversations)
    requires |conversations| == |inputs| && ConversationsMade(conversations) && lead.role == Lead
    ensures var members := [lead] + Teammates(inputs, conversations, lead.slot + 1);
      FirstRoster(members, lead.slot, lead.slot + |members|)
  {
    var members := [lead] + Teammates(inputs, conversations, lead.slot + 1);
    assert members[0].slot == lead.slot;
    assert forall i :: 0 < i < |members| ==> members[i].slot == lead.slot + i && members[i].role == Teammate;
  }

  lemma WithoutBelow(members: Members, slot: SlotId, bound: SlotId)
    requires forall i :: 0 <= i < |members| ==> members[i].slot < bound
    ensures forall i :: 0 <= i < |Without(members, slot)| ==> Without(members, slot)[i].slot < bound
  {
    WithoutMembers(members, slot);
    assert forall i :: 0 <= i < |Without(members, slot)| ==> Without(members, slot)[i] in Without(members, slot);
  }

  // ---- The operations ----

  /** Input `k` is the first whose role is not known ... */
  predicate FirstUnknownAt(inputs: seq<Input>, k: nat) {
    && k < |inputs| && ParseRole(inputs[k].role).None?
    && forall j :: 0 <= j < k ==> ParseRole(inputs[j].role).Some?
  }

  /** ... and this is its role. */
  ghost predicate FirstUnknown(inputs: seq<Input>, role: string) {
    exists k: nat :: FirstUnknownAt(inputs, k) && inputs[k].role == role
  }

  /** Parses every role in turn; the leads, or the first role that is not known. */
  method CollectLeads(inputs: seq<Input>) returns (leads: seq<nat>, unknown: Option<string>)
    ensures unknown.None? <==> AllRolesParse(inputs)
    ensures unknown.None? ==> leads == LeadIndices(inputs)
    ensures unknown.Some? ==> FirstUnknown(inputs, unknown.value)
  {
    leads := [];
    for k := 0 to |inputs|
      invariant forall i :: 0 <= i < k ==> ParseRole(inputs[i].role).Some?
      invariant leads == LeadIndices(inputs[..k])
    {
      assert inputs[..k + 1][..k] == inputs[..k];
      var role := ParseRole(inputs[k].role);
      if role == None {
        assert FirstUnknownAt(inputs, k);
        return leads, Some(inputs[k].role);
      }
      if role == Some(Lead) {
        leads := leads + [k];
      }
    }
    assert inputs[..|inputs|] == inputs;
    unknown := None;
  }

  /** Adds the teammates behind the lead, until a conversation cannot be made. */
  method AddTeammates(lead: Agent, inputs: seq<Input>, conversations: Conversations) returns (agents: Members, ok: bool)
    requires |conversations| == |inputs|
    ensures ok <==> forall k :: 0 <= k < |inputs| && IsTeammate(inputs[k]) ==> conversations[k].Some?
    ensures ok && ConversationsMade(conversations) ==>
      agents == [lead] + Teammates(inputs, conversations, lead.slot + 1)
  {
    agents := [lead];
    for k := 0 to |inputs|
      invariant |agents| > 0
      invariant forall j :: 0 <= j < k && IsTeammate(inputs[j]) ==> conversations[j].Some?
      invariant ConversationsMade(conversations) ==>
        agents == [lead] + Teammates(inputs[..k], conversations[..k], lead.slot + 1)
    {
      assert inputs[..k + 1][..k] == inputs[..k] && conversations[..k + 1][..k] == conversations[..k];
      if IsTeammate(inputs[k]) {
        if conversations[k] == None {
          return agents, false;
        }
        agents := agents + [Agent(lead.slot + |agents|, inputs[k].name, Teammate, conversations[k].value, None)];
      }
    }
    assert inputs[..|inputs|] == inputs && conversations[..|conversations|] == conversations;
    ok := true;
  }

  /** The agent that leads the team, by the first of the inputs that ask for it. */
  function LeadAgent(inputs: seq<Input>, conversations: Conversations, slot: SlotId): Agent
    requires |conversations| == |inputs| && ConversationsMade(conversations) && LeadIndices(inputs) != []
  {
    var i := LeadIndices(inputs)[0];
    Agent(slot, inputs[i].name, Lead, conversations[i].value, None)
  }

  method ProvisionInitialAgents(inputs: seq<Input>, conversations: Conversations, first: SlotId)
      returns (result: Result)
    requires |conversations| == |inputs|
    ensures result.Provisioned? <==> Sensible(inputs) && ConversationsMade(conversations)
    ensures result.Provisioned? ==>
      && result.agents == [LeadAgent(inputs, conversations, first)] + Teammates(inputs, conversations, first + 1)
      && result.lead == first && FirstRoster(result.agents, first, first + |inputs|)
      && |result.agents| == |inputs|
    ensures result == Refused(NoAgents) <==> inputs == []
    ensures result.Refused? && result.error.InvalidRole? <==> !AllRolesParse(inputs)
    ensures result.Refused? && result.error.InvalidRole? ==> FirstUnknown(inputs, result.error.role)
    ensures result == Refused(NotOneLead) <==> inputs != [] && AllRolesParse(inputs) && |LeadIndices(inputs)| != 1
  {
    if inputs == [] {
      return Refused(NoAgents);
    }
    var leads, unknown := CollectLeads(inputs);
    if unknown.Some? {
      return Refused(InvalidRole(unknown.value));
    }
    if |leads| != 1 {
      return Refused(NotOneLead);
    }
    var i := leads[0];
    if conversations[i] == None {
      return Refused(ConversationFailed);
    }
    var lead := Agent(first, inputs[i].name, Lead, conversations[i].value, None);
    var agents, ok := AddTeammates(lead, inputs, conversations);
    if !ok {
      return Refused(ConversationFailed);
    }
    LeadOrTeammate(inputs, i);
    TeammatesAndLeads(inputs, conversations, first + 1);
    LeadAndTeammatesAreGood(lead, inputs, conversations);
    result := Provisioned(agents, first);
  }

  lemma LeadOrTeammate(inputs: seq<Input>, i: nat)
    requires AllRolesParse(inputs) && LeadIndices(inputs) == [i]
    ensures forall k :: 0 <= k < |inputs| ==> k == i || IsTeammate(inputs[k])
  {
    LeadIndicesComplete(inputs);
    forall k | 0 <= k < |inputs|
      ensures k == i || IsTeammate(inputs[k])
    {
      assert ParseRole(inputs[k].role) == Some(Lead) ==> k in LeadIndices(inputs);
    }
  }

  /** The place in the roster of the agent for input `i`, when input `p` asks for the lead. */
  function Place(i: nat, p: nat): nat {
    if i == p then 0 else if i < p then i + 1 else i
  }

  lemma {:induction false} TeammateOf(inputs: seq<Input>, conversations: Conversations, first: SlotId, p: nat, i: nat)
    requires |conversations| == |inputs| && ConversationsMade(conversations) && AllRolesParse(inputs)
    requires forall j :: 0 <= j < |inputs| ==> (ParseRole(inputs[j].role) == Some(Lead) <==> j == p)
    requires i < |inputs| && i != p
    ensures |Teammates(inputs, conversations, first)| == if p < |inputs| then |inputs| - 1 else |inputs|
    ensures Teammates(inputs, conversations, first)[Place(i, p) - 1] ==
      Agent(first + Place(i, p) - 1, inputs[i].name, Teammate, conversations[i].value, None)
  {
    var n := |inputs| - 1;
    TeammatesCount(inputs[..n], conversations[..n], first, p);
    if i < n {
      TeammateOf(inputs[..n], conversations[..n], first, p, i);
    }
  }

  lemma {:induction false} TeammatesCount(inputs: seq<Input>, conversations: Conversations, first: SlotId, p: nat)
    requires |conversations| == |inputs| && ConversationsMade(conversations) && AllRolesParse(inputs)
    requires forall j :: 0 <= j < |inputs| ==> (ParseRole(inputs[j].role) == Some(Lead) <==> j == p)
    ensures |Teammates(inputs, conversations, first)| == if p < |inputs| then |inputs| - 1 else |inputs|
  {
    if inputs == [] {
    } else {
      TeammatesCount(inputs[..|inputs| - 1], conversations[..|inputs| - 1], first, p);
    }
  }

  /** The roster of a request that can be met has one agent for each input, with its name and its conversation, no
    * preview, and consecutive slots: the lead first, the others in the order of the request. */
  lemma AgentsAreAsRequested(inputs: seq<Input>, conversations: Conversations, first: SlotId, p: nat, i: nat)
    requires |conversations| == |inputs| && ConversationsMade(conversations) && AllRolesParse(inputs)
    requires p < |inputs| && OnlyLead(inputs, p) && i < |inputs| && LeadIndices(inputs) != []
    ensures var agents := [LeadAgent(inputs, conversations, first)] + Teammates(inputs, conversations, first + 1);
      && |agents| == |inputs| && Place(i, p) < |agents|
      && var a := agents[Place(i, p)];
         && a.slot == first + Place(i, p) && a.name == inputs[i].name && a.conversation == conversations[i].value
         && a.role == (if i == p then Lead else Teammate) && a.lastMessage == None
  {
    LeadIndicesComplete(inputs);
    assert ParseRole(inputs[LeadIndices(inputs)[0]].role) == Some(Lead);
    TeammatesCount(inputs, conversations, first + 1, p);
    if i != p {
      TeammateOf(inputs, conversations, first + 1, p, i);
    }
  }

  /** The stored team, and the writers that change it in one go. */
  class TeamRecord {
    var agents: Members
    const lead: SlotId
    /** The source of fresh slot ids. */
    var nextSlot: SlotId

    ghost predicate Valid()
      reads this
    {
      FirstRoster(agents, lead, nextSlot)
    }

    constructor (agents: Members, lead: SlotId, nextSlot: SlotId)
      requires FirstRoster(agents, lead, nextSlot)
      ensures Valid() && this.agents == agents && this.lead == lead && this.nextSlot == nextSlot
    {
      this.agents, this.lead, this.nextSlot := agents, lead, nextSlot;
    }

    method Find(slot: SlotId) returns (i: nat)
      ensures i == Position(agents, slot)
    {
      i := 0;
      while i < |agents| && agents[i].slot != slot
        invariant i <= |agents|
        invariant forall j :: 0 <= j < i ==> agents[j].slot != slot
      {
        i := i + 1;
      }
    }

    method Add(role: string, name: Name, conversation: ConversationId) returns (ok: bool)
      requires Valid()
      modifies this
      ensures Valid()
      ensures var job := AddAgent(ParseRole(role), name, conversation);
        && ok == Accepted(job, old(agents))
        && agents == if ok then Changed(job, old(nextSlot), old(agents)) else old(agents)
    {
      if ParseRole(role) != Some(Teammate) {
        return false;
      }
      ChangesKeepGood(AddAgent(Some(Teammate), name, conversation), nextSlot, agents, lead);
      agents := agents + [Agent(nextSlot, name, Teammate, conversation, None)];
      nextSlot := nextSlot + 1;
      ok := true;
    }

    method Remove(slot: SlotId) returns (ok: bool)
      requires Valid()
      modifies this`agents
      ensures Valid()
      ensures var job := RemoveAgent(slot);
        && ok == Accepted(job, old(agents))
        && agents == if ok then Changed(job, nextSlot, old(agents)) else old(agents)
    {
      var i := Find(slot);
      if i == |agents| || agents[i].role == Lead {
        return false;
      }
      ChangesKeepGood(RemoveAgent(slot), nextSlot, agents, lead);
      WithoutBelow(agents, slot, nextSlot);
      var kept: Members := [];
      for k := 0 to |agents|
        invariant agents == old(agents)
        invariant kept == Without(agents[..k], slot)
      {
        assert agents[..k + 1][..k] == agents[..k];
        if agents[k].slot != slot {
          kept := kept + [agents[k]];
        }
      }
      assert agents[..|agents|] == agents;
      agents := kept;
      ok := true;
    }

    method Rename(slot: SlotId, name: Name) returns (ok: bool)
      requires Valid()
      modifies this`agents
      ensures Valid()
      ensures var job := RenameAgent(slot, name);
        && ok == Accepted(job, old(agents))
        && agents == if ok then Changed(job, nextSlot, old(agents)) else old(agents)
    {
      if name.normalized == "" {
        return false;
      }
      for k := 0 to |agents|
        invariant agents == old(agents)
        invariant forall j :: 0 <= j < k ==> !(agents[j].slot != slot && agents[j].name.normalized == name.normalized)
      {
        if agents[k].slot != slot && agents[k].name.normalized == name.normalized {
          return false;
        }
      }
      var i := Find(slot);
      if i == |agents| {
        return false;
      }
      ChangesKeepGood(RenameAgent(slot, name), nextSlot, agents, lead);
      agents := agents[i := agents[i].(name := name)];
      ok := true;
    }

    /** Does nothing for a slot that is gone. */
    method PersistLastMessage(slot: SlotId, text: string, at: int) returns (saved: bool)
      requires Valid()
      modifies this`agents
      ensures Valid()
      ensures var job := SaveMessage(slot, text, at);
        && saved == Accepted(job, old(agents))
        && agents == if saved then Changed(job, nextSlot, old(agents)) else old(agents)
    {
      var i := Find(slot);
      saved := i < |agents|;
      if saved {
        ChangesKeepGood(SaveMessage(slot, text, at), nextSlot, agents, lead);
        agents := agents[i := agents[i].(lastMessage := Some(Preview(Truncate(text), at)))];
      }
    }
  }
}
