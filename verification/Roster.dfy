/** A team's roster: how it is first built, and what concurrent writers may make of it.
  *
  * Every writer reads the stored roster, changes its copy, and writes the copy back. The membership locks order most of
  * the writers, but the last-message writer takes none, and the locks themselves can be replaced; here no lock is
  * assumed at all, and any writer may stop for good at any point. Slot ids are fresh numbers.
  */
module Roster {
  import opened Roles
  import opened Wrappers

  type SlotId = nat
  type ConversationId = nat

  /** A name and its normalised form, which is what names are compared by. */
  datatype Name = Name(text: string, normalized: string)

  /** The preview of an agent's latest reply, and when it was stored. */
  datatype Preview = Preview(text: string, at: int)

  datatype Agent = Agent(slot: SlotId, name: Name, role: Role, conversation: ConversationId,
    lastMessage: Option<Preview>)

  type Members = seq<Agent>

  // ---- Well-formed rosters ----

  /** The first agent with this slot; the length of the roster when there is none. */
  function Position(members: Members, slot: SlotId): (i: nat)
    ensures i <= |members|
    ensures i < |members| ==> members[i].slot == slot
    ensures forall j :: 0 <= j < i ==> members[j].slot != slot
  {
    if members == [] || members[0].slot == slot then 0 else 1 + Position(members[1..], slot)
  }

  predicate Has(members: Members, slot: SlotId) {
    Position(members, slot) < |members|
  }

  ghost predicate UniqueSlots(members: Members) {
    forall i, j :: 0 <= i < j < |members| ==> members[i].slot != members[j].slot
  }

  /** Slots are unique, and the lead id names the one agent with the role of lead. */
  ghost predicate Good(members: Members, lead: SlotId) {
    && UniqueSlots(members)
    && Has(members, lead)
    && forall i :: 0 <= i < |members| ==> (members[i].role == Lead <==> members[i].slot == lead)
  }

  lemma GoodMeansOneLead(members: Members, lead: SlotId)
    requires UniqueSlots(members)
    ensures Good(members, lead) <==>
      exists i :: 0 <= i < |members| && members[i].slot == lead && members[i].role == Lead
                  && forall j :: 0 <= j < |members| && members[j].role == Lead ==> j == i
  {
    if Good(members, lead) {
      var i := Position(members, lead);
      assert members[i].slot == lead && members[i].role == Lead;
    }
  }

  // ---- Changes to a copy of the roster ----

  function Without(members: Members, slot: SlotId): Members {
    if members == [] then []
    else
      var before, last := Without(members[..|members| - 1], slot), members[|members| - 1];
      if last.slot == slot then before else before + [last]
  }

  const MAX_PREVIEW: nat := 500

  /** A preview keeps the first characters of a reply. */
  function Truncate(text: string): string {
    if |text| > MAX_PREVIEW then text[..MAX_PREVIEW] else text
  }

  /** What a writer is about to do; the requested role of an addition is absent when it cannot be parsed. */
  datatype Job =
    | AddAgent(requested: Option<Role>, name: Name, conversation: ConversationId)
    | RemoveAgent(slot: SlotId)
    | RenameAgent(slot: SlotId, name: Name)
    | SaveMessage(slot: SlotId, text: string, at: int)

  predicate NameTaken(members: Members, slot: SlotId, name: Name) {
    exists i :: 0 <= i < |members| && members[i].slot != slot && members[i].name.normalized == name.normalized
  }

  /** The checks that a writer makes on the roster it reads. */
  predicate Accepted(job: Job, members: Members) {
    match job
    case AddAgent(requested, _, _) => requested == Some(Teammate)
    case RemoveAgent(slot) => Has(members, slot) && members[Position(members, slot)].role != Lead
    case RenameAgent(slot, name) => name.normalized != "" && !NameTaken(members, slot, name) && Has(members, slot)
    case SaveMessage(slot, _, _) => Has(members, slot)
  }

  /** The copy that is written back; `newSlot` is the slot of an added agent. */
  function Changed(job: Job, newSlot: SlotId, members: Members): Members {
    match job
    case AddAgent(_, name, conversation) => members + [Agent(newSlot, name, Teammate, conversation, None)]
    case RemoveAgent(slot) => Without(members, slot)
    case RenameAgent(slot, name) =>
      var i := Position(members, slot);
      if i < |members| then members[i := members[i].(name := name)] else members
    case SaveMessage(slot, text, at) =>
      var i := Position(members, slot);
      if i < |members| then members[i := members[i].(lastMessage := Some(Preview(Truncate(text), at)))] else members
  }

  lemma {:induction false} WithoutMembers(members: Members, slot: SlotId)
    ensures forall x :: x in Without(members, slot) <==> x in members && x.slot != slot
  {
    if members == [] {
    } else {
      WithoutMembers(members[..|members| - 1], slot);
      assert members == members[..|members| - 1] + [members[|members| - 1]];
    }
  }

  lemma WithoutHas(members: Members, slot: SlotId)
    ensures !Has(Without(members, slot), slot)
  {
    WithoutMembers(members, slot);
    var rest := Without(members, slot);
    assert forall i :: 0 <= i < |rest| ==> rest[i] in rest;
  }

  lemma AppendUnique(members: Members, a: Agent)
    requires UniqueSlots(members) && forall i :: 0 <= i < |members| ==> members[i].slot != a.slot
    ensures UniqueSlots(members + [a])
  {
  }

  lemma {:induction false} WithoutUnique(members: Members, slot: SlotId)
    requires UniqueSlots(members)
    ensures UniqueSlots(Without(members, slot))
  {
    if members == [] {
    } else {
      var init, last := members[..|members| - 1], members[|members| - 1];
      WithoutUnique(init, slot);
      WithoutMembers(init, slot);
      var before := Without(init, slot);
      forall k | 0 <= k < |before|
        ensures before[k].slot != last.slot
      {
        assert before[k] in before;
      }
      if last.slot != slot {
        AppendUnique(before, last);
      }
    }
  }

  lemma RemovalKeepsGood(members: Members, slot: SlotId, lead: SlotId)
    requires Good(members, lead) && slot != lead
    ensures Good(Without(members, slot), lead)
    ensures forall i :: 0 <= i < |Without(members, slot)| ==> Has(members, Without(members, slot)[i].slot)
  {
    WithoutMembers(members, slot);
    WithoutUnique(members, slot);
    var rest := Without(members, slot);
    assert members[Position(members, lead)] in rest;
    forall i | 0 <= i < |rest|
      ensures rest[i] in members && Has(members, rest[i].slot) && (rest[i].role == Lead <==> rest[i].slot == lead)
    {
      assert rest[i] in rest;
      var k :| 0 <= k < |members| && members[k] == rest[i];
    }
  }

  /** A change to a good roster is good, if it adds a fresh slot and does not remove the lead. */
  lemma ChangesKeepGood(job: Job, newSlot: SlotId, members: Members, lead: SlotId)
    requires Good(members, lead)
    requires job.AddAgent? ==> !Has(members, newSlot)
    requires job.RemoveAgent? ==> job.slot != lead
    ensures Good(Changed(job, newSlot, members), lead)
    ensures forall i :: 0 <= i < |Changed(job, newSlot, members)| ==>
      Has(members, Changed(job, newSlot, members)[i].slot) ||
        (job.AddAgent? && Changed(job, newSlot, members)[i].slot == newSlot)
  {
    var after := Changed(job, newSlot, members);
    var i := Position(members, lead);
    match job
    case RemoveAgent(slot) =>
      RemovalKeepsGood(members, slot, lead);
    case AddAgent(_, _, _) =>
      assert after[i] == members[i];
    case RenameAgent(_, _) =>
      assert after[i].slot == lead;
    case SaveMessage(_, _, _) =>
      assert after[i].slot == lead;
  }

  // ---- Writers ----

  /** A removal checks the role first and loads the roster again later; the others load and check at once. */
  datatype Pc = Begin | Checked | Loaded(version: nat) | Done(ok: bool)

  datatype Writer = Writer(job: Job, newSlot: SlotId, pc: Pc)

  /** All rosters ever stored, the last one being current. */
  datatype World = World(history: seq<Members>, lead: SlotId, writers: seq<Writer>, nextSlot: SlotId)

  datatype Step = StartWriter(job: Job) | Advance(writer: nat)

  function Current(w: World): Members
    requires w.history != []
  {
    w.history[|w.history| - 1]
  }

  function ToPc(w: World, k: nat, pc: Pc): World
    requires k < |w.writers|
  {
    w.(writers := w.writers[k := w.writers[k].(pc := pc)])
  }

  function Advanced(w: World, k: nat): World
    requires w.history != [] && k < |w.writers|
  {
    var writer := w.writers[k];
    var now := |w.history| - 1;
    match writer.pc
    case Begin =>
      if !Accepted(writer.job, Current(w)) then ToPc(w, k, Done(false))
      else if writer.job.RemoveAgent? then ToPc(w, k, Checked)
      else ToPc(w, k, Loaded(now))
    case Checked => ToPc(w, k, Loaded(now))
    case Loaded(v) =>
      if v < |w.history|
      then ToPc(w, k, Done(true)).(history := w.history + [Changed(writer.job, writer.newSlot, w.history[v])])
      else w
    case Done(_) => w
  }

  function Next(w: World, s: Step): World
    requires w.history != []
  {
    match s
    case StartWriter(job) => w.(writers := w.writers + [Writer(job, w.nextSlot, Begin)], nextSlot := w.nextSlot + 1)
    case Advance(k) => if k < |w.writers| then Advanced(w, k) else w
  }

  function Execute(w: World, steps: seq<Step>): (r: World)
    requires w.history != []
    ensures r.history != []
  {
    if steps == [] then w else Next(Execute(w, steps[..|steps| - 1]), steps[|steps| - 1])
  }

  // ---- The invariant ----

  ghost predicate StoredGood(w: World) {
    && w.history != []
    && (forall v :: 0 <= v < |w.history| ==> Good(w.history[v], w.lead))
    && (forall v, i :: 0 <= v < |w.history| && 0 <= i < |w.history[v]| ==> w.history[v][i].slot < w.nextSlot)
  }

  /** What is known of a writer between its steps. */
  ghost predicate WriterIsSound(w: World, k: nat)
    requires k < |w.writers|
  {
    var x := w.writers[k];
    && x.newSlot < w.nextSlot
    && (x.pc.Loaded? ==> x.pc.version < |w.history|)
    && (x.job.RemoveAgent? && (x.pc.Checked? || x.pc.Loaded?) ==> x.job.slot != w.lead)
    && (x.job.AddAgent? && !x.pc.Done? ==> forall v :: 0 <= v < |w.history| ==> !Has(w.history[v], x.newSlot))
  }

  ghost predicate Sound(w: World) {
    && StoredGood(w)
    && (forall k :: 0 <= k < |w.writers| ==> WriterIsSound(w, k))
    && (forall j, k :: 0 <= j < k < |w.writers| ==> w.writers[j].newSlot != w.writers[k].newSlot)
  }

  lemma StartKeepsSound(w: World, job: Job)
    requires Sound(w)
    ensures Sound(Next(w, StartWriter(job)))
  {
    var t := Next(w, StartWriter(job));
    forall k | 0 <= k < |t.writers|
      ensures WriterIsSound(t, k)
    {
      assert k < |w.writers| ==> WriterIsSound(w, k);
    }
    forall j, k | 0 <= j < k < |t.writers|
      ensures t.writers[j].newSlot != t.writers[k].newSlot
    {
      assert WriterIsSound(w, j);
    }
  }

  /** A writer that reads: only its own place changes. */
  lemma ReadKeepsSound(w: World, k: nat)
    requires Sound(w) && k < |w.writers| && !w.writers[k].pc.Loaded?
    ensures Sound(Advanced(w, k))
  {
    var t := Advanced(w, k);
    assert WriterIsSound(w, k);
    forall j | 0 <= j < |t.writers|
      ensures WriterIsSound(t, j)
    {
      assert WriterIsSound(w, j);
    }
  }

  lemma WriteKeepsStored(w: World, k: nat)
    requires Sound(w) && k < |w.writers| && w.writers[k].pc.Loaded?
    ensures StoredGood(Advanced(w, k))
  {
    var x := w.writers[k];
    assert WriterIsSound(w, k);
    var members := w.history[x.pc.version];
    ChangesKeepGood(x.job, x.newSlot, members, w.lead);
    var after := Changed(x.job, x.newSlot, members);
    forall i | 0 <= i < |after|
      ensures after[i].slot < w.nextSlot
    {
      if Has(members, after[i].slot) {
        assert members[Position(members, after[i].slot)].slot == after[i].slot;
      }
    }
  }

  lemma WriteKeepsSound(w: World, k: nat)
    requires Sound(w) && k < |w.writers| && w.writers[k].pc.Loaded?
    ensures Sound(Advanced(w, k))
  {
    WriteKeepsStored(w, k);
    var x := w.writers[k];
    assert WriterIsSound(w, k);
    var members := w.history[x.pc.version];
    ChangesKeepGood(x.job, x.newSlot, members, w.lead);
    var after := Changed(x.job, x.newSlot, members);
    var t := Advanced(w, k);
    forall j | 0 <= j < |t.writers|
      ensures WriterIsSound(t, j)
    {
      assert WriterIsSound(w, j);
    }
  }

  lemma {:induction false} ExecuteKeepsSound(w: World, steps: seq<Step>)
    requires Sound(w)
    ensures Sound(Execute(w, steps))
  {
    if steps == [] {
    } else {
      var init, last := steps[..|steps| - 1], steps[|steps| - 1];
      ExecuteKeepsSound(w, init);
      var u := Execute(w, init);
      match last
      case StartWriter(job) => StartKeepsSound(u, job);
      case Advance(k) =>
        if k < |u.writers| {
          if u.writers[k].pc.Loaded? {
            WriteKeepsSound(u, k);
          } else {
            ReadKeepsSound(u, k);
          }
        }
    }
  }

  /** The state in which a team starts: its first roster is stored and nobody writes. */
  function Created(members: Members, lead: SlotId, nextSlot: SlotId): World {
    World([members], lead, [], nextSlot)
  }

  ghost predicate FirstRoster(members: Members, lead: SlotId, nextSlot: SlotId) {
    Good(members, lead) && forall i :: 0 <= i < |members| ==> members[i].slot < nextSlot
  }

  /** In every interleaving of any writers, every roster ever stored has unique slots and one lead, the same agent slot
    * throughout. */
  lemma EveryStoredRosterIsGood(members: Members, lead: SlotId, nextSlot: SlotId, steps: seq<Step>, v: nat)
    requires FirstRoster(members, lead, nextSlot)
    requires v < |Execute(Created(members, lead, nextSlot), steps).history|
    ensures Good(Execute(Created(members, lead, nextSlot), steps).history[v], lead)
  {
    var w := Created(members, lead, nextSlot);
    ExecuteKeepsSound(w, steps);
    LeadStays(w, steps);
  }

  lemma {:induction false} LeadStays(w: World, steps: seq<Step>)
    requires w.history != []
    ensures Execute(w, steps).lead == w.lead
  {
    if steps == [] {
    } else {
      LeadStays(w, steps[..|steps| - 1]);
    }
  }

  /** A slot has the same role in all stored rosters in which it occurs. */
  lemma RolesNeverChange(members: Members, lead: SlotId, nextSlot: SlotId, steps: seq<Step>, u: nat, i: nat, v: nat,
                         j: nat)
    requires FirstRoster(members, lead, nextSlot)
    requires var w := Execute(Created(members, lead, nextSlot), steps);
      && u < |w.history| && v < |w.history| && i < |w.history[u]| && j < |w.history[v]|
      && w.history[u][i].slot == w.history[v][j].slot
    ensures var w := Execute(Created(members, lead, nextSlot), steps);
      w.history[u][i].role == w.history[v][j].role
  {
    EveryStoredRosterIsGood(members, lead, nextSlot, steps, u);
    EveryStoredRosterIsGood(members, lead, nextSlot, steps, v);
  }

  // ---- What the unlocked writer can lose ----

  /** An agent with its preview left open, if it is the one of this slot. */
  function Blank(a: Agent, slot: SlotId): Agent {
    if a.slot == slot then a.(lastMessage := None) else a
  }

  /** The rosters differ at most in the preview of the agent of this slot. */
  ghost predicate SameButMessage(a: Members, b: Members, slot: SlotId) {
    |a| == |b| && forall i :: 0 <= i < |a| ==> Blank(a[i], slot) == Blank(b[i], slot)
  }

  lemma SavingChangesOnlyTheMessage(members: Members, slot: SlotId, text: string, at: int, newSlot: SlotId)
    ensures SameButMessage(Changed(SaveMessage(slot, text, at), newSlot, members), members, slot)
  {
  }

  /** Every roster stored after version `v` differs from the one before it at most in the preview of this slot. */
  ghost predicate QuietSince(history: seq<Members>, v: nat, slot: SlotId) {
    forall u :: v < u < |history| ==> SameButMessage(history[u], history[u - 1], slot)
  }

  lemma {:induction false} QuietMeansUnchanged(history: seq<Members>, v: nat, slot: SlotId, u: nat)
    requires QuietSince(history, v, slot) && v <= u < |history|
    ensures SameButMessage(history[v], history[u], slot)
  {
    if u == v {
    } else {
      QuietMeansUnchanged(history, v, slot, u - 1);
      assert SameButMessage(history[u], history[u - 1], slot);
    }
  }

  /** The last-message write of writer `k` changes nothing in the current roster but that agent's preview. */
  ghost predicate WriteSpares(w: World, k: nat)
    requires w.history != [] && k < |w.writers| && w.writers[k].job.SaveMessage?
  {
    SameButMessage(Current(Advanced(w, k)), Current(w), w.writers[k].job.slot)
  }

  /** A test the writer could make before it writes: it spares everything else exactly when the current roster is still
    * the version that it read, up to its own agent's preview. */
  lemma MessageWriteSparesIff(w: World, k: nat)
    requires Sound(w) && k < |w.writers| && w.writers[k].job.SaveMessage? && w.writers[k].pc.Loaded?
    ensures w.writers[k].pc.version < |w.history|
    ensures WriteSpares(w, k) <==> SameButMessage(w.history[w.writers[k].pc.version], Current(w), w.writers[k].job.slot)
  {
    var x := w.writers[k];
    assert WriterIsSound(w, k);
    var read := w.history[x.pc.version];
    var written := Current(Advanced(w, k));
    SavingChangesOnlyTheMessage(read, x.job.slot, x.job.text, x.job.at, x.newSlot);
    assert forall i :: 0 <= i < |read| ==> Blank(written[i], x.job.slot) == Blank(read[i], x.job.slot);
  }

  /** It spares everything else if no roster stored since the one it read changed anything else, in any run. */
  lemma QuietWritersAreSpared(w: World, k: nat)
    requires Sound(w) && k < |w.writers| && w.writers[k].job.SaveMessage? && w.writers[k].pc.Loaded?
    requires QuietSince(w.history, w.writers[k].pc.version, w.writers[k].job.slot)
    ensures WriteSpares(w, k)
  {
    assert WriterIsSound(w, k);
    MessageWriteSparesIff(w, k);
    QuietMeansUnchanged(w.history, w.writers[k].pc.version, w.writers[k].job.slot, |w.history| - 1);
  }

  /** The job leaves every agent as it is, but for the preview of this slot. */
  predicate Harmless(job: Job, members: Members, slot: SlotId)
    requires Accepted(job, members)
  {
    match job
    case AddAgent(_, _, _) => false
    case RemoveAgent(_) => false
    case RenameAgent(s, name) => members[Position(members, s)].name == name
    case SaveMessage(s, text, at) =>
      s == slot || members[Position(members, s)].lastMessage == Some(Preview(Truncate(text), at))
  }

  lemma {:induction false} WithoutIsNoLonger(members: Members, slot: SlotId)
    ensures |Without(members, slot)| <= |members|
    ensures Has(members, slot) ==> |Without(members, slot)| < |members|
  {
    if members == [] {
    } else {
      var init := members[..|members| - 1];
      WithoutIsNoLonger(init, slot);
      assert Has(members, slot) && !Has(init, slot) ==> members[|members| - 1].slot == slot by {
        assert forall i :: 0 <= i < |init| ==> init[i] == members[i];
        assert Has(members, slot) && Position(members, slot) < |init| ==> init[Position(members, slot)].slot == slot;
      }
    }
  }

  lemma HarmlessIff(job: Job, newSlot: SlotId, members: Members, slot: SlotId)
    requires Accepted(job, members) && UniqueSlots(members)
    ensures SameButMessage(members, Changed(job, newSlot, members), slot) <==> Harmless(job, members, slot)
  {
    var after := Changed(job, newSlot, members);
    match job
    case AddAgent(_, _, _) =>
    case RemoveAgent(s) => WithoutIsNoLonger(members, s);
    case RenameAgent(s, name) =>
      var i := Position(members, s);
      assert Blank(after[i], slot).name == name && Blank(members[i], slot).name == members[i].name;
      assert members[i].name == name ==> after == members;
    case SaveMessage(s, text, at) =>
      var i := Position(members, s);
      assert after[i].slot == s && after[i].lastMessage == Some(Preview(Truncate(text), at));
      assert s != slot ==> Blank(after[i], slot) == after[i] && Blank(members[i], slot) == members[i];
  }

  /** Of one writer that is accepted and writes between the last-message writer's read and its write, that write undoes
    * something exactly when the other job is an addition, a removal, a rename to another name, or another agent's
    * message that is news. */
  lemma OverlappingWriteIsUndoneIff(w: World, k: nat, job: Job, newSlot: SlotId)
    requires Sound(w) && k < |w.writers| && w.writers[k].job.SaveMessage?
    requires |w.history| >= 2 && w.writers[k].pc == Loaded(|w.history| - 2)
    requires Accepted(job, w.history[|w.history| - 2]) &&
      Current(w) == Changed(job, newSlot, w.history[|w.history| - 2])
    ensures !WriteSpares(w, k) <==> !Harmless(job, w.history[|w.history| - 2], w.writers[k].job.slot)
  {
    MessageWriteSparesIff(w, k);
    HarmlessIff(job, newSlot, w.history[|w.history| - 2], w.writers[k].job.slot);
  }

  /** A writer with this job, started and run as far as it goes. */
  function RunAlone(w: World, job: Job): World
    requires w.history != []
  {
    var n := |w.writers|;
    var loaded := Advanced(Next(w, StartWriter(job)), n);
    if job.RemoveAgent? then Advanced(Advanced(loaded, n), n) else Advanced(loaded, n)
  }

  lemma RunsToItsEnd(w: World, job: Job, k: nat)
    requires Sound(w) && Accepted(job, Current(w)) && k < |w.writers|
    ensures var t := RunAlone(w, job);
      && t.writers == w.writers + [Writer(job, w.nextSlot, Done(true))]
      && t.history == w.history + [Changed(job, w.nextSlot, Current(w))]
      && t.lead == w.lead
  {
    var n := |w.writers|;
    var one := Next(w, StartWriter(job));
    var two := Advanced(one, n);
    if job.RemoveAgent? {
      assert two.writers[n].pc == Checked;
      var three := Advanced(two, n);
      assert three.writers[n].pc == Loaded(|w.history| - 1);
    } else {
      assert two.writers[n].pc == Loaded(|w.history| - 1);
    }
  }

  /** In every run: a writer whose job is not harmless can start, be accepted and finish with success while a
    * last-message writer holds its copy, and that one's write then undoes it: the roster is again what it was, but for
    * the message. */
  lemma SuccessfulWritesCanBeUndone(w: World, k: nat, job: Job)
    requires Sound(w) && k < |w.writers|
    requires w.writers[k].job.SaveMessage? && w.writers[k].pc == Loaded(|w.history| - 1)
    requires Accepted(job, Current(w)) && !Harmless(job, Current(w), w.writers[k].job.slot)
    ensures var done := RunAlone(w, job);
      var slot := w.writers[k].job.slot;
      && done.writers[|w.writers|].pc == Done(true)
      && !SameButMessage(Current(w), Current(done), slot)
      && SameButMessage(Current(w), Current(Advanced(done, k)), slot)
  {
    var done := RunAlone(w, job);
    RunsToItsEnd(w, job, k);
    var x := w.writers[k];
    assert done.writers[k] == x && done.history[|w.history| - 1] == Current(w);
    HarmlessIff(job, w.nextSlot, Current(w), x.job.slot);
    SavingChangesOnlyTheMessage(Current(w), x.job.slot, x.job.text, x.job.at, x.newSlot);
    var written := Changed(x.job, x.newSlot, Current(w));
    assert Current(Advanced(done, k)) == written;
    assert forall i :: 0 <= i < |written| ==> Blank(written[i], x.job.slot) == Blank(Current(w)[i], x.job.slot);
  }

  lemma SaveMessageKeepsSlots(members: Members, slot: SlotId, text: string, at: int, newSlot: SlotId, s: SlotId)
    ensures Has(Changed(SaveMessage(slot, text, at), newSlot, members), s) <==> Has(members, s)
  {
    var after := Changed(SaveMessage(slot, text, at), newSlot, members);
    assert forall i :: 0 <= i < |members| ==> after[i].slot == members[i].slot;
    assert Has(after, s) ==> members[Position(after, s)].slot == s;
    assert Has(members, s) ==> after[Position(members, s)].slot == s;
  }

  /** So it is for an addition: the new agent is gone again. */
  lemma AdditionCanBeLost(w: World, k: nat, name: Name, conversation: ConversationId)
    requires Sound(w) && k < |w.writers|
    requires w.writers[k].job.SaveMessage? && w.writers[k].pc == Loaded(|w.history| - 1)
    ensures var added := RunAlone(w, AddAgent(Some(Teammate), name, conversation));
      && added.writers[|w.writers|].pc == Done(true) && Has(Current(added), w.nextSlot)
      && !Has(Current(Advanced(added, k)), w.nextSlot)
  {
    RunsToItsEnd(w, AddAgent(Some(Teammate), name, conversation), k);
    var added := RunAlone(w, AddAgent(Some(Teammate), name, conversation));
    assert Current(added)[|Current(w)|].slot == w.nextSlot;
    var x := w.writers[k];
    assert added.writers[k] == x && added.history[|w.history| - 1] == Current(w);
    SaveMessageKeepsSlots(Current(w), x.job.slot, x.job.text, x.job.at, x.newSlot, w.nextSlot);
  }

  /** For a removal: the agent is back. */
  lemma RemovalCanBeUndone(w: World, k: nat, slot: SlotId)
    requires Sound(w) && k < |w.writers| && Has(Current(w), slot) && slot != w.lead
    requires w.writers[k].job.SaveMessage? && w.writers[k].pc == Loaded(|w.history| - 1)
    ensures var removed := RunAlone(w, RemoveAgent(slot));
      && removed.writers[|w.writers|].pc == Done(true) && !Has(Current(removed), slot)
      && Has(Current(Advanced(removed, k)), slot)
  {
    RunsToItsEnd(w, RemoveAgent(slot), k);
    var removed := RunAlone(w, RemoveAgent(slot));
    WithoutHas(Current(w), slot);
    var x := w.writers[k];
    assert removed.writers[k] == x && removed.history[|w.history| - 1] == Current(w);
    SaveMessageKeepsSlots(Current(w), x.job.slot, x.job.text, x.job.at, x.newSlot, slot);
  }

  /** And for a rename: the agent has its old name again. */
  lemma RenameCanBeUndone(w: World, k: nat, slot: SlotId, name: Name)
    requires Sound(w) && k < |w.writers|
    requires w.writers[k].job.SaveMessage? && w.writers[k].pc == Loaded(|w.history| - 1)
    requires Accepted(RenameAgent(slot, name), Current(w)) && Current(w)[Position(Current(w), slot)].name != name
    ensures var done := RunAlone(w, RenameAgent(slot, name));
      var i := Position(Current(w), slot);
      && i < |Current(done)| && Current(done)[i].name == name
      && i < |Current(Advanced(done, k))| && Current(Advanced(done, k))[i].name == Current(w)[i].name
  {
    RunsToItsEnd(w, RenameAgent(slot, name), k);
    SuccessfulWritesCanBeUndone(w, k, RenameAgent(slot, name));
    var i := Position(Current(w), slot);
    var after := Current(Advanced(RunAlone(w, RenameAgent(slot, name)), k));
    assert Blank(after[i], w.writers[k].job.slot) == Blank(Current(w)[i], w.writers[k].job.slot);
  }
}
