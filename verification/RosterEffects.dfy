/** What the writers of the roster store, field by field, and where every stored roster comes from. */
module RosterEffects {
  import opened Wrappers
  import opened Roles
  import opened Roster

  // ---- The four changes ----

  /** A removal works piece by piece: the slot's agents go, the others stay in order. */
  lemma {:induction false} WithoutByPieces(a: Members, x: Agent, b: Members, slot: SlotId)
    ensures Without([], slot) == []
    ensures Without(a + [x] + b, slot) == Without(a, slot) + (if x.slot == slot then [] else [x]) + Without(b, slot)
  {
    var all := a + [x] + b;
    if b == [] {
      assert all[..|all| - 1] == a;
    } else {
      var init, last := b[..|b| - 1], b[|b| - 1];
      WithoutByPieces(a, x, init, slot);
      assert all[..|all| - 1] == a + [x] + init && all[|all| - 1] == last;
    }
  }

  /** The agents are the same but for the name. */
  predicate SameButName(a: Agent, b: Agent) {
    b.slot == a.slot && b.role == a.role && b.conversation == a.conversation && b.lastMessage == a.lastMessage
  }

  /** The agents are the same but for the preview. */
  predicate SameButPreview(a: Agent, b: Agent) {
    b.slot == a.slot && b.role == a.role && b.conversation == a.conversation && b.name == a.name
  }

  /** What a writer makes of the roster it read. An addition appends one teammate with the fresh slot, the name and the
    * conversation asked for, and no preview; a rename gives its agent the name, a message write its agent the preview,
    * of at most the first 500 characters; nothing else changes. */
  lemma WritersStore(job: Job, newSlot: SlotId, members: Members)
    requires UniqueSlots(members)
    ensures var after := Changed(job, newSlot, members);
      match job
      case AddAgent(_, name, conversation) =>
        && |after| == |members| + 1 && after[..|members|] == members
        && var a := after[|members|];
           && a.slot == newSlot && a.role == Teammate && a.name == name && a.conversation == conversation
           && a.lastMessage == None
      case RemoveAgent(slot) =>
        forall a :: a in after <==> a in members && a.slot != slot
      case RenameAgent(slot, name) =>
        && |after| == |members|
        && forall i :: 0 <= i < |members| ==>
             if members[i].slot == slot then SameButName(members[i], after[i]) && after[i].name == name
             else after[i] == members[i]
      case SaveMessage(slot, text, at) =>
        && |after| == |members|
        && forall i :: 0 <= i < |members| ==>
             if members[i].slot == slot then
               && SameButPreview(members[i], after[i]) && after[i].lastMessage.Some?
               && var p := after[i].lastMessage.value;
                  p.at == at && p.text <= text && |p.text| == if |text| < 500 then |text| else 500
             else after[i] == members[i]
  {
    if job.RemoveAgent? {
      WithoutMembers(members, job.slot);
    }
  }

  // ---- Who is refused ----

  /** No two agents share a normalised name. */
  ghost predicate NamesApart(members: Members) {
    forall i, j :: 0 <= i < j < |members| ==> members[i].name.normalized != members[j].name.normalized
  }

  /** On a roster with one lead, a removal is accepted exactly for an agent of the roster other than the lead. */
  lemma RemovalAcceptedIff(members: Members, lead: SlotId, slot: SlotId)
    requires Good(members, lead)
    ensures Accepted(RemoveAgent(slot), members) <==> slot != lead && exists a :: a in members && a.slot == slot
  {
    if Has(members, slot) {
      assert members[Position(members, slot)] in members;
    }
  }

  lemma RenamedAt(members: Members, slot: SlotId, name: Name)
    requires UniqueSlots(members) && Has(members, slot)
    ensures var after, p := Changed(RenameAgent(slot, name), 0, members), Position(members, slot);
      && |after| == |members| && after[p].name == name
      && forall i :: 0 <= i < |members| && i != p ==> after[i] == members[i]
  {
  }

  /** On a roster whose names are apart, a rename is accepted exactly when the name is not blank, the agent is there,
    * and the names are apart afterwards. */
  lemma RenameAcceptedIff(members: Members, slot: SlotId, name: Name)
    requires UniqueSlots(members) && NamesApart(members)
    ensures Accepted(RenameAgent(slot, name), members) <==>
      name.normalized != "" && Has(members, slot) && NamesApart(Changed(RenameAgent(slot, name), 0, members))
  {
    if Has(members, slot) {
      RenamedAt(members, slot, name);
      var after, p := Changed(RenameAgent(slot, name), 0, members), Position(members, slot);
      if i :| 0 <= i < |members| && members[i].slot != slot && members[i].name.normalized == name.normalized {
        assert after[i].name.normalized == after[p].name.normalized;
      }
    }
  }

  // ---- Where stored rosters come from ----

  /** The writer's checks passed on the version it changes; a removal made them on that version or an earlier one. */
  ghost predicate WasAccepted(w: World, k: nat, v: nat)
    requires k < |w.writers| && v < |w.history|
  {
    var job := w.writers[k].job;
    exists u :: 0 <= u <= v && Accepted(job, w.history[u]) && (!job.RemoveAgent? ==> u == v)
  }

  /** The version is what one writer, now done, made of an earlier version. */
  ghost predicate Written(w: World, v: nat)
    requires v < |w.history|
  {
    exists k, u :: 0 <= k < |w.writers| && 0 <= u < v && WrittenBy(w, v, k, u)
  }

  ghost predicate WrittenBy(w: World, v: nat, k: nat, u: nat)
    requires u < v < |w.history| && k < |w.writers|
  {
    && w.writers[k].pc == Done(true) && WasAccepted(w, k, u)
    && w.history[v] == Changed(w.writers[k].job, w.writers[k].newSlot, w.history[u])
  }

  /** A writer that has checked, or has loaded a version, had its checks passed; one that has returned has stored its
    * change, or was refused. */
  ghost predicate WriterStands(w: World, k: nat)
    requires w.history != [] && k < |w.writers|
  {
    match w.writers[k].pc
    case Checked => w.writers[k].job.RemoveAgent? && WasAccepted(w, k, |w.history| - 1)
    case Loaded(v) => v < |w.history| && WasAccepted(w, k, v)
    case Done(ok) => if ok then HasStored(w, k) else WasRefused(w, k)
    case _ => true
  }

  ghost predicate HasStored(w: World, k: nat)
    requires k < |w.writers|
  {
    exists v: nat, u: nat :: u < v < |w.history| && WrittenBy(w, v, k, u)
  }

  /** The checks of the writer failed on some stored roster. */
  ghost predicate WasRefused(w: World, k: nat)
    requires k < |w.writers|
  {
    exists u :: 0 <= u < |w.history| && !Accepted(w.writers[k].job, w.history[u])
  }

  ghost predicate Explained(w: World) {
    && w.history != []
    && (forall v :: 0 < v < |w.history| ==> Written(w, v))
    && (forall k :: 0 <= k < |w.writers| ==> WriterStands(w, k))
  }

  /** Versions stay explained while rosters are added and writers go on. */
  lemma StaysAccepted(w: World, t: World, k: nat, v: nat)
    requires w.history <= t.history && k < |w.writers| && k < |t.writers| && t.writers[k].job == w.writers[k].job
    requires v < |w.history| && WasAccepted(w, k, v)
    ensures WasAccepted(t, k, v)
  {
    var u :| 0 <= u <= v && Accepted(w.writers[k].job, w.history[u]) && (!w.writers[k].job.RemoveAgent? ==> u == v);
    assert Accepted(t.writers[k].job, t.history[u]);
  }

  lemma StaysWritten(w: World, t: World, v: nat)
    requires w.history <= t.history && |w.writers| <= |t.writers| && v < |w.history| && Written(w, v)
    requires forall k :: 0 <= k < |w.writers| ==>
      t.writers[k].job == w.writers[k].job && t.writers[k].newSlot == w.writers[k].newSlot
    requires forall k :: 0 <= k < |w.writers| && w.writers[k].pc.Done? ==> t.writers[k].pc == w.writers[k].pc
    ensures Written(t, v)
  {
    var k, u :| 0 <= k < |w.writers| && 0 <= u < v && WrittenBy(w, v, k, u);
    StaysAccepted(w, t, k, u);
    assert WrittenBy(t, v, k, u);
  }

  lemma NextOnlyAdds(w: World, s: Step)
    requires w.history != []
    ensures var t := Next(w, s);
      && w.history <= t.history && |w.writers| <= |t.writers|
      && (forall k :: 0 <= k < |w.writers| ==>
            && t.writers[k].job == w.writers[k].job && t.writers[k].newSlot == w.writers[k].newSlot
            && (w.writers[k].pc.Done? ==> t.writers[k].pc == w.writers[k].pc)
            && (s != Advance(k) ==> t.writers[k] == w.writers[k]))
  {
  }

  lemma DoneStands(w: World, t: World, k: nat)
    requires w.history != [] && w.history <= t.history && k < |w.writers| && k < |t.writers|
    requires t.writers[k] == w.writers[k] && w.writers[k].pc.Done? && WriterStands(w, k)
    ensures t.history != [] && WriterStands(t, k)
  {
    if w.writers[k].pc.ok {
      var v: nat, u: nat :| u < v < |w.history| && WrittenBy(w, v, k, u);
      StaysAccepted(w, t, k, u);
      assert WrittenBy(t, v, k, u);
    } else {
      var u :| 0 <= u < |w.history| && !Accepted(w.writers[k].job, w.history[u]);
      assert !Accepted(t.writers[k].job, t.history[u]);
    }
  }

  /** The writer that takes the step. */
  lemma WriterGoesOn(w: World, k: nat)
    requires w.history != [] && k < |w.writers| && WriterStands(w, k)
    ensures var t := Next(w, Advance(k));
      && WriterStands(t, k)
      && (t.history == w.history || (|t.history| == |w.history| + 1 && Written(t, |w.history|)))
  {
    var t, x, now := Next(w, Advance(k)), w.writers[k], |w.history| - 1;
    NextOnlyAdds(w, Advance(k));
    match x.pc
    case Begin =>
      if Accepted(x.job, w.history[now]) {
        assert WasAccepted(w, k, now);
        StaysAccepted(w, t, k, now);
      } else {
        assert !Accepted(t.writers[k].job, t.history[now]);
      }
    case Checked => StaysAccepted(w, t, k, now);
    case Loaded(v) =>
      StaysAccepted(w, t, k, v);
      assert WrittenBy(t, |w.history|, k, v);
    case Done(_) => DoneStands(w, t, k);
  }

  lemma OtherWriterStands(w: World, s: Step, j: nat)
    requires w.history != [] && j < |w.writers| && s != Advance(j) && WriterStands(w, j)
    ensures WriterStands(Next(w, s), j)
  {
    var t := Next(w, s);
    NextOnlyAdds(w, s);
    match w.writers[j].pc
    case Checked =>
      StaysAccepted(w, t, j, |w.history| - 1);
      CheckedEarlier(t, j, |w.history| - 1, |t.history| - 1);
    case Loaded(v) => StaysAccepted(w, t, j, v);
    case Done(_) => DoneStands(w, t, j);
    case Begin =>
  }

  /** The checks of a removal, which are the only ones that are made ahead, may be older. */
  lemma CheckedEarlier(w: World, k: nat, u: nat, v: nat)
    requires k < |w.writers| && u <= v < |w.history| && WasAccepted(w, k, u) && w.writers[k].job.RemoveAgent?
    ensures WasAccepted(w, k, v)
  {
    var x :| 0 <= x <= u && Accepted(w.writers[k].job, w.history[x]) && (!w.writers[k].job.RemoveAgent? ==> x == u);
    assert Accepted(w.writers[k].job, w.history[x]);
  }

  lemma NextKeepsExplained(w: World, s: Step)
    requires Explained(w)
    ensures Explained(Next(w, s))
  {
    var t := Next(w, s);
    NextOnlyAdds(w, s);
    forall v | 0 < v < |w.history|
      ensures Written(t, v)
    {
      StaysWritten(w, t, v);
    }
    if s.Advance? && s.writer < |w.writers| {
      WriterGoesOn(w, s.writer);
    }
    forall j | 0 <= j < |t.writers|
      ensures WriterStands(t, j)
    {
      if j < |w.writers| && s != Advance(j) {
        OtherWriterStands(w, s, j);
      }
    }
  }

  /** In every interleaving, every roster stored after the first is what one writer made of an earlier one on which its
    * checks passed; and a writer that has returned has stored such a change, or was refused. */
  lemma {:induction false} EveryRosterIsAChange(members: Members, lead: SlotId, nextSlot: SlotId, steps: seq<Step>)
    ensures Explained(Execute(Created(members, lead, nextSlot), steps))
  {
    if steps == [] {
    } else {
      EveryRosterIsAChange(members, lead, nextSlot, steps[..|steps| - 1]);
      NextKeepsExplained(Execute(Created(members, lead, nextSlot), steps[..|steps| - 1]), steps[|steps| - 1]);
    }
  }
}
