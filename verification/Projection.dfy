/** Projecting team messages into conversations: find, insert, announce, with other calls running in between.
  *
  * The eager path (a teammate sends a message) and the mirror path (an agent picks up its unread messages) project
  * the same mailbox message with the same key; the unique row id is what keeps the second one out. The JSON content of
  * a row is its parts, stripping system notes from user text is left to the caller, and times are not modelled.
  */
module Projection {
  import opened Wrappers

  const TEXT := "text"

  datatype Source = User | TeamSystem | Teammate(fromSlot: string, fromName: string)

  datatype Visibility = Visibility(userBubble: bool, teammateBubble: bool, hidden: bool)

  function TeammateKey(team: string, mailbox: string, conversation: string): string {
    "team:" + team + ":mailbox:" + mailbox + ":conversation:" + conversation
  }

  /** A request; one that projects a mailbox message carries the key made from it. */
  datatype Request = Request(
    team: string,
    conversation: string,
    mailbox: Option<string>,
    source: Source,
    content: string,
    visibility: Visibility)
  {
    function Key(): Option<string> {
      if mailbox.Some? then Some(TeammateKey(team, mailbox.value, conversation)) else None
    }

    predicate Visible() {
      match source
      case User => visibility.userBubble
      case TeamSystem => visibility.teammateBubble
      case Teammate(_, _) => visibility.teammateBubble
    }
  }

  datatype Position = Left | Right

  datatype Row = Row(
    id: string,
    conversation: string,
    msgId: Option<string>,
    kind: string,
    position: Position,
    content: string,
    sender: Option<string>,
    hidden: bool)

  function BuildRow(r: Request, msgId: string): Row {
    var (position, sender) :=
      match r.source
      case User => (Right, None)
      case TeamSystem => (Left, Some("team_system"))
      case Teammate(_, name) => (Left, Some(name));
    Row(msgId, r.conversation, Some(msgId), TEXT, position, r.content, sender, r.visibility.hidden)
  }

  // ---- The message store ----

  /** The first row with this id; the length of the list when there is none. */
  function RowAt(rows: seq<Row>, id: string): (i: nat)
    ensures i <= |rows|
    ensures i < |rows| ==> rows[i].id == id
    ensures forall j :: 0 <= j < i ==> rows[j].id != id
  {
    if rows == [] || rows[0].id == id then 0 else 1 + RowAt(rows[1..], id)
  }

  predicate Matches(row: Row, conversation: string, msgId: string, kind: string) {
    row.conversation == conversation && row.msgId == Some(msgId) && row.kind == kind
  }

  function FindByMsgId(rows: seq<Row>, conversation: string, msgId: string, kind: string): (i: nat)
    ensures i <= |rows|
    ensures i < |rows| ==> Matches(rows[i], conversation, msgId, kind)
    ensures forall j :: 0 <= j < i ==> !Matches(rows[j], conversation, msgId, kind)
  {
    if rows == [] || Matches(rows[0], conversation, msgId, kind) then 0
    else 1 + FindByMsgId(rows[1..], conversation, msgId, kind)
  }

  // ---- Calls and their steps ----

  datatype Result =
    | Inserted(id: string)
    | AlreadyProjected(id: string)
    | Conflict(id: string)        // the insert met a row with the same id
    | Skipped

  datatype Pc = Begin | Insert(id: string) | Announce(id: string) | Done(result: Result)

  datatype Call = Call(request: Request, pc: Pc)

  /** All rows and who inserted each (a call, or none for rows of other writers), all calls, and all announcements. */
  datatype World = World(rows: seq<Row>, authors: seq<Option<nat>>, calls: seq<Call>, broadcasts: seq<string>)

  const START := World([], [], [], [])

  datatype Step =
    | Project(request: Request)
    | Advance(call: nat, minted: string)
    | OtherInsert(row: Row)

  function ToPc(w: World, k: nat, pc: Pc): World
    requires k < |w.calls|
  {
    w.(calls := w.calls[k := w.calls[k].(pc := pc)])
  }

  function Advanced(w: World, k: nat, minted: string): World
    requires k < |w.calls|
  {
    var r := w.calls[k].request;
    match w.calls[k].pc
    case Begin =>
      if !r.Visible() then ToPc(w, k, Done(Skipped))
      else if r.Key().None? then ToPc(w, k, Insert(minted))
      else
        var i := FindByMsgId(w.rows, r.conversation, r.Key().value, TEXT);
        if i < |w.rows| then ToPc(w, k, Done(AlreadyProjected(w.rows[i].msgId.value)))
        else ToPc(w, k, Insert(r.Key().value))
    case Insert(id) =>
      if RowAt(w.rows, id) < |w.rows| then ToPc(w, k, Done(Conflict(id)))
      else
        var next := if r.source.User? then Done(Inserted(id)) else Announce(id);
        ToPc(w, k, next).(rows := w.rows + [BuildRow(r, id)], authors := w.authors + [Some(k)])
    case Announce(id) => ToPc(w, k, Done(Inserted(id))).(broadcasts := w.broadcasts + [id])
    case Done(_) => w
  }

  function Next(w: World, s: Step): World {
    match s
    case Project(r) => w.(calls := w.calls + [Call(r, Begin)])
    case Advance(k, minted) => if k < |w.calls| then Advanced(w, k, minted) else w
    case OtherInsert(row) =>
      if RowAt(w.rows, row.id) < |w.rows| then w else w.(rows := w.rows + [row], authors := w.authors + [None])
  }

  function Execute(steps: seq<Step>): World {
    if steps == [] then START else Next(Execute(steps[..|steps| - 1]), steps[|steps| - 1])
  }

  /** Minted ids and the ids of other writers are generated ids; they never look like a key. */
  predicate Generated(id: string) {
    !("team:" <= id)
  }

  predicate Foreign(row: Row) {
    Generated(row.id) && (row.msgId.Some? ==> Generated(row.msgId.value))
  }

  predicate Proper(s: Step) {
    (s.Advance? ==> Generated(s.minted)) && (s.OtherInsert? ==> Foreign(s.row))
  }

  predicate AllProper(steps: seq<Step>) {
    forall i :: 0 <= i < |steps| ==> Proper(steps[i])
  }

  // ---- The invariant ----

  ghost predicate UniqueIds(rows: seq<Row>) {
    forall i, j :: 0 <= i < j < |rows| ==> rows[i].id != rows[j].id
  }

  predicate HasInserted(c: Call, id: string) {
    c.pc == Announce(id) || c.pc == Done(Inserted(id))
  }

  /** The row is the one its author built, or that of another writer. */
  predicate RowIsAuthored(w: World, i: nat)
    requires i < |w.rows| == |w.authors|
  {
    match w.authors[i]
    case None => Foreign(w.rows[i])
    case Some(k) =>
      && k < |w.calls| && HasInserted(w.calls[k], w.rows[i].id)
      && w.rows[i] == BuildRow(w.calls[k].request, w.rows[i].id)
  }

  predicate IdIsItsKey(c: Call, id: string) {
    if c.request.Key().Some? then id == c.request.Key().value else Generated(id)
  }

  /** What a call has done so far can be seen in the rows. */
  predicate CallIsRecorded(w: World, k: nat)
    requires k < |w.calls| && |w.rows| == |w.authors|
  {
    var c := w.calls[k];
    match c.pc
    case Begin => true
    case Insert(id) => IdIsItsKey(c, id) && c.request.Visible()
    case Announce(id) =>
      IdIsItsKey(c, id) && !c.request.source.User? && RowAt(w.rows, id) < |w.rows| &&
        w.authors[RowAt(w.rows, id)] == Some(k)
    case Done(Inserted(id)) => IdIsItsKey(c, id) && RowAt(w.rows, id) < |w.rows| &&
      w.authors[RowAt(w.rows, id)] == Some(k)
    case Done(AlreadyProjected(id)) => c.request.Key() == Some(id) && RowAt(w.rows, id) < |w.rows|
    case Done(Conflict(id)) => IdIsItsKey(c, id) && RowAt(w.rows, id) < |w.rows|
    case Done(Skipped) => !c.request.Visible()
  }

  /** How often an id is to have been announced: once when a call that announces has inserted its row and gone on. */
  function Due(w: World, id: string): nat
    requires |w.rows| == |w.authors|
  {
    var i := RowAt(w.rows, id);
    if i < |w.rows| && w.authors[i].Some? && w.authors[i].value < |w.calls|
       && w.calls[w.authors[i].value].pc.Done? && !w.calls[w.authors[i].value].request.source.User?
    then 1 else 0
  }

  ghost predicate Sound(w: World) {
    && |w.rows| == |w.authors|
    && UniqueIds(w.rows)
    && (forall i :: 0 <= i < |w.rows| ==> RowIsAuthored(w, i))
    && (forall k :: 0 <= k < |w.calls| ==> CallIsRecorded(w, k))
    && (forall id :: multiset(w.broadcasts)[id] == Due(w, id))
  }

  lemma KeysAreNotGenerated(r: Request)
    requires r.Key().Some?
    ensures !Generated(r.Key().value)
  {
    assert r.Key().value[..5] == "team:";
  }

  /** Appending a row with a new id leaves every lookup that succeeded where it was. */
  lemma RowsGrow(rows: seq<Row>, row: Row)
    requires RowAt(rows, row.id) == |rows|
    ensures forall id :: RowAt(rows + [row], id) == if id == row.id then |rows|
      else if RowAt(rows, id) < |rows| then RowAt(rows, id) else |rows| + 1
  {
    forall id
      ensures RowAt(rows + [row], id) == if id == row.id then |rows|
        else if RowAt(rows, id) < |rows| then RowAt(rows, id) else |rows| + 1
    {
      var i := RowAt(rows + [row], id);
      assert i < |rows| ==> (rows + [row])[i] == rows[i];
      assert RowAt(rows, id) < |rows| ==> (rows + [row])[RowAt(rows, id)].id == id;
      assert (rows + [row])[|rows|] == row;
    }
  }

  lemma OtherInsertKeepsSound(w: World, row: Row)
    requires Sound(w) && Foreign(row)
    ensures Sound(Next(w, OtherInsert(row)))
  {
    if RowAt(w.rows, row.id) == |w.rows| {
      RowsGrow(w.rows, row);
      var t := Next(w, OtherInsert(row));
      forall k | 0 <= k < |t.calls|
        ensures CallIsRecorded(t, k)
      {
        assert CallIsRecorded(w, k);
      }
      forall i | 0 <= i < |t.rows|
        ensures RowIsAuthored(t, i)
      {
        assert i < |w.rows| ==> RowIsAuthored(w, i);
      }
    }
  }

  lemma ProjectKeepsSound(w: World, r: Request)
    requires Sound(w)
    ensures Sound(Next(w, Project(r)))
  {
    var t := Next(w, Project(r));
    forall k | 0 <= k < |t.calls|
      ensures CallIsRecorded(t, k)
    {
      assert k < |w.calls| ==> CallIsRecorded(w, k);
    }
    forall i | 0 <= i < |t.rows|
      ensures RowIsAuthored(t, i)
    {
      assert RowIsAuthored(w, i);
    }
    forall id
      ensures multiset(t.broadcasts)[id] == Due(t, id)
    {
      assert multiset(w.broadcasts)[id] == Due(w, id);
      assert RowAt(w.rows, id) < |w.rows| ==> RowIsAuthored(w, RowAt(w.rows, id));
    }
  }

  /** A call that has not inserted goes on without inserting. */
  lemma QuietStepKeepsSound(w: World, k: nat, pc: Pc)
    requires Sound(w) && k < |w.calls| && (w.calls[k].pc.Begin? || w.calls[k].pc.Insert?)
    requires pc.Insert? || (pc.Done? && !pc.result.Inserted?)
    requires CallIsRecorded(ToPc(w, k, pc), k)
    ensures Sound(ToPc(w, k, pc))
  {
    var t := ToPc(w, k, pc);
    forall j | 0 <= j < |t.calls|
      ensures CallIsRecorded(t, j)
    {
      assert CallIsRecorded(w, j);
    }
    forall i | 0 <= i < |t.rows|
      ensures RowIsAuthored(t, i)
    {
      assert RowIsAuthored(w, i);
    }
    forall id
      ensures multiset(t.broadcasts)[id] == Due(t, id)
    {
      assert multiset(w.broadcasts)[id] == Due(w, id);
      assert RowAt(w.rows, id) < |w.rows| ==> RowIsAuthored(w, RowAt(w.rows, id));
    }
  }

  /** What the lookup finds under a key is the row with the key as its id. */
  lemma FoundRowHasTheKey(w: World, r: Request)
    requires Sound(w) && r.Key().Some? && FindByMsgId(w.rows, r.conversation, r.Key().value, TEXT) < |w.rows|
    ensures RowAt(w.rows, r.Key().value) == FindByMsgId(w.rows, r.conversation, r.Key().value, TEXT)
  {
    var i := FindByMsgId(w.rows, r.conversation, r.Key().value, TEXT);
    KeysAreNotGenerated(r);
    assert RowIsAuthored(w, i);
  }

  lemma BeginKeepsSound(w: World, k: nat, minted: string)
    requires Sound(w) && Generated(minted) && k < |w.calls| && w.calls[k].pc.Begin?
    ensures Sound(Advanced(w, k, minted))
  {
    var r := w.calls[k].request;
    if !r.Visible() {
      QuietStepKeepsSound(w, k, Done(Skipped));
    } else if r.Key().None? {
      QuietStepKeepsSound(w, k, Insert(minted));
    } else {
      var i := FindByMsgId(w.rows, r.conversation, r.Key().value, TEXT);
      if i < |w.rows| {
        FoundRowHasTheKey(w, r);
        QuietStepKeepsSound(w, k, Done(AlreadyProjected(w.rows[i].msgId.value)));
      } else {
        QuietStepKeepsSound(w, k, Insert(r.Key().value));
      }
    }
  }

  lemma InsertKeepsSound(w: World, k: nat, minted: string)
    requires Sound(w) && k < |w.calls| && w.calls[k].pc.Insert?
    ensures Sound(Advanced(w, k, minted))
  {
    var r, id := w.calls[k].request, w.calls[k].pc.id;
    assert CallIsRecorded(w, k);
    if RowAt(w.rows, id) < |w.rows| {
      QuietStepKeepsSound(w, k, Done(Conflict(id)));
    } else {
      RowsGrow(w.rows, BuildRow(r, id));
      var t := Advanced(w, k, minted);
      InsertKeepsRecords(w, k, minted);
      forall x
        ensures multiset(t.broadcasts)[x] == Due(t, x)
      {
        assert multiset(w.broadcasts)[x] == Due(w, x);
        assert RowAt(w.rows, x) < |w.rows| ==> RowIsAuthored(w, RowAt(w.rows, x));
      }
    }
  }

  lemma InsertKeepsRecords(w: World, k: nat, minted: string)
    requires Sound(w) && k < |w.calls| && w.calls[k].pc.Insert? && RowAt(w.rows, w.calls[k].pc.id) == |w.rows|
    ensures var t := Advanced(w, k, minted);
      && (forall i :: 0 <= i < |t.rows| ==> RowIsAuthored(t, i))
      && (forall j :: 0 <= j < |t.calls| ==> CallIsRecorded(t, j))
  {
    var r, id := w.calls[k].request, w.calls[k].pc.id;
    RowsGrow(w.rows, BuildRow(r, id));
    var t := Advanced(w, k, minted);
    forall i | 0 <= i < |t.rows|
      ensures RowIsAuthored(t, i)
    {
      assert i < |w.rows| ==> RowIsAuthored(w, i);
    }
    forall j | 0 <= j < |t.calls|
      ensures CallIsRecorded(t, j)
    {
      assert CallIsRecorded(w, j);
    }
  }

  lemma AnnounceKeepsSound(w: World, k: nat, minted: string)
    requires Sound(w) && k < |w.calls| && w.calls[k].pc.Announce?
    ensures Sound(Advanced(w, k, minted))
  {
    var id := w.calls[k].pc.id;
    var t := Advanced(w, k, minted);
    assert CallIsRecorded(w, k);
    forall j | 0 <= j < |t.calls|
      ensures CallIsRecorded(t, j)
    {
      assert CallIsRecorded(w, j);
    }
    forall i | 0 <= i < |t.rows|
      ensures RowIsAuthored(t, i)
    {
      assert RowIsAuthored(w, i);
    }
    AnnounceKeepsDue(w, k, minted);
  }

  lemma AnnounceKeepsDue(w: World, k: nat, minted: string)
    requires Sound(w) && k < |w.calls| && w.calls[k].pc.Announce?
    ensures var t := Advanced(w, k, minted);
      forall x :: multiset(t.broadcasts)[x] == Due(t, x)
  {
    var id := w.calls[k].pc.id;
    var t := Advanced(w, k, minted);
    assert CallIsRecorded(w, k);
    forall x
      ensures multiset(t.broadcasts)[x] == Due(t, x)
    {
      assert multiset(w.broadcasts)[x] == Due(w, x);
      assert RowAt(w.rows, x) < |w.rows| ==> RowIsAuthored(w, RowAt(w.rows, x));
    }
  }

  lemma {:induction false} ExecuteKeepsSound(steps: seq<Step>)
    requires AllProper(steps)
    ensures Sound(Execute(steps))
  {
    if steps == [] {
    } else {
      var init, last := steps[..|steps| - 1], steps[|steps| - 1];
      ExecuteKeepsSound(init);
      var w := Execute(init);
      match last
      case Project(r) => ProjectKeepsSound(w, r);
      case OtherInsert(row) => OtherInsertKeepsSound(w, row);
      case Advance(k, minted) =>
        if k < |w.calls| {
          match w.calls[k].pc
          case Begin => BeginKeepsSound(w, k, minted);
          case Insert(_) => InsertKeepsSound(w, k, minted);
          case Announce(_) => AnnounceKeepsSound(w, k, minted);
          case Done(_) =>
        }
    }
  }

  // ---- Keys ----

  /** The first colon of a string; its length when there is none. */
  function FirstColon(s: string): (i: nat)
    ensures i <= |s|
    ensures i < |s| ==> s[i] == ':'
    ensures forall j :: 0 <= j < i ==> s[j] != ':'
  {
    if s == "" || s[0] == ':' then 0 else 1 + FirstColon(s[1..])
  }

  lemma ColonAfter(a: string, x: string)
    requires ':' !in a
    ensures FirstColon(a + ":" + x) == |a|
  {
    var s := a + ":" + x;
    assert s[|a|] == ':';
    assert forall j :: 0 <= j < |a| ==> s[j] == a[j];
  }

  lemma SplitAtColon(a: string, x: string, b: string, y: string)
    requires ':' !in a && ':' !in b && a + ":" + x == b + ":" + y
    ensures a == b && x == y
  {
    ColonAfter(a, x);
    ColonAfter(b, y);
    var s := a + ":" + x;
    assert a == s[..|a|] && b == s[..|a|];
    assert x == s[|a| + 1..] && y == s[|a| + 1..];
  }

  lemma CancelPrefix(p: string, x: string, y: string)
    requires p + x == p + y
    ensures x == y
  {
    assert x == (p + x)[|p|..] && y == (p + y)[|p|..];
  }

  lemma KeyShape(t: string, m: string, c: string)
    ensures TeammateKey(t, m, c) == "team:" + (t + ":" + ("mailbox:" + (m + ":" + ("conversation:" + c))))
  {
    var tail := ":conversation:" + c;
    assert tail == ":" + ("conversation:" + c);
    assert "team:" + t + ":mailbox:" == "team:" + (t + ":") + "mailbox:";
    assert TeammateKey(t, m, c) == "team:" + (t + ":") + "mailbox:" + m + tail;
  }

  /** Team and mailbox ids without a colon, as all generated ids are, make keys of different messages differ. */
  lemma KeysTellMessagesApart(t1: string, m1: string, c1: string, t2: string, m2: string, c2: string)
    requires ':' !in t1 && ':' !in m1 && ':' !in t2 && ':' !in m2
    ensures TeammateKey(t1, m1, c1) == TeammateKey(t2, m2, c2) <==> t1 == t2 && m1 == m2 && c1 == c2
  {
    if TeammateKey(t1, m1, c1) == TeammateKey(t2, m2, c2) {
      KeyShape(t1, m1, c1);
      KeyShape(t2, m2, c2);
      var y1, y2 := "conversation:" + c1, "conversation:" + c2;
      var x1, x2 := "mailbox:" + (m1 + ":" + y1), "mailbox:" + (m2 + ":" + y2);
      CancelPrefix("team:", t1 + ":" + x1, t2 + ":" + x2);
      SplitAtColon(t1, x1, t2, x2);
      CancelPrefix("mailbox:", m1 + ":" + y1, m2 + ":" + y2);
      SplitAtColon(m1, y1, m2, y2);
      CancelPrefix("conversation:", c1, c2);
    }
  }

  /** Without that, keys of different messages can be the same string. */
  lemma KeysCanClash(a: string, b: string, c: string, conversation: string)
    ensures TeammateKey(a + ":mailbox:" + b, c, conversation) == TeammateKey(a, b + ":mailbox:" + c, conversation)
    ensures TeammateKey(a, b, c + ":conversation:" + conversation) ==
      TeammateKey(a, b + ":conversation:" + c, conversation)
  {
  }

  // ---- What every run promises ----

  /** At most one row exists for a mailbox message in a conversation, however many calls project it. */
  lemma AtMostOneRow(steps: seq<Step>, i: nat, j: nat, key: string)
    requires AllProper(steps) && !Generated(key)
    requires var w := Execute(steps);
      i < |w.rows| && j < |w.rows| && w.rows[i].msgId == Some(key) && w.rows[j].msgId == Some(key)
    ensures i == j
  {
    ExecuteKeepsSound(steps);
    var w := Execute(steps);
    assert RowIsAuthored(w, i) && RowIsAuthored(w, j);
  }

  /** An id is announced at most once, and exactly once when a teammate or system projection has inserted its row and
    * returned; nothing else is announced. */
  lemma AnnouncedExactlyWhenInserted(steps: seq<Step>, id: string)
    requires AllProper(steps)
    ensures var w := Execute(steps);
      var announced := multiset(w.broadcasts)[id];
      && announced <= 1
      && (announced == 1 <==>
            exists k :: 0 <= k < |w.calls| && w.calls[k].pc == Done(Inserted(id)) && !w.calls[k].request.source.User?)
  {
    ExecuteKeepsSound(steps);
    var w := Execute(steps);
    assert multiset(w.broadcasts)[id] == Due(w, id);
    var i := RowAt(w.rows, id);
    if i < |w.rows| {
      assert RowIsAuthored(w, i);
    }
    if k :| 0 <= k < |w.calls| && w.calls[k].pc == Done(Inserted(id)) && !w.calls[k].request.source.User? {
      assert CallIsRecorded(w, k);
    }
  }

  /** Every visible projection of a mailbox message that has returned, even with a conflict, leaves the row of that
    * very message in its conversation, built by one of the calls for it. */
  lemma ReturnedCallsLeaveTheirRow(steps: seq<Step>, k: nat)
    requires AllProper(steps)
    requires var w := Execute(steps);
      && (forall j :: 0 <= j < |w.calls| ==> ':' !in w.calls[j].request.team)
      && (forall j :: 0 <= j < |w.calls| && w.calls[j].request.mailbox.Some? ==>
            ':' !in w.calls[j].request.mailbox.value)
      && k < |w.calls| && w.calls[k].pc.Done? && w.calls[k].request.Visible() && w.calls[k].request.mailbox.Some?
    ensures var w := Execute(steps);
      var r := w.calls[k].request;
      var i := RowAt(w.rows, r.Key().value);
      && i < |w.rows| == |w.authors| && w.authors[i].Some? && w.authors[i].value < |w.calls|
      && var winner := w.calls[w.authors[i].value].request;
         && w.rows[i] == BuildRow(winner, r.Key().value)
         && winner.team == r.team && winner.mailbox == r.mailbox && winner.conversation == r.conversation
  {
    ExecuteKeepsSound(steps);
    var w := Execute(steps);
    var r := w.calls[k].request;
    KeysAreNotGenerated(r);
    assert CallIsRecorded(w, k);
    var i := RowAt(w.rows, r.Key().value);
    assert RowIsAuthored(w, i);
    var writer := w.authors[i].value;
    assert CallIsRecorded(w, writer);
    var winner := w.calls[writer].request;
    assert winner.Key() == r.Key();
    KeysTellMessagesApart(winner.team, winner.mailbox.value, winner.conversation, r.team, r.mailbox.value,
      r.conversation);
  }

  /** The requests made in a run, in order. */
  function Requests(steps: seq<Step>): seq<Request> {
    if steps == [] then []
    else
      var before, last := Requests(steps[..|steps| - 1]), steps[|steps| - 1];
      if last.Project? then before + [last.request] else before
  }

  /** Every request has its call, and keeps it. */
  lemma {:induction false} CallsAreTheRequests(steps: seq<Step>)
    ensures |Execute(steps).calls| == |Requests(steps)|
    ensures forall k :: 0 <= k < |Requests(steps)| ==> Execute(steps).calls[k].request == Requests(steps)[k]
  {
    if steps == [] {
    } else {
      CallsAreTheRequests(steps[..|steps| - 1]);
    }
  }

  /** In every run a row that a call inserted is the row of its request: in its conversation, under its key if it has
    * one, with its content and its flag, on the right for the user and on the left, with the sender, for others. */
  lemma RowsAreOfTheirRequests(steps: seq<Step>, i: nat)
    requires AllProper(steps)
    requires var w := Execute(steps); i < |w.rows| && i < |w.authors| && w.authors[i].Some?
    ensures var w := Execute(steps);
      && w.authors[i].value < |w.calls|
      && var row, r := w.rows[i], w.calls[w.authors[i].value].request;
         && row.conversation == r.conversation && row.content == r.content && row.hidden == r.visibility.hidden
         && row.kind == "text" && row.msgId == Some(row.id)
         && (r.mailbox.Some? ==> row.id == TeammateKey(r.team, r.mailbox.value, r.conversation))
         && (row.position == Right <==> r.source.User?)
         && (row.sender == match r.source
               case User => None
               case TeamSystem => Some("team_system")
               case Teammate(_, name) => Some(name))
         && (if r.source.User? then r.visibility.userBubble else r.visibility.teammateBubble)
  {
    ExecuteKeepsSound(steps);
    AuthorsAreVisible(steps);
    var w := Execute(steps);
    assert RowIsAuthored(w, i);
    assert CallIsRecorded(w, w.authors[i].value);
  }

  /** A call that has inserted a row was visible. */
  lemma {:induction false} AuthorsAreVisible(steps: seq<Step>)
    ensures forall k :: 0 <= k < |Execute(steps).calls| ==>
      var c := Execute(steps).calls[k];
      c.pc.Insert? || c.pc.Announce? || (c.pc.Done? && !c.pc.result.Skipped?) ==> c.request.Visible()
  {
    if steps == [] {
    } else {
      AuthorsAreVisible(steps[..|steps| - 1]);
    }
  }

  /** A call that has returned was skipped exactly when its request asks for no bubble; any other one leaves a row with
    * its key or, without a key, with the id it was given. */
  lemma SkippedIff(steps: seq<Step>, k: nat)
    requires AllProper(steps) && k < |Execute(steps).calls| && Execute(steps).calls[k].pc.Done?
    ensures var w := Execute(steps);
      var r, result := w.calls[k].request, w.calls[k].pc.result;
      && (result.Skipped? <==> !(if r.source.User? then r.visibility.userBubble else r.visibility.teammateBubble))
      && (!result.Skipped? ==> RowAt(w.rows, result.id) < |w.rows|)
  {
    ExecuteKeepsSound(steps);
    AuthorsAreVisible(steps);
    assert CallIsRecorded(Execute(steps), k);
  }

  /** A conflict means that another call for the same key inserted the row after this one had looked. */
  lemma ConflictMeansAnotherCallWon(steps: seq<Step>, k: nat, id: string)
    requires AllProper(steps)
    requires var w := Execute(steps);
      k < |w.calls| && w.calls[k].pc == Done(Conflict(id)) && w.calls[k].request.mailbox.Some?
    ensures var w := Execute(steps);
      exists j :: 0 <= j < |w.calls| && j != k && HasInserted(w.calls[j], id) &&
        w.calls[j].request.Key() == w.calls[k].request.Key()
  {
    ExecuteKeepsSound(steps);
    var w := Execute(steps);
    KeysAreNotGenerated(w.calls[k].request);
    assert CallIsRecorded(w, k);
    var i := RowAt(w.rows, id);
    assert RowIsAuthored(w, i);
    assert CallIsRecorded(w, w.authors[i].value);
  }
}
