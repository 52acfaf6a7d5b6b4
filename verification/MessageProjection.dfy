/** The message store and the projection of one request over it, as one call runs them. */
module MessageProjections {
  import opened Wrappers
  import opened Projection

  /** What a call that runs without interruption makes of the rows and announcements, and what it returns. */
  function Uninterrupted(rows: seq<Row>, broadcasts: seq<string>, r: Request, minted: string)
      : (seq<Row>, seq<string>, Result)
  {
    var id := if r.Key().Some? then r.Key().value else minted;
    if !r.Visible() then (rows, broadcasts, Skipped)
    else if r.Key().Some? && FindByMsgId(rows, r.conversation, id, TEXT) < |rows| then
      (rows, broadcasts, AlreadyProjected(id))
    else if RowAt(rows, id) < |rows| then (rows, broadcasts, Conflict(id))
    else (rows + [BuildRow(r, id)], if r.source.User? then broadcasts else broadcasts + [id], Inserted(id))
  }

  /** One call from beginning to end with nothing in between is three steps of that call. */
  lemma UninterruptedIsThreeSteps(w: World, k: nat, minted: string)
    requires k < |w.calls| && w.calls[k].pc == Begin
    ensures var t := Advanced(Advanced(Advanced(w, k, minted), k, minted), k, minted);
      && t.calls[k].pc.Done?
      && (t.rows, t.broadcasts, t.calls[k].pc.result) == Uninterrupted(w.rows, w.broadcasts, w.calls[k].request, minted)
  {
    var one := Advanced(w, k, minted);
    if one.calls[k].pc.Insert? {
      var two := Advanced(one, k, minted);
      assert two.calls[k].pc.Done? || two.calls[k].pc.Announce?;
    }
  }

  class MessageStore {
    var rows: seq<Row>

    constructor ()
      ensures rows == []
    {
      rows := [];
    }

    /** Inserts a row unless one with its id is there, of whatever conversation. */
    method InsertMessage(row: Row) returns (ok: bool)
      modifies this
      ensures ok == (RowAt(old(rows), row.id) == |old(rows)|)
      ensures rows == if ok then old(rows) + [row] else old(rows)
    {
      var i := 0;
      while i < |rows| && rows[i].id != row.id
        invariant i <= |rows| && rows == old(rows)
        invariant forall j :: 0 <= j < i ==> rows[j].id != row.id
      {
        i := i + 1;
      }
      ok := i == |rows|;
      if ok {
        rows := rows + [row];
      }
    }

    method GetMessageByMsgId(conversation: string, msgId: string, kind: string) returns (found: Option<Row>)
      ensures var i := FindByMsgId(rows, conversation, msgId, kind);
        found == if i < |rows| then Some(rows[i]) else None
    {
      var i := 0;
      while i < |rows| && !Matches(rows[i], conversation, msgId, kind)
        invariant i <= |rows|
        invariant forall j :: 0 <= j < i ==> !Matches(rows[j], conversation, msgId, kind)
      {
        i := i + 1;
      }
      found := if i < |rows| then Some(rows[i]) else None;
    }
  }

  class TeamMessageProjection {
    const store: MessageStore
    var broadcasts: seq<string>

    constructor (store: MessageStore)
      ensures this.store == store && broadcasts == []
    {
      this.store, broadcasts := store, [];
    }

    method ProjectRequest(request: Request, minted: string) returns (result: Result)
      modifies this, store
      ensures (store.rows, broadcasts, result) == Uninterrupted(old(store.rows), old(broadcasts), request, minted)
    {
      if !request.Visible() {
        return Skipped;
      }
      var key := request.Key();
      var id := if key.Some? then key.value else minted;
      if key.Some? {
        var existing := store.GetMessageByMsgId(request.conversation, id, TEXT);
        if existing.Some? {
          return AlreadyProjected(existing.value.msgId.value);
        }
      }
      var ok := store.InsertMessage(BuildRow(request, id));
      if !ok {
        return Conflict(id);
      }
      if !request.source.User? {
        broadcasts := broadcasts + [id];
      }
      result := Inserted(id);
    }
  }
}
