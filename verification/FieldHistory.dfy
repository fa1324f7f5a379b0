/** What a client reads back: each field of a row holds what the last successful call that set it has set it to. */
module FieldHistory {
  import opened Types
  import opened Requests
  import opened Shared
  import opened Isolation
  import opened Replay
  import opened Contracts
  import Private

  function Field(rows: map<Id, Entity>, id: Id, f: string): Option<Json> {
    if id in rows && f in DataOr(rows[id].data) then Some(DataOr(rows[id].data)[f]) else None
  }

  ghost predicate Succeeds(v: Private.View, c: Call) {
    var reply := Private.Step(v, c).1;
    !reply.Failed? && !reply.Panicked?
  }

  /** The call successfully brings the row into being. */
  ghost predicate Creates(v: Private.View, c: Call, id: Id) {
    Succeeds(v, c) && ((c.req.EntityCreate? && c.id1 == id) || (Defines(c) && DefinitionId(c) == id))
  }

  /** The first default declared for a field. */
  ghost function DefaultOf(defs: seq<FieldDef>, f: string): Option<Json> {
    if HasDefault(defs, f) then
      var i :| FirstDefault(defs, i, f);
      Some(defs[i].default)
    else None
  }

  /** What a creating request gives to a field: the value it names, or else, unless its map is nil, the first default; for a
      definition what the definition says. */
  ghost function FirstGiven(v: Private.View, c: Call, f: string): Option<Json>
    requires c.req.EntityCreate? || Defines(c)
  {
    if Defines(c) then
      var written := DefinitionData(c.req.kind, DefinedType(c));
      if f in written then Some(written[f]) else None
    else
      match c.req.fields
      case None => None
      case Some(given) =>
        if f in given then Some(given[f])
        else if c.req.etype in v.etypes then DefaultOf(v.etypes[c.req.etype].fields, f)
        else None
  }

  /** The value the field was last given: by the creation of the row, or by an update since that names the field. */
  ghost function LastGiven(v: Private.View, calls: seq<Call>, id: Id, f: string): Option<Json> {
    if calls == [] then None
    else
      var before, c := calls[..|calls| - 1], calls[|calls| - 1];
      var u := Private.Exec(v, before);
      if Creates(u, c, id) then FirstGiven(u, c, f)
      else if c.req.EntityUpdate? && c.req.id == id && f in c.req.changes && Succeeds(u, c) then Some(c.req.changes[f])
      else LastGiven(v, before, id, f)
  }

  /** The time of the last successful archive since the row was created. */
  ghost function LastArchived(v: Private.View, calls: seq<Call>, id: Id): Option<Time> {
    if calls == [] then None
    else
      var before, c := calls[..|calls| - 1], calls[|calls| - 1];
      var u := Private.Exec(v, before);
      if Creates(u, c, id) then None
      else if c.req.EntityArchive? && c.req.id == id && Succeeds(u, c) then Some(c.now)
      else LastArchived(v, before, id)
  }

  ghost predicate Created(v: Private.View, calls: seq<Call>, id: Id) {
    exists i :: 0 <= i < |calls| && Creates(Private.Exec(v, calls[..i]), calls[i], id)
  }

  function ArchivedAt(rows: map<Id, Entity>, id: Id): Option<Time> {
    if id in rows then rows[id].archivedAt else None
  }

  /** What one call does to one row, seen field by field. */
  ghost predicate Effect(v: Private.View, c: Call, id: Id, f: string) {
    var u := Private.Step(v, c).0;
    && (id in u.rows <==> id in v.rows || Creates(v, c, id))
    && Field(u.rows, id, f) == (if Creates(v, c, id) then FirstGiven(v, c, f)
                                else if c.req.EntityUpdate? && c.req.id == id && f in c.req.changes && Succeeds(v, c) then Some(c.req.changes[f])
                                else Field(v.rows, id, f))
    && ArchivedAt(u.rows, id) == (if Creates(v, c, id) then None
                                  else if c.req.EntityArchive? && c.req.id == id && Succeeds(v, c) then Some(c.now)
                                  else ArchivedAt(v.rows, id))
  }

  lemma CreateEffect(v: Private.View, c: Call, id: Id, f: string)
    requires c.req.EntityCreate? && v.registered
    ensures Effect(v, c, id, f)
  {
    hide Private.Step, LogsOne, Signed, Attributed, LacksRequired, FirstDefault, DefinitionData;
    CreateMeets(v, c);
    if Creates(v, c, id) {
      var defs := v.etypes[c.req.etype].fields;
      var e: Entity :| Requested(c, defs, e) && Private.Step(v, c).1 == EntityReply(e) &&
        Private.Step(v, c).0.rows == v.rows[c.id1 := e.(data := Some(GivenFields(e.data)))];
      assert c.req.fields.Some? ==> InitialField(defs, c.req.fields.value, e.data.value, f);
    }
  }

  lemma UpdateEffect(v: Private.View, c: Call, id: Id, f: string)
    requires c.req.EntityUpdate? && v.registered
    ensures Effect(v, c, id, f)
  {
    hide DefinitionData, DefinitionAuthor;
  }

  lemma ArchiveEffect(v: Private.View, c: Call, id: Id, f: string)
    requires c.req.EntityArchive? && v.registered
    ensures Effect(v, c, id, f)
  {
    hide DefinitionData, DefinitionAuthor;
  }

  lemma DefineWrites(v: Private.View, c: Call)
    requires Defines(c)
    ensures var r := Private.Define(v, c);
      || (r.1 == TypeReply(DefinedType(c)) && r.0.rows == v.rows[DefinitionId(c) := DefinitionEntity(c)])
      || (r.1.Failed? && r.0.rows == v.rows)
  {
    hide DefinitionData, DefinitionEvent, DefinedType, DefinitionAuthor;
  }

  lemma DefineEffect(v: Private.View, c: Call, id: Id, f: string)
    requires Defines(c) && (v.registered || c.req.SeedType?)
    ensures Effect(v, c, id, f)
  {
    hide DefinitionEntity, DefinitionData, DefinedType, DefinitionId, Private.Define;
    DefinitionRow(c);
    DefineWrites(v, c);
    assert Private.Step(v, c) == Private.Define(v, c);
  }

  lemma OtherEffect(v: Private.View, c: Call, id: Id, f: string)
    requires !c.req.EntityCreate? && !c.req.EntityUpdate? && !c.req.EntityArchive? && !Defines(c)
    ensures Effect(v, c, id, f)
  {
    hide DefinitionData, DefinitionAuthor, Private.Read;
  }

  lemma StepEffect(v: Private.View, c: Call, id: Id, f: string)
    ensures Effect(v, c, id, f)
  {
    if !v.registered && !c.req.SeedType? {
    } else if c.req.EntityCreate? {
      CreateEffect(v, c, id, f);
    } else if c.req.EntityUpdate? {
      UpdateEffect(v, c, id, f);
    } else if c.req.EntityArchive? {
      ArchiveEffect(v, c, id, f);
    } else if Defines(c) {
      DefineEffect(v, c, id, f);
    } else {
      OtherEffect(v, c, id, f);
    }
  }

  lemma CreatedStep(v: Private.View, calls: seq<Call>, id: Id)
    requires calls != []
    ensures Created(v, calls, id) <==>
      Created(v, calls[..|calls| - 1], id) || Creates(Private.Exec(v, calls[..|calls| - 1]), calls[|calls| - 1], id)
  {
    hide Creates, Private.Exec;
    var n, before := |calls| - 1, calls[..|calls| - 1];
    if Created(v, before, id) {
      var i :| 0 <= i < n && Creates(Private.Exec(v, before[..i]), before[i], id);
      assert before[..i] == calls[..i];
    }
    if Created(v, calls, id) {
      var i :| 0 <= i < |calls| && Creates(Private.Exec(v, calls[..i]), calls[i], id);
      if i < n { assert before[..i] == calls[..i]; }
    }
  }

  lemma {:induction false} PrivateHistory(v: Private.View, calls: seq<Call>, id: Id, f: string)
    requires v.rows == map[]
    ensures var rows := Private.Exec(v, calls).rows;
      && (id in rows <==> Created(v, calls, id))
      && Field(rows, id, f) == LastGiven(v, calls, id, f)
      && ArchivedAt(rows, id) == LastArchived(v, calls, id)
  {
    hide Private.Step, FirstGiven, Succeeds, Creates;
    if calls != [] {
      var before := calls[..|calls| - 1];
      PrivateHistory(v, before, id, f);
      StepEffect(Private.Exec(v, before), calls[|calls| - 1], id, f);
      CreatedStep(v, calls, id);
    }
  }

  /** Through the shared tables, whatever other peers do and whichever calls fail on the way: a peer's row exists once
      created, each of its fields holds the value last given to it, and it is archived as of its last archive. */
  lemma RowsHoldLastWrites(w: World, calls: seq<Call>, peer: Did, id: Id, f: string)
    requires Fresh(w) && Clocked(calls, NO_ID) && Addressed(calls) && peer != ""
    ensures var rows, v, mine := RowsOf(Exec(w, calls).rows, peer), ViewOf(w, peer), CallsTo(calls, peer);
      && (id in rows <==> Created(v, mine, id))
      && Field(rows, id, f) == LastGiven(v, mine, id, f)
      && ArchivedAt(rows, id) == LastArchived(v, mine, id)
  {
    hide Exec, Private.Exec, LastGiven, LastArchived, Created;
    RunRefines(w, calls, peer, NO_ID);
    PrivateHistory(ViewOf(w, peer), CallsTo(calls, peer), id, f);
  }
}
