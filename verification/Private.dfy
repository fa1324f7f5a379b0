/** The reference semantics of one peer: the same operations on tables that hold nothing
    but that peer's data, with no peer checks at all. */
module Private {
  import opened Types
  import opened Requests
  import opened EventLog
  import opened Queries
  import Definitions

  datatype View = View(
    peer: Did,
    registered: bool,
    log: seq<Event>,
    rows: map<Id, Entity>,
    rels: map<Id, Relation>,
    etypes: map<string, TypeDef>,
    rtypes: map<string, TypeDef>,
    jsonText: Json -> string)

  /** The write path: with `ok` the row write succeeds on its own terms. */
  function Commit(v: View, ev: Event, fault: Fault, ok: bool, written: View, done: Reply): (View, Reply) {
    if fault.AppendFails? then (v, Failed(AppendError))
    else if fault.WriteFails? || !ok then (v.(log := v.log + [ev]), Failed(WriteError))
    else (written.(log := v.log + [ev]), done)
  }

  function Create(v: View, c: Call): (View, Reply)
    requires c.req.EntityCreate?
  {
    if c.req.etype !in v.etypes then (v, Failed(UnknownType))
    else
      var (data, ok) := Validated(v.etypes[c.req.etype], c.req.fields);
      if !ok then (v, Failed(Invalid))
      else
        var e := CreatedEntity(c, data);
        Commit(v, CreateEvent(c, data), c.fault, true, v.(rows := v.rows[e.id := Row(e)]), EntityReply(e))
  }

  function Update(v: View, c: Call): (View, Reply)
    requires c.req.EntityUpdate?
  {
    if c.req.id !in v.rows then (v, Panicked)
    else
      var e := Merged(v.rows[c.req.id], c.req.changes, c.now);
      Commit(v, UpdateEvent(c, v.rows[c.req.id]), c.fault, true, v.(rows := v.rows[c.req.id := e]), EntityReply(e))
  }

  function Archive(v: View, c: Call): (View, Reply)
    requires c.req.EntityArchive?
  {
    var id := c.req.id;
    var ok := id in v.rows;
    var written := if ok then v.(rows := v.rows[id := v.rows[id].(archivedAt := Some(c.now), updatedAt := c.now)]) else v;
    Commit(v, ArchiveEvent(c), c.fault, ok, written, StampReply(id, c.now))
  }

  predicate ProperEndpoints(c: Call)
    requires c.req.RelationCreate?
  {
    c.req.from != NO_ID && c.req.to != NO_ID && c.req.rtype != ""
  }

  function Relate(v: View, c: Call): (View, Reply)
    requires c.req.RelationCreate?
  {
    if c.req.rtype !in v.rtypes then (v, Failed(UnknownType))
    else
      var r := CreatedRelation(c);
      Commit(v, RelationEvent(c), c.fault, ProperEndpoints(c), v.(rels := v.rels[r.id := RelationRow(r)]), RelationReply(r))
  }

  function Dissolve(v: View, c: Call): (View, Reply)
    requires c.req.RelationDissolve?
  {
    Commit(v, DissolveEvent(c), c.fault, c.req.id in v.rels, v.(rels := v.rels - {c.req.id}), StampReply(c.req.id, c.now))
  }

  function Register(v: View, k: Kind, def: TypeDef): View {
    if k.EntityKind? then v.(etypes := v.etypes[def.name := def]) else v.(rtypes := v.rtypes[def.name := def])
  }

  function Define(v: View, c: Call): (View, Reply)
    requires Defines(c)
  {
    var u := Register(v, c.req.kind, DefinedType(c));
    var e := DefinitionEntity(c);
    Commit(u, DefinitionEvent(c), c.fault, true, u.(rows := u.rows[e.id := e]), TypeReply(DefinedType(c)))
  }

  function Describe(v: View, c: Call): Reply
    requires c.req.TypeDescribe?
  {
    var defs := if c.req.kind.EntityKind? then v.etypes else v.rtypes;
    if c.req.name in defs then TypeReply(defs[c.req.name]) else Failed(UnknownType)
  }

  ghost function Read(v: View, c: Call): Reply {
    match c.req
    case EntityGet(id) => if id in v.rows then EntityReply(v.rows[id]) else NoEntity
    case EntityList(q) => EntitiesReply(QueryEntities(v.rows, c.target, q, v.jsonText))
    case RelationList(from, to, rtype, limit) => RelationsReply(QueryRelations(v.rels, c.target, from, to, rtype, limit))
    case TypeList => TypesReply(ByName(v.etypes), ByName(v.rtypes))
    case TypeDescribe(_, _) => Describe(v, c)
    case TimeTravelTo(q, asOf) => EntitiesReply(TimeTravel(v.log, c.target, q, asOf))
    case _ => Failed(BadOp)
  }

  /** A restart keeps the tables and rebuilds the types from them, if the peer is served. */
  ghost function Restart(v: View, listed: map<Did, Seeds>): (View, Reply) {
    (if v.peer in listed && "" !in listed then
       v.(registered := true,
          etypes := Definitions.Rehydrated(v.rows, v.peer, EntityKind, listed[v.peer].etypes, v.jsonText),
          rtypes := Definitions.Rehydrated(v.rows, v.peer, RelationKind, listed[v.peer].rtypes, v.jsonText))
     else v.(registered := false, etypes := map[], rtypes := map[]),
     if "" in listed then Failed(BadPeer) else Reopened)
  }

  ghost function Step(v: View, c: Call): (View, Reply) {
    if c.req.Reopen? then Restart(v, c.req.listed)
    else if c.req.Join? then
      if v.peer == "" || v.registered then (v, Failed(BadPeer)) else (v.(registered := true), Joined)
    else if !v.registered && !c.req.SeedType? then (v, Failed(NoHandler))
    else
      match c.req
      case EntityCreate(_, _, _, _) => Create(v, c)
      case EntityUpdate(_, _, _, _) => Update(v, c)
      case EntityArchive(_, _, _) => Archive(v, c)
      case RelationCreate(_, _, _, _, _, _) => Relate(v, c)
      case RelationDissolve(_, _, _) => Dissolve(v, c)
      case TypeDefine(_, _, _, _, _, _, _) => Define(v, c)
      case SeedType(_, _, _) => Define(v, c)
      case _ => (v, Read(v, c))
  }

  ghost function Exec(v: View, calls: seq<Call>): View {
    if calls == [] then v
    else Step(Exec(v, calls[..|calls| - 1]), calls[|calls| - 1]).0
  }

  ghost function Replies(v: View, calls: seq<Call>): seq<Reply> {
    if calls == [] then []
    else
      var before, c := calls[..|calls| - 1], calls[|calls| - 1];
      Replies(v, before) + [Step(Exec(v, before), c).1]
  }

  /** From `v` to `u` at most the event `ev` is logged, and neither the peer nor the JSON encoding changes. */
  ghost predicate Logs(v: View, u: View, ev: Event) {
    u.peer == v.peer && u.jsonText == v.jsonText && (u.log == v.log || u.log == v.log + [ev])
  }

  lemma CommitLogs(v: View, ev: Event, fault: Fault, ok: bool, written: View, done: Reply)
    requires written.peer == v.peer && written.jsonText == v.jsonText
    ensures var u := Commit(v, ev, fault, ok, written, done).0;
      Logs(v, u, ev) && (u.rels == v.rels || u.rels == written.rels)
  {
  }

  lemma CreateLogs(v: View, c: Call, data: Option<Data>)
    requires c.req.EntityCreate? && (c.req.etype in v.etypes ==> data == Validated(v.etypes[c.req.etype], c.req.fields).0)
    ensures Logs(v, Create(v, c).0, CreateEvent(c, data)) && Create(v, c).0.rels == v.rels
  {
    hide Commit, Validated, CreateEvent, CreatedEntity;
    var e := CreatedEntity(c, data);
    CommitLogs(v, CreateEvent(c, data), c.fault, true, v.(rows := v.rows[e.id := Row(e)]), EntityReply(e));
  }

  lemma UpdateLogs(v: View, c: Call)
    requires c.req.EntityUpdate? && c.req.id in v.rows
    ensures Logs(v, Update(v, c).0, UpdateEvent(c, v.rows[c.req.id])) && Update(v, c).0.rels == v.rels
  {
    hide Commit, UpdateEvent, Merged;
    var e := Merged(v.rows[c.req.id], c.req.changes, c.now);
    CommitLogs(v, UpdateEvent(c, v.rows[c.req.id]), c.fault, true, v.(rows := v.rows[c.req.id := e]), EntityReply(e));
  }

  lemma ArchiveLogs(v: View, c: Call)
    requires c.req.EntityArchive?
    ensures Logs(v, Archive(v, c).0, ArchiveEvent(c)) && Archive(v, c).0.rels == v.rels
  {
  }

  lemma RelateLogs(v: View, c: Call)
    requires c.req.RelationCreate?
    ensures Logs(v, Relate(v, c).0, RelationEvent(c))
  {
    hide RelationEvent, CreatedRelation;
  }

  lemma DissolveLogs(v: View, c: Call)
    requires c.req.RelationDissolve?
    ensures Logs(v, Dissolve(v, c).0, DissolveEvent(c))
  {
    hide DissolveEvent;
  }

  lemma DefineLogs(v: View, c: Call)
    requires Defines(c)
    ensures Logs(v, Define(v, c).0, DefinitionEvent(c)) && Define(v, c).0.rels == v.rels
  {
    hide DefinitionEvent, DefinitionEntity, DefinedType, Commit;
    var u, e := Register(v, c.req.kind, DefinedType(c)), DefinitionEntity(c);
    CommitLogs(u, DefinitionEvent(c), c.fault, true, u.(rows := u.rows[e.id := e]), TypeReply(DefinedType(c)));
  }

  /** The event a call would log, if it logs any. */
  function EventOf(v: View, c: Call): Event {
    match c.req
    case EntityCreate(etype, fields, _, _) =>
      CreateEvent(c, if etype in v.etypes then Validated(v.etypes[etype], fields).0 else None)
    case EntityUpdate(id, _, _, _) =>
      if id in v.rows then UpdateEvent(c, v.rows[id]) else NewEvent(c, c.id1, EntityUpdated, Unreadable, "", "")
    case EntityArchive(_, _, _) => ArchiveEvent(c)
    case RelationCreate(_, _, _, _, _, _) => RelationEvent(c)
    case RelationDissolve(_, _, _) => DissolveEvent(c)
    case TypeDefine(_, _, _, _, _, _, _) => DefinitionEvent(c)
    case SeedType(_, _, _) => DefinitionEvent(c)
    case _ => NewEvent(c, c.id1, EntityUpdated, Unreadable, "", "")
  }

  lemma EventStamped(v: View, c: Call)
    ensures EventOf(v, c).peer == c.target && EventOf(v, c).timestamp == c.now
    ensures EventOf(v, c).etype.RelationCreated? ==> c.req.RelationCreate?
    ensures EventOf(v, c).etype.RelationDissolved? ==> c.req.RelationDissolve?
  {
    hide Validated, DefinitionAuthor, DefinedType;
  }

  /** A call logs one event at most, of its peer and at its time; only relation calls log relation events, and only they
      touch the relations. */
  lemma StepLogs(v: View, c: Call) returns (ev: Event)
    ensures Logs(v, Step(v, c).0, ev)
    ensures ev.peer == c.target && ev.timestamp == c.now
    ensures c.req.RelationCreate? || c.req.RelationDissolve? ||
      (!ev.etype.RelationCreated? && !ev.etype.RelationDissolved? && Step(v, c).0.rels == v.rels)
  {
    ev := EventOf(v, c);
    EventStamped(v, c);
    hide Create, Update, Archive, Relate, Dissolve, Define, Validated, Read, CreateEvent, UpdateEvent, ArchiveEvent, RelationEvent,
      DissolveEvent, DefinitionEvent;
    if c.req.Reopen? || c.req.Join? || !(v.registered || c.req.SeedType?) {
    } else if c.req.EntityCreate? {
      CreateLogs(v, c, if c.req.etype in v.etypes then Validated(v.etypes[c.req.etype], c.req.fields).0 else None);
    } else if c.req.EntityUpdate? {
      if c.req.id in v.rows { UpdateLogs(v, c); } else { UpdateMissing(v, c); }
    } else if c.req.EntityArchive? {
      ArchiveLogs(v, c);
    } else if c.req.RelationCreate? {
      RelateLogs(v, c);
    } else if c.req.RelationDissolve? {
      DissolveLogs(v, c);
    } else if Defines(c) {
      DefineLogs(v, c);
    }
  }

  lemma UpdateMissing(v: View, c: Call)
    requires c.req.EntityUpdate? && c.req.id !in v.rows
    ensures Update(v, c).0 == v
  {
  }

  lemma {:induction false} ExecKeeps(v: View, calls: seq<Call>)
    ensures Exec(v, calls).peer == v.peer && Exec(v, calls).jsonText == v.jsonText
  {
    hide Step;
    if calls != [] {
      var before := calls[..|calls| - 1];
      ExecKeeps(v, before);
      var ev := StepLogs(Exec(v, before), calls[|calls| - 1]);
    }
  }
}
