/** The calls a peer answers, and what each write builds before it touches the store. */
module Requests {
  import opened Types

  /** The seed types of a peer. */
  datatype Seeds = Seeds(etypes: seq<TypeDef>, rtypes: seq<TypeDef>)

  /** What happens to the binary: the calls that peers answer, the seeding and registration of a peer that joins, and a
      restart on the existing tables, which serves the peers listed then. */
  datatype Request =
    | Join
    | Reopen(listed: map<Did, Seeds>)
    | EntityCreate(etype: string, fields: Option<Data>, author: Did, client: string)
    | EntityUpdate(id: Id, changes: Data, author: Did, client: string)
    | EntityArchive(id: Id, author: Did, client: string)
    | RelationCreate(from: Id, to: Id, rtype: string, rdata: Option<Data>, author: Did, client: string)
    | RelationDissolve(id: Id, author: Did, client: string)
    | TypeDefine(kind: Kind, name: string, description: string, defFields: seq<FieldDef>, directional: bool, author: Did, client: string)
    | SeedType(kind: Kind, def: TypeDef, client: string)
    | EntityGet(id: Id)
    | EntityList(query: EntityQuery)
    | RelationList(from: Id, to: Id, rtype: string, limit: int)
    | TypeList
    | TypeDescribe(kind: Kind, name: string)
    | TimeTravelTo(query: EntityQuery, asOf: Time)
    | UnknownOp

  /** How the storage behaves during a call: it works, or one of its two writes fails. */
  datatype Fault = Works | AppendFails | WriteFails

  /** A call with the clock reading and the fresh ids the handler will draw. */
  datatype Call = Call(target: Did, source: Did, req: Request, now: Time, id1: Id, id2: Id, fault: Fault)

  datatype Error =
    | BadPeer | NoHandler | UnknownType | Invalid | AppendError | WriteError | NotFound | BadOp

  datatype Reply =
    | EntityReply(entity: Entity)
    | NoEntity
    | EntitiesReply(entities: seq<Entity>)
    | RelationReply(relation: Relation)
    | RelationsReply(relations: seq<Relation>)
    | TypeReply(def: TypeDef)
    | TypesReply(etypes: seq<TypeDef>, rtypes: seq<TypeDef>)
    | StampReply(id: Id, at: Time)
    | Joined
    | Reopened
    | Failed(error: Error)
    | Panicked

  function Author(c: Call, author: Did): Did {
    Fallback(author, c.source, c.target)
  }

  function Client(client: string): string {
    Fallback(client, "federation", "")
  }

  /** Loose validation: defaults fill missing fields, a missing required field is an error. */
  function Validate(defs: seq<FieldDef>, fields: Data): (Data, bool) {
    if defs == [] then (fields, true)
    else
      var f := defs[0];
      if f.name in fields then Validate(defs[1..], fields)
      else if !f.default.Null? then Validate(defs[1..], fields[f.name := f.default])
      else (Validate(defs[1..], fields).0, !f.required && Validate(defs[1..], fields).1)
  }

  /** The `i`-th definition is the first of its field to have a default. */
  predicate FirstDefault(defs: seq<FieldDef>, i: int, name: string) {
    0 <= i < |defs| && defs[i].name == name && !defs[i].default.Null? &&
    forall j :: 0 <= j < i ==> defs[j].name != name || defs[j].default.Null?
  }

  /** The `i`-th definition requires a field that is neither given nor given a default before it is looked at. */
  predicate Missing(defs: seq<FieldDef>, i: int, fields: Data) {
    0 <= i < |defs| && defs[i].required && defs[i].default.Null? && defs[i].name !in fields &&
    forall j :: 0 <= j < i ==> defs[j].name != defs[i].name || defs[j].default.Null?
  }

  function Filled(f: FieldDef, fields: Data): Data {
    if f.name in fields || f.default.Null? then fields else fields[f.name := f.default]
  }

  lemma ValidateStep(defs: seq<FieldDef>, fields: Data)
    requires defs != []
    ensures var f, rest := defs[0], Validate(defs[1..], Filled(defs[0], fields));
      Validate(defs, fields) == (rest.0, rest.1 && !(f.name !in fields && f.default.Null? && f.required))
  {
  }

  lemma FirstDefaultStep(defs: seq<FieldDef>, i: nat, name: string)
    requires i < |defs|
    ensures FirstDefault(defs, i, name) <==>
      if i == 0 then defs[0].name == name && !defs[0].default.Null?
      else !FirstDefault(defs, 0, name) && FirstDefault(defs[1..], i - 1, name)
  {
    assert forall j :: 1 <= j < |defs| ==> defs[1..][j - 1] == defs[j];
  }

  lemma MissingStep(defs: seq<FieldDef>, i: nat, fields: Data)
    requires i < |defs|
    ensures Missing(defs, i, fields) <==>
      if i == 0 then defs[0].required && defs[0].default.Null? && defs[0].name !in fields
      else Missing(defs[1..], i - 1, Filled(defs[0], fields))
  {
    assert forall j :: 1 <= j < |defs| ==> defs[1..][j - 1] == defs[j];
  }

  ghost predicate HasDefault(defs: seq<FieldDef>, name: string) {
    exists i :: FirstDefault(defs, i, name)
  }

  ghost predicate LacksRequired(defs: seq<FieldDef>, fields: Data) {
    exists i :: Missing(defs, i, fields)
  }

  lemma HasDefaultStep(defs: seq<FieldDef>, name: string)
    requires defs != []
    ensures HasDefault(defs, name) <==> FirstDefault(defs, 0, name) || HasDefault(defs[1..], name)
  {
    if HasDefault(defs, name) {
      var i: nat :| FirstDefault(defs, i, name);
      FirstDefaultStep(defs, i, name);
    }
    if HasDefault(defs[1..], name) && !FirstDefault(defs, 0, name) {
      var i: nat :| FirstDefault(defs[1..], i, name);
      FirstDefaultStep(defs, i + 1, name);
    }
  }

  lemma LacksRequiredStep(defs: seq<FieldDef>, fields: Data)
    requires defs != []
    ensures LacksRequired(defs, fields) <==> Missing(defs, 0, fields) || LacksRequired(defs[1..], Filled(defs[0], fields))
  {
    if LacksRequired(defs, fields) {
      var i: nat :| Missing(defs, i, fields);
      MissingStep(defs, i, fields);
    }
    if LacksRequired(defs[1..], Filled(defs[0], fields)) {
      var i: nat :| Missing(defs[1..], i, Filled(defs[0], fields));
      MissingStep(defs, i + 1, fields);
    }
  }

  /** What validation does to one field: a given value stays, otherwise the first default fills it in, and nothing else
      changes; the fields are refused exactly when a required one is missing. */
  lemma {:induction false} ValidateMeaning(defs: seq<FieldDef>, fields: Data, name: string)
    ensures var filled := Validate(defs, fields).0;
      && (name in filled <==> name in fields || HasDefault(defs, name))
      && (name in fields ==> filled[name] == fields[name])
      && (name !in fields ==> forall i :: FirstDefault(defs, i, name) ==> name in filled && filled[name] == defs[i].default)
    ensures Validate(defs, fields).1 <==> !LacksRequired(defs, fields)
    decreases defs
  {
    if defs != [] {
      var rest, next := defs[1..], Filled(defs[0], fields);
      ValidateStep(defs, fields);
      ValidateMeaning(rest, next, name);
      HasDefaultStep(defs, name);
      LacksRequiredStep(defs, fields);
      MissingStep(defs, 0, fields);
      FirstDefaultStep(defs, 0, name);
      hide Validate;
      forall i: nat | name !in fields && FirstDefault(defs, i, name)
        ensures name in Validate(defs, fields).0 && Validate(defs, fields).0[name] == defs[i].default
      {
        FirstDefaultStep(defs, i, name);
      }
    }
  }

  /** Validation writes defaults into the caller's map; a nil map keeps none of them. */
  function Validated(def: TypeDef, fields: Option<Data>): (Option<Data>, bool) {
    var (filled, ok) := Validate(def.fields, DataOr(fields));
    (if fields.None? then None else Some(filled), ok)
  }

  function NewEntity(c: Call, id: Id, etype: string, author: Did, client: string, data: Option<Data>): Entity {
    Entity(id, etype, c.target, c.now, author, client, c.now, None, data)
  }

  function NewEvent(c: Call, id: Id, etype: EventType, payload: Payload, author: Did, client: string): Event {
    Event(id, c.target, etype, payload, c.now, author, client)
  }

  function Merged(row: Entity, changes: Data, now: Time): Entity {
    row.(data := Some(DataOr(row.data) + changes), updatedAt := now)
  }

  function CreatedEntity(c: Call, data: Option<Data>): Entity
    requires c.req.EntityCreate?
  {
    NewEntity(c, c.id1, c.req.etype, Author(c, c.req.author), Client(c.req.client), data)
  }

  function CreateEvent(c: Call, data: Option<Data>): Event
    requires c.req.EntityCreate?
  {
    NewEvent(c, c.id2, EntityCreated, EntityPayload(CreatedEntity(c, data)), Author(c, c.req.author), Client(c.req.client))
  }

  function UpdateEvent(c: Call, row: Entity): Event
    requires c.req.EntityUpdate?
  {
    NewEvent(c, c.id1, EntityUpdated, EntityPayload(Merged(row, c.req.changes, c.now)), Author(c, c.req.author), Client(c.req.client))
  }

  function ArchiveEvent(c: Call): Event
    requires c.req.EntityArchive?
  {
    NewEvent(c, c.id1, EntityArchived, ArchivePayload(c.req.id, c.now), Author(c, c.req.author), Client(c.req.client))
  }

  function CreatedRelation(c: Call): Relation
    requires c.req.RelationCreate?
  {
    Relation(c.id1, c.req.from, c.req.to, c.req.rtype, c.target, c.now, Author(c, c.req.author), Client(c.req.client), c.req.rdata)
  }

  function RelationEvent(c: Call): Event
    requires c.req.RelationCreate?
  {
    NewEvent(c, c.id2, RelationCreated, RelationPayload(CreatedRelation(c)), Author(c, c.req.author), Client(c.req.client))
  }

  function DissolveEvent(c: Call): Event
    requires c.req.RelationDissolve?
  {
    NewEvent(c, c.id1, RelationDissolved, DissolvePayload(c.req.id, c.now), Author(c, c.req.author), Client(c.req.client))
  }

  predicate Defines(c: Call) {
    c.req.TypeDefine? || c.req.SeedType?
  }

  function DefinedType(c: Call): TypeDef
    requires Defines(c)
  {
    match c.req
    case TypeDefine(k, name, desc, fields, dir, _, _) => TypeDef(name, c.target, fields, desc, k.RelationKind? && dir)
    case SeedType(_, def, _) => def
  }

  /** type.define draws the entity id first, seeding draws the event id first. */
  function DefinitionId(c: Call): Id
    requires Defines(c)
  {
    if c.req.TypeDefine? then c.id1 else c.id2
  }

  function DefinitionAuthor(c: Call): (Did, string)
    requires Defines(c)
  {
    if c.req.TypeDefine? then (Author(c, c.req.author), Client(c.req.client)) else (c.target, c.req.client)
  }

  function DefinitionEntity(c: Call): Entity
    requires Defines(c)
  {
    var (author, client) := DefinitionAuthor(c);
    NewEntity(c, DefinitionId(c), DefinitionType(c.req.kind), author, client, Some(DefinitionData(c.req.kind, DefinedType(c))))
  }

  lemma DefinitionRow(c: Call)
    requires Defines(c)
    ensures var e := DefinitionEntity(c);
      && e.etype == DefinitionType(c.req.kind) && e.id == DefinitionId(c) && e.peer == c.target && e.createdAt == c.now
      && e.archivedAt.None? && e.data == Some(DefinitionData(c.req.kind, DefinedType(c)))
  {
    hide DefinitionData, DefinitionAuthor;
  }

  function DefinitionEvent(c: Call): Event
    requires Defines(c)
  {
    var (author, client) := DefinitionAuthor(c);
    NewEvent(c, if c.req.TypeDefine? then c.id2 else c.id1,
             if c.req.kind.EntityKind? then EntityTypeDefined else RelationshipTypeDefined,
             DefinitionPayload(DefinedType(c)), author, client)
  }

  // ---- clock and identifiers ----

  /** The inputs the environment supplies to a run that starts after id `last`: fresh ids
      strictly increase, and the clock never goes back. */
  predicate Clocked(calls: seq<Call>, last: Id) {
    && (forall i :: 0 <= i < |calls| ==> calls[i].now > ZERO_TIME && last < calls[i].id1 < calls[i].id2)
    && (forall i, j :: 0 <= i < j < |calls| ==> calls[i].now <= calls[j].now && calls[i].id2 < calls[j].id1)
  }

  /** Every call but a restart names a peer. */
  predicate Addressed(calls: seq<Call>) {
    forall i :: 0 <= i < |calls| ==> calls[i].target != "" || calls[i].req.Reopen?
  }

  /** Restarts concern every peer, other calls the one they name. */
  predicate Concerns(c: Call, peer: Did) {
    c.target == peer || c.req.Reopen?
  }

  /** The newest id and clock reading a run has used. */
  function LastId(calls: seq<Call>, last: Id): Id {
    if calls == [] then last else calls[|calls| - 1].id2
  }

  function LastTime(calls: seq<Call>): Time {
    if calls == [] then ZERO_TIME else calls[|calls| - 1].now
  }
}
