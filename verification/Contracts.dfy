/** What every call of a peer changes and answers, in the words of its request. */
module Contracts {
  import opened Types
  import opened Texts
  import opened Requests
  import opened EventLog
  import opened Queries
  import opened Private
  import Definitions

  // ---- what all writes have in common ----

  /** The author is the given one, or else the sender, or else the peer; the client is the given one, or "federation". */
  predicate Attributed(c: Call, author: Did, client: string, givenAuthor: Did, givenClient: string) {
    && author == (if givenAuthor != "" then givenAuthor else if c.source != "" then c.source else c.target)
    && client == (if givenClient != "" then givenClient else "federation")
  }

  /** Exactly one event is logged: the peer's, stamped with the time of the call. */
  predicate LogsOne(v: View, u: View, c: Call, id: Id, etype: EventType, payload: Payload) {
    && |u.log| == |v.log| + 1 && u.log[..|v.log|] == v.log
    && u.log[|v.log|].id == id && u.log[|v.log|].peer == c.target && u.log[|v.log|].etype == etype
    && u.log[|v.log|].timestamp == c.now && u.log[|v.log|].payload == payload
  }

  predicate Signed(v: View, u: View, c: Call, givenAuthor: Did, givenClient: string) {
    |u.log| == |v.log| + 1 && Attributed(c, u.log[|v.log|].author, u.log[|v.log|].client, givenAuthor, givenClient)
  }

  // ---- entities ----

  function GivenFields(fields: Option<Data>): Data {
    match fields
    case None => map[]
    case Some(given) => given
  }

  /** One field of a created entity: the given value, or else the first default declared for it, or else nothing. */
  ghost predicate InitialField(defs: seq<FieldDef>, given: Data, data: Data, name: string) {
    if name in given then name in data && data[name] == given[name]
    else
      && (name in data <==> exists i :: FirstDefault(defs, i, name))
      && forall i :: FirstDefault(defs, i, name) ==> name in data && data[name] == defs[i].default
  }

  /** The entity that a creating request asks for; defaults for a nil map are lost. */
  ghost predicate Requested(c: Call, defs: seq<FieldDef>, e: Entity)
    requires c.req.EntityCreate?
  {
    && e.id == c.id1 && e.etype == c.req.etype && e.peer == c.target
    && e.createdAt == c.now && e.updatedAt == c.now && e.archivedAt == None
    && Attributed(c, e.createdByDid, e.createdByClient, c.req.author, c.req.client)
    && (e.data == None <==> c.req.fields == None)
    && (c.req.fields.Some? && e.data.Some? ==> forall name :: InitialField(defs, c.req.fields.value, e.data.value, name))
  }

  ghost predicate CreateContract(v: View, c: Call, u: View, reply: Reply)
    requires c.req.EntityCreate?
  {
    if !v.registered then u == v && reply == Failed(NoHandler)
    else if c.req.etype !in v.etypes then u == v && reply == Failed(UnknownType)
    else if LacksRequired(v.etypes[c.req.etype].fields, GivenFields(c.req.fields)) then u == v && reply == Failed(Invalid)
    else if c.fault.AppendFails? then u == v && reply == Failed(AppendError)
    else exists e: Entity ::
      && Requested(c, v.etypes[c.req.etype].fields, e)
      && LogsOne(v, u, c, c.id2, EntityCreated, EntityPayload(e)) && Signed(v, u, c, c.req.author, c.req.client)
      && if c.fault.WriteFails? then reply == Failed(WriteError) && u == v.(log := u.log)
         else reply == EntityReply(e) && u == v.(log := u.log, rows := v.rows[c.id1 := e.(data := Some(GivenFields(e.data)))])
  }

  /** An updated row: the changed fields are as requested, the others as they were. */
  ghost predicate Changed(row: Entity, c: Call, e: Entity)
    requires c.req.EntityUpdate?
  {
    && e.data.Some? && e == row.(data := e.data, updatedAt := c.now)
    && (forall name :: name in c.req.changes ==> name in e.data.value && e.data.value[name] == c.req.changes[name])
    && (forall name :: name !in c.req.changes ==>
          (name in e.data.value <==> name in GivenFields(row.data)) &&
          (name in e.data.value ==> e.data.value[name] == GivenFields(row.data)[name]))
  }

  ghost predicate UpdateContract(v: View, c: Call, u: View, reply: Reply)
    requires c.req.EntityUpdate?
  {
    if !v.registered then u == v && reply == Failed(NoHandler)
    else if c.req.id !in v.rows then u == v && reply == Panicked
    else if c.fault.AppendFails? then u == v && reply == Failed(AppendError)
    else exists e: Entity ::
      && Changed(v.rows[c.req.id], c, e)
      && LogsOne(v, u, c, c.id1, EntityUpdated, EntityPayload(e)) && Signed(v, u, c, c.req.author, c.req.client)
      && if c.fault.WriteFails? then reply == Failed(WriteError) && u == v.(log := u.log)
         else reply == EntityReply(e) && u == v.(log := u.log, rows := v.rows[c.req.id := e])
  }

  ghost predicate ArchiveContract(v: View, c: Call, u: View, reply: Reply)
    requires c.req.EntityArchive?
  {
    if !v.registered then u == v && reply == Failed(NoHandler)
    else if c.fault.AppendFails? then u == v && reply == Failed(AppendError)
    else
      && LogsOne(v, u, c, c.id1, EntityArchived, ArchivePayload(c.req.id, c.now)) && Signed(v, u, c, c.req.author, c.req.client)
      && if c.fault.WriteFails? || c.req.id !in v.rows then reply == Failed(WriteError) && u == v.(log := u.log)
         else
           && reply == StampReply(c.req.id, c.now)
           && u == v.(log := u.log, rows := v.rows[c.req.id := v.rows[c.req.id].(archivedAt := Some(c.now), updatedAt := c.now)])
  }

  // ---- relations ----

  /** The relation that a request asks for. */
  predicate RequestedRelation(c: Call, r: Relation)
    requires c.req.RelationCreate?
  {
    && r.id == c.id1 && r.from == c.req.from && r.to == c.req.to && r.rtype == c.req.rtype && r.peer == c.target
    && r.createdAt == c.now && r.data == c.req.rdata
    && Attributed(c, r.createdByDid, r.createdByClient, c.req.author, c.req.client)
  }

  ghost predicate RelateContract(v: View, c: Call, u: View, reply: Reply)
    requires c.req.RelationCreate?
  {
    if !v.registered then u == v && reply == Failed(NoHandler)
    else if c.req.rtype !in v.rtypes then u == v && reply == Failed(UnknownType)
    else if c.fault.AppendFails? then u == v && reply == Failed(AppendError)
    else exists r: Relation ::
      && RequestedRelation(c, r)
      && LogsOne(v, u, c, c.id2, RelationCreated, RelationPayload(r)) && Signed(v, u, c, c.req.author, c.req.client)
      && if c.fault.WriteFails? || c.req.from == 0 || c.req.to == 0 || c.req.rtype == "" then
           reply == Failed(WriteError) && u == v.(log := u.log)
         else reply == RelationReply(r) && u == v.(log := u.log, rels := v.rels[c.id1 := r.(data := Some(GivenFields(r.data)))])
  }

  ghost predicate DissolveContract(v: View, c: Call, u: View, reply: Reply)
    requires c.req.RelationDissolve?
  {
    if !v.registered then u == v && reply == Failed(NoHandler)
    else if c.fault.AppendFails? then u == v && reply == Failed(AppendError)
    else
      && LogsOne(v, u, c, c.id1, RelationDissolved, DissolvePayload(c.req.id, c.now)) && Signed(v, u, c, c.req.author, c.req.client)
      && if c.fault.WriteFails? || c.req.id !in v.rels then reply == Failed(WriteError) && u == v.(log := u.log)
         else reply == StampReply(c.req.id, c.now) && u == v.(log := u.log, rels := v.rels - {c.req.id})
  }

  // ---- types ----

  /** The type that a request declares; only relation types have a direction. */
  predicate Declared(c: Call, def: TypeDef)
    requires c.req.TypeDefine?
  {
    && def.name == c.req.name && def.peer == c.target && def.description == c.req.description && def.fields == c.req.defFields
    && (def.directional <==> c.req.kind.RelationKind? && c.req.directional)
  }

  /** What a definition announces: the declared type, or the seed as it is. */
  predicate Announced(c: Call, def: TypeDef)
    requires Defines(c)
  {
    match c.req
    case TypeDefine(_, _, _, _, _, _, _) => Declared(c, def)
    case SeedType(_, seed, _) => def == seed
  }

  /** What its row keeps: a peer is filled in, and entity types have no direction. */
  predicate KeptAs(c: Call, def: TypeDef)
    requires Defines(c)
  {
    match c.req
    case TypeDefine(_, _, _, _, _, _, _) => Declared(c, def)
    case SeedType(kind, seed, _) =>
      && def.name == seed.name && def.description == seed.description && def.fields == seed.fields
      && def.peer == (if seed.peer == "" then c.target else seed.peer)
      && (def.directional <==> kind.RelationKind? && seed.directional)
  }

  function NameOf(c: Call): string
    requires Defines(c)
  {
    match c.req
    case TypeDefine(_, name, _, _, _, _, _) => name
    case SeedType(_, seed, _) => seed.name
  }

  /** A field definition as JSON. */
  predicate FieldWritten(f: FieldDef, j: Json) {
    && j.Obj? && j.members.Keys == {"name", "type", "required"} + (if f.default == Null then {} else {"default"})
    && j.members["name"] == Str(f.name) && j.members["type"] == Str(f.ftype) && j.members["required"] == Bool(f.required)
    && (f.default != Null ==> j.members["default"] == f.default)
  }

  predicate FieldsWritten(fields: seq<FieldDef>, items: seq<Json>) {
    |items| == |fields| && forall i :: 0 <= i < |fields| ==> FieldWritten(fields[i], items[i])
  }

  /** A definition as the JSON object that its row stores: an empty description is left out, and for relation types an empty
      list of fields. */
  predicate Written(kind: Kind, def: TypeDef, m: Data) {
    && (forall k :: k in m ==> k in {"name", "peer_did", "description", "fields", "directional"})
    && "name" in m && m["name"] == Str(def.name) && "peer_did" in m && m["peer_did"] == Str(def.peer)
    && ("description" in m <==> def.description != "") && ("description" in m ==> m["description"] == Str(def.description))
    && ("fields" in m <==> kind.EntityKind? || def.fields != [])
    && ("fields" in m ==> m["fields"].Arr? && FieldsWritten(def.fields, m["fields"].items))
    && ("directional" in m <==> kind.RelationKind?) && ("directional" in m ==> m["directional"] == Bool(def.directional))
  }

  /** The resolver after learning a type. */
  function Knowing(v: View, kind: Kind, name: string, def: TypeDef): View {
    match kind
    case EntityKind => v.(etypes := v.etypes[name := def])
    case RelationKind => v.(rtypes := v.rtypes[name := def])
  }

  /** The row of a definition: it reads back as the definition, with an empty peer filled in and no direction for entity types. */
  ghost predicate StoresDefinition(c: Call, kind: Kind, def: TypeDef, id: Id, e: Entity) {
    && e.id == id && e.etype == (if kind.EntityKind? then "EntityTypeDefinition" else "RelationshipTypeDefinition") && e.peer == c.target
    && e.createdAt == c.now && e.updatedAt == c.now && e.archivedAt == None
    && e.data.Some? && Written(kind, def, e.data.value)
    && Definitions.DecodeDefinition(kind, e) == Some(def.(peer := if def.peer == "" then c.target else def.peer,
                                                          directional := kind.RelationKind? && def.directional))
  }

  /** The resolver learns the type before anything is logged or stored. */
  ghost predicate Defined(v: View, c: Call, kind: Kind, def: TypeDef, eventId: Id, rowId: Id, u: View, reply: Reply) {
    var k := Knowing(v, kind, def.name, def);
    var etype := if kind.EntityKind? then EntityTypeDefined else RelationshipTypeDefined;
    if c.fault.AppendFails? then u == k && reply == Failed(AppendError)
    else
      && LogsOne(v, u, c, eventId, etype, DefinitionPayload(def))
      && if c.fault.WriteFails? then reply == Failed(WriteError) && u == k.(log := u.log)
         else
           && reply == TypeReply(def) && u.rows.Keys == v.rows.Keys + {rowId} && StoresDefinition(c, kind, def, rowId, u.rows[rowId])
           && u == k.(log := u.log, rows := v.rows[rowId := u.rows[rowId]])
  }

  ghost predicate DefineContract(v: View, c: Call, u: View, reply: Reply)
    requires c.req.TypeDefine?
  {
    if !v.registered then u == v && reply == Failed(NoHandler)
    else exists def: TypeDef ::
      && Declared(c, def) && Defined(v, c, c.req.kind, def, c.id2, c.id1, u, reply)
      && (!c.fault.AppendFails? ==> Signed(v, u, c, c.req.author, c.req.client))
      && (c.id1 in u.rows && !reply.Failed? ==>
            Attributed(c, u.rows[c.id1].createdByDid, u.rows[c.id1].createdByClient, c.req.author, c.req.client))
  }

  /** A seed is registered and stored as it is, in the name of the peer. */
  ghost predicate SeedContract(v: View, c: Call, u: View, reply: Reply)
    requires c.req.SeedType?
  {
    && Defined(v, c, c.req.kind, c.req.def, c.id1, c.id2, u, reply)
    && (!c.fault.AppendFails? ==> |u.log| == |v.log| + 1 && u.log[|v.log|].author == c.target && u.log[|v.log|].client == c.req.client)
    && (c.id2 in u.rows && !reply.Failed? ==> u.rows[c.id2].createdByDid == c.target && u.rows[c.id2].createdByClient == c.req.client)
  }

  // ---- reads ----

  /** An answer of at most `n` rows, newest first: the wanted ones as they stand, all of them unless it is full. */
  ghost predicate EntitiesListed(v: View, peer: Did, q: EntityQuery, es: seq<Entity>, n: int) {
    && |es| <= n && (forall i, j :: 0 <= i < j < |es| ==> Newer(es[i], es[j]))
    && forall id :: EntityAnswer(v.rows, peer, q, v.jsonText, es, n, id)
  }

  ghost predicate RelationsListed(v: View, peer: Did, from: Id, to: Id, rtype: string, rs: seq<Relation>, n: int) {
    && |rs| <= n && (forall i, j :: 0 <= i < j < |rs| ==> NewerRelation(rs[i], rs[j]))
    && forall id :: RelationAnswer(v.rels, peer, from, to, rtype, rs, n, id)
  }

  ghost predicate PastListed(past: map<Id, Entity>, peer: Did, q: EntityQuery, es: seq<Entity>, n: int) {
    && |es| <= n && (forall i, j :: 0 <= i < j < |es| ==> Newer(es[i], es[j]))
    && forall id :: PastAnswer(past, peer, q, es, n, id)
  }

  ghost predicate ListContract(v: View, c: Call, reply: Reply)
    requires c.req.EntityList?
  {
    && reply.EntitiesReply?
    && ((forall x :: x in v.rows ==> v.rows[x].id == x) ==>
          EntitiesListed(v, c.target, c.req.query, reply.entities, if c.req.query.limit > 0 then c.req.query.limit else 50))
  }

  ghost predicate RelationListContract(v: View, c: Call, reply: Reply)
    requires c.req.RelationList?
  {
    && reply.RelationsReply?
    && ((forall x :: x in v.rels ==> v.rels[x].id == x) ==>
          RelationsListed(v, c.target, c.req.from, c.req.to, c.req.rtype, reply.relations, if c.req.limit > 0 then c.req.limit else 50))
  }

  ghost predicate TimeTravelContract(v: View, c: Call, reply: Reply)
    requires c.req.TimeTravelTo?
  {
    && reply.EntitiesReply?
    && PastListed(Fold(ListEvents(v.log, c.target, 0, c.req.asOf)), c.target, c.req.query, reply.entities,
                  if c.req.query.limit > 0 then c.req.query.limit else 50)
  }

  ghost predicate TypesContract(v: View, reply: Reply) {
    && reply.TypesReply? && Listed(v.etypes, reply.etypes) && Listed(v.rtypes, reply.rtypes)
  }

  /** All definitions of a map once, in the order of the names they are known by. */
  ghost predicate Listed(types: map<string, TypeDef>, defs: seq<TypeDef>) {
    exists names: seq<string> ::
      && |names| == |defs| && (forall n :: n in names <==> n in types)
      && (forall i, j :: 0 <= i < j < |names| ==> TextLess(names[i], names[j]))
      && (forall i :: 0 <= i < |names| ==> names[i] in types && defs[i] == types[names[i]])
  }

  ghost predicate ReadContract(v: View, c: Call, reply: Reply) {
    match c.req
    case EntityGet(id) => reply == if id in v.rows then EntityReply(v.rows[id]) else NoEntity
    case EntityList(_) => ListContract(v, c, reply)
    case RelationList(_, _, _, _) => RelationListContract(v, c, reply)
    case TypeList => TypesContract(v, reply)
    case TypeDescribe(kind, name) =>
      var types := if kind.EntityKind? then v.etypes else v.rtypes;
      reply == if name in types then TypeReply(types[name]) else Failed(UnknownType)
    case TimeTravelTo(_, _) => TimeTravelContract(v, c, reply)
    case _ => reply == Failed(BadOp)
  }

  // ---- the contract of every call ----

  ghost predicate Contract(v: View, c: Call, u: View, reply: Reply) {
    match c.req
    case EntityCreate(_, _, _, _) => CreateContract(v, c, u, reply)
    case EntityUpdate(_, _, _, _) => UpdateContract(v, c, u, reply)
    case EntityArchive(_, _, _) => ArchiveContract(v, c, u, reply)
    case RelationCreate(_, _, _, _, _, _) => RelateContract(v, c, u, reply)
    case RelationDissolve(_, _, _) => DissolveContract(v, c, u, reply)
    case TypeDefine(_, _, _, _, _, _, _) => DefineContract(v, c, u, reply)
    case SeedType(_, _, _) => SeedContract(v, c, u, reply)
    case Join =>
      if v.peer == "" || v.registered then u == v && reply == Failed(BadPeer) else u == v.(registered := true) && reply == Joined
    case Reopen(listed) =>
      && u == v.(registered := v.peer in listed && "" !in listed, etypes := u.etypes, rtypes := u.rtypes)
      && reply == if "" in listed then Failed(BadPeer) else Reopened
    case _ => u == v && if v.registered then ReadContract(v, c, reply) else reply == Failed(NoHandler)
  }

  // ---- every step meets it ----

  lemma ValidateFields(defs: seq<FieldDef>, fields: Data)
    ensures Validate(defs, fields).1 <==> !LacksRequired(defs, fields)
    ensures forall name :: InitialField(defs, fields, Validate(defs, fields).0, name)
  {
    ValidateMeaning(defs, fields, "");
    hide Validate, LacksRequired;
    forall name ensures InitialField(defs, fields, Validate(defs, fields).0, name) {
      ValidateMeaning(defs, fields, name);
    }
  }

  lemma CreateMeets(v: View, c: Call)
    requires c.req.EntityCreate?
    ensures CreateContract(v, c, Step(v, c).0, Step(v, c).1)
  {
    if v.registered && c.req.etype in v.etypes {
      var def := v.etypes[c.req.etype];
      ValidateFields(def.fields, GivenFields(c.req.fields));
      var data, e := Validated(def, c.req.fields).0, CreatedEntity(c, Validated(def, c.req.fields).0);
      hide Validate, LacksRequired, InitialField;
      assert GivenFields(c.req.fields) == DataOr(c.req.fields);
      assert Requested(c, def.fields, e) || LacksRequired(def.fields, GivenFields(c.req.fields));
    }
  }

  lemma UpdateMeets(v: View, c: Call)
    requires c.req.EntityUpdate?
    ensures UpdateContract(v, c, Step(v, c).0, Step(v, c).1)
  {
    if v.registered && c.req.id in v.rows {
      var row := v.rows[c.req.id];
      var e := Merged(row, c.req.changes, c.now);
      assert Changed(row, c, e);
    }
  }

  lemma ArchiveMeets(v: View, c: Call)
    requires c.req.EntityArchive?
    ensures ArchiveContract(v, c, Step(v, c).0, Step(v, c).1)
  {
  }

  lemma RelateMeets(v: View, c: Call)
    requires c.req.RelationCreate?
    ensures RelateContract(v, c, Step(v, c).0, Step(v, c).1)
  {
    if v.registered && c.req.rtype in v.rtypes {
      var r := CreatedRelation(c);
      assert RequestedRelation(c, r);
    }
  }

  lemma DissolveMeets(v: View, c: Call)
    requires c.req.RelationDissolve?
    ensures DissolveContract(v, c, Step(v, c).0, Step(v, c).1)
  {
  }

  lemma FieldIsWritten(f: FieldDef)
    ensures FieldWritten(f, FieldJson(f))
  {
  }

  lemma DefinitionIsWritten(kind: Kind, def: TypeDef)
    ensures Written(kind, def, DefinitionData(kind, def))
  {
    hide FieldJson, FieldWritten;
    forall i | 0 <= i < |def.fields| ensures FieldWritten(def.fields[i], FieldJson(def.fields[i])) { FieldIsWritten(def.fields[i]); }
  }

  lemma DefinitionIsStored(c: Call)
    requires Defines(c)
    ensures StoresDefinition(c, c.req.kind, DefinedType(c), DefinitionId(c), DefinitionEntity(c))
    ensures var e := DefinitionEntity(c); (e.createdByDid, e.createdByClient) == DefinitionAuthor(c)
  {
    DefinitionIsWritten(c.req.kind, DefinedType(c));
    Definitions.DefinitionRoundTrip(c.req.kind, DefinedType(c), DefinitionEntity(c));
    hide DefinitionData, DefinedType, DefinitionAuthor, Written, Definitions.DecodeDefinition;
  }

  lemma DefineWrites(v: View, c: Call)
    requires Defines(c)
    ensures Defined(v, c, c.req.kind, DefinedType(c), DefinitionEvent(c).id, DefinitionId(c), Define(v, c).0, Define(v, c).1)
    ensures var u, reply := Define(v, c).0, Define(v, c).1;
      && (!c.fault.AppendFails? ==> u.log == v.log + [DefinitionEvent(c)])
      && (!reply.Failed? ==> DefinitionId(c) in u.rows && u.rows[DefinitionId(c)] == DefinitionEntity(c))
  {
    hide DefinitionData, DefinedType, DefinitionAuthor, StoresDefinition, DefinitionEntity, DefinitionEvent, DefinitionId, Define;
    DefinitionIsStored(c);
    DefinitionIsLogged(c);
    DefineIs(v, c);
  }

  lemma DefineIs(v: View, c: Call)
    requires Defines(c)
    ensures var k, ev, e := Knowing(v, c.req.kind, DefinedType(c).name, DefinedType(c)), DefinitionEvent(c), DefinitionEntity(c);
      Define(v, c) ==
        if c.fault.AppendFails? then (k, Failed(AppendError))
        else if c.fault.WriteFails? then (k.(log := v.log + [ev]), Failed(WriteError))
        else (k.(log := v.log + [ev], rows := v.rows[DefinitionId(c) := e]), TypeReply(DefinedType(c)))
  {
    hide DefinedType, DefinitionEntity, DefinitionEvent, DefinitionId;
    DefinitionRow(c);
  }

  lemma DefinitionIsLogged(c: Call)
    requires Defines(c)
    ensures var ev := DefinitionEvent(c);
      && ev.peer == c.target && ev.timestamp == c.now && ev.payload == DefinitionPayload(DefinedType(c))
      && ev.etype == if c.req.kind.EntityKind? then EntityTypeDefined else RelationshipTypeDefined
  {
    hide DefinedType;
  }

  lemma DefineMeets(v: View, c: Call)
    requires c.req.TypeDefine?
    ensures DefineContract(v, c, Step(v, c).0, Step(v, c).1)
  {
    if v.registered {
      assert Declared(c, DefinedType(c));
      assert DefinitionEvent(c).id == c.id2 && Attributed(c, DefinitionEvent(c).author, DefinitionEvent(c).client, c.req.author, c.req.client);
      DefineWrites(v, c);
      DefinitionIsStored(c);
      assert Attributed(c, DefinitionAuthor(c).0, DefinitionAuthor(c).1, c.req.author, c.req.client);
      hide DefinitionData, DefinedType, DefinitionAuthor, Define, Defined, Declared, DefinitionEvent, DefinitionEntity, StoresDefinition, Attributed;
    }
  }

  lemma SeedMeets(v: View, c: Call)
    requires c.req.SeedType?
    ensures SeedContract(v, c, Step(v, c).0, Step(v, c).1)
  {
    DefineWrites(v, c);
    DefinitionIsStored(c);
    assert DefinitionEvent(c).id == c.id1 && DefinitionEvent(c).author == c.target && DefinitionEvent(c).client == c.req.client;
    hide DefinitionData, Define, Defined, DefinitionEvent, DefinitionEntity, StoresDefinition;
  }

  lemma ListMeets(v: View, c: Call)
    requires c.req.EntityList?
    ensures ListContract(v, c, Read(v, c))
  {
    hide QueryEntities, EntityAnswer, Newer;
    if forall x :: x in v.rows ==> v.rows[x].id == x {
      EntityListing(v.rows, c.target, c.req.query, v.jsonText, NO_ID);
      var n: int := if c.req.query.limit > 0 then c.req.query.limit else 50;
      forall id ensures
        EntityAnswer(v.rows, c.target, c.req.query, v.jsonText, QueryEntities(v.rows, c.target, c.req.query, v.jsonText), n, id)
      {
        EntityListing(v.rows, c.target, c.req.query, v.jsonText, id);
      }
    }
  }

  lemma RelationListMeets(v: View, c: Call)
    requires c.req.RelationList?
    ensures RelationListContract(v, c, Read(v, c))
  {
    hide QueryRelations, RelationAnswer, NewerRelation;
    var from, to, rtype, limit := c.req.from, c.req.to, c.req.rtype, c.req.limit;
    if forall x :: x in v.rels ==> v.rels[x].id == x {
      RelationListing(v.rels, c.target, from, to, rtype, limit, NO_ID);
      var n: int := if limit > 0 then limit else 50;
      forall id ensures
        RelationAnswer(v.rels, c.target, from, to, rtype, QueryRelations(v.rels, c.target, from, to, rtype, limit), n, id)
      {
        RelationListing(v.rels, c.target, from, to, rtype, limit, id);
      }
    }
  }

  lemma TimeTravelMeets(v: View, c: Call)
    requires c.req.TimeTravelTo?
    ensures TimeTravelContract(v, c, Read(v, c))
  {
    hide TimeTravel, PastAnswer, Fold, ListEvents, Newer;
    var q, asOf := c.req.query, c.req.asOf;
    TimeTravelListing(v.log, c.target, q, asOf, NO_ID);
    var n: int := if q.limit > 0 then q.limit else 50;
    forall id ensures
      PastAnswer(Fold(ListEvents(v.log, c.target, 0, asOf)), c.target, q, TimeTravel(v.log, c.target, q, asOf), n, id)
    {
      TimeTravelListing(v.log, c.target, q, asOf, id);
    }
  }

  lemma TypesMeet(types: map<string, TypeDef>)
    ensures Listed(types, ByName(types))
  {
    var names := InOrder(types.Keys);
    assert forall i :: 0 <= i < |names| ==> names[i] in names;
  }

  lemma ReadMeets(v: View, c: Call)
    requires c.req.EntityGet? || c.req.EntityList? || c.req.RelationList? || c.req.TypeList? || c.req.TypeDescribe? || c.req.TimeTravelTo? || c.req.UnknownOp?
    ensures ReadContract(v, c, Read(v, c))
  {
    hide ListContract, RelationListContract, TimeTravelContract, QueryEntities, QueryRelations, TimeTravel, ByName, Listed;
    match c.req
    case EntityList(_) => ListMeets(v, c);
    case RelationList(_, _, _, _) => RelationListMeets(v, c);
    case TypeList =>
      TypesMeet(v.etypes);
      TypesMeet(v.rtypes);
    case TimeTravelTo(_, _) => TimeTravelMeets(v, c);
    case _ =>
  }

  /** Every call of a peer does and answers what its request says. */
  lemma StepMeets(v: View, c: Call)
    ensures Contract(v, c, Step(v, c).0, Step(v, c).1)
  {
    hide CreateContract, UpdateContract, ArchiveContract, RelateContract, DissolveContract, DefineContract, SeedContract, ReadContract,
      Create, Update, Archive, Relate, Dissolve, Define, Read, Definitions.Rehydrated;
    match c.req
    case EntityCreate(_, _, _, _) => CreateMeets(v, c);
    case EntityUpdate(_, _, _, _) => UpdateMeets(v, c);
    case EntityArchive(_, _, _) => ArchiveMeets(v, c);
    case RelationCreate(_, _, _, _, _, _) => RelateMeets(v, c);
    case RelationDissolve(_, _, _) => DissolveMeets(v, c);
    case TypeDefine(_, _, _, _, _, _, _) => DefineMeets(v, c);
    case SeedType(_, _, _) => SeedMeets(v, c);
    case Join =>
    case Reopen(_) =>
    case _ => ReadMeets(v, c);
  }
}
