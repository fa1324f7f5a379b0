/** The data model: events, entities, relations, type definitions and queries.

    Identifiers are ULIDs: all the code uses of them is their order, so an `Id` is a
    number and 0 stands for the empty string.  A `Time` is an instant; 0 is the zero
    time.  Payloads are the JSON trees that were marshalled, because marshalling is
    taken to be lossless. */
module Types {
  datatype Option<+T> = None | Some(value: T)

  type Id = nat
  type Time = nat
  type Did = string
  type Data = map<string, Json>

  const NO_ID: Id := 0
  const ZERO_TIME: Time := 0
  const DEFAULT_LIMIT: nat := 50

  /** A JSON tree.  A number is represented by its canonical text. */
  datatype Json =
    | Null
    | Bool(b: bool)
    | Num(text: string)
    | Str(s: string)
    | Arr(items: seq<Json>)
    | Obj(members: Data)
  {
    predicate Scalar() {
      !Arr? && !Obj?
    }
  }

  /** An entity.  `data` is None when the map is nil. */
  datatype Entity = Entity(
    id: Id, etype: string, peer: Did,
    createdAt: Time, createdByDid: Did, createdByClient: string,
    updatedAt: Time, archivedAt: Option<Time>, data: Option<Data>)

  datatype Relation = Relation(
    id: Id, from: Id, to: Id, rtype: string, peer: Did,
    createdAt: Time, createdByDid: Did, createdByClient: string, data: Option<Data>)

  /** A field definition; `default` is Null when the type declares none. */
  datatype FieldDef = FieldDef(name: string, ftype: string, required: bool, default: Json)

  /** An entity or relationship type; only the latter uses `directional`. */
  datatype TypeDef = TypeDef(
    name: string, peer: Did, fields: seq<FieldDef>, description: string, directional: bool)

  datatype Kind = EntityKind | RelationKind

  function DefinitionType(k: Kind): string {
    match k
    case EntityKind => "EntityTypeDefinition"
    case RelationKind => "RelationshipTypeDefinition"
  }

  datatype EventType =
    | EntityCreated | EntityUpdated | EntityArchived
    | RelationCreated | RelationDissolved
    | EntityTypeDefined | RelationshipTypeDefined

  datatype Payload =
    | EntityPayload(entity: Entity)
    | ArchivePayload(archivedId: Id, archivedTime: Time)
    | RelationPayload(relation: Relation)
    | DissolvePayload(dissolvedId: Id, dissolvedTime: Time)
    | DefinitionPayload(def: TypeDef)
    | Unreadable

  datatype Event = Event(
    id: Id, peer: Did, etype: EventType, payload: Payload,
    timestamp: Time, author: Did, client: string)

  /** Filters compare a field of the data with a string. */
  datatype EntityQuery = EntityQuery(
    etype: string, filters: map<string, string>, limit: int, includeArchived: bool)

  /** The limit both query paths apply: non-positive means the default. */
  function EffectiveLimit(limit: int): nat {
    if limit <= 0 then DEFAULT_LIMIT else limit
  }

  function DataOr(d: Option<Data>): Data {
    if d.Some? then d.value else map[]
  }

  /** The row written for an entity: a nil data map is stored as the empty object. */
  function Row(e: Entity): Entity {
    e.(data := Some(DataOr(e.data)))
  }

  function RelationRow(r: Relation): Relation {
    r.(data := Some(DataOr(r.data)))
  }

  function Fallback(a: string, b: string, c: string): string {
    if a != "" then a else if b != "" then b else c
  }

  function FieldJson(f: FieldDef): Json {
    var m := map["name" := Str(f.name), "type" := Str(f.ftype), "required" := Bool(f.required)];
    Obj(if f.default.Null? then m else m["default" := f.default])
  }

  /** The data of the row that stores a type definition: the definition's own JSON. */
  function DefinitionData(k: Kind, def: TypeDef): Data {
    var fields := Arr(seq(|def.fields|, i requires 0 <= i < |def.fields| => FieldJson(def.fields[i])));
    var m := map["name" := Str(def.name), "peer_did" := Str(def.peer)];
    var m := if k.RelationKind? && def.fields == [] then m else m["fields" := fields];
    var m := if def.description == "" then m else m["description" := Str(def.description)];
    if k.RelationKind? then m["directional" := Bool(def.directional)] else m
  }
}
