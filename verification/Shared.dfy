/** The binary as one state machine: a single event log, single entity and relation tables
    for all peers, and the type resolver.  Every read and write names the peer it is for,
    and isolation rests on that alone. */
module Shared {
  import opened Types
  import opened Requests
  import opened Queries
  import Definitions

  datatype World = World(
    peers: set<Did>,
    log: seq<Event>,
    rows: map<Id, Entity>,
    rels: map<Id, Relation>,
    etypes: map<Did, map<string, TypeDef>>,
    rtypes: map<Did, map<string, TypeDef>>,
    jsonText: Json -> string)

  // ---- store ----

  /** Inserting an event fails without a peer and on a reused primary key. */
  predicate CanAppend(log: seq<Event>, ev: Event) {
    ev.peer != "" && forall i :: 0 <= i < |log| ==> log[i].id != ev.id
  }

  function Logged(w: World, ev: Event): World {
    w.(log := w.log + [ev])
  }

  function AppendEvent(w: World, ev: Event): Option<World> {
    if CanAppend(w.log, ev) then Some(Logged(w, ev)) else None
  }

  function GetEntity(w: World, peer: Did, id: Id): Option<Entity> {
    if id in w.rows && w.rows[id].peer == peer then Some(w.rows[id]) else None
  }

  /** INSERT OR REPLACE: whatever row has the id is overwritten, whoever owns it. */
  function UpsertEntity(w: World, e: Entity): Option<World> {
    if e.id == NO_ID || e.peer == "" then None else Some(w.(rows := w.rows[e.id := Row(e)]))
  }

  function ArchiveEntity(w: World, peer: Did, id: Id, at: Time): Option<World> {
    if peer == "" || id == NO_ID || GetEntity(w, peer, id).None? then None
    else Some(w.(rows := w.rows[id := w.rows[id].(archivedAt := Some(at), updatedAt := at)]))
  }

  function UpsertRelation(w: World, r: Relation): Option<World> {
    if r.id == NO_ID || r.peer == "" || r.from == NO_ID || r.to == NO_ID || r.rtype == "" then None
    else Some(w.(rels := w.rels[r.id := RelationRow(r)]))
  }

  function DissolveRelation(w: World, peer: Did, id: Id): Option<World> {
    if peer == "" || id == NO_ID || id !in w.rels || w.rels[id].peer != peer then None
    else Some(w.(rels := w.rels - {id}))
  }

  // ---- resolver ----

  function TypesOf(all: map<Did, map<string, TypeDef>>, peer: Did): map<string, TypeDef> {
    if peer in all then all[peer] else map[]
  }

  function RegisterType(w: World, peer: Did, k: Kind, def: TypeDef): World {
    match k
    case EntityKind => w.(etypes := w.etypes[peer := TypesOf(w.etypes, peer)[def.name := def]])
    case RelationKind => w.(rtypes := w.rtypes[peer := TypesOf(w.rtypes, peer)[def.name := def]])
  }

  // ---- handler ----

  /** The write path every operation shares: append the event, then write the row.
      `written` is the outcome of the row write once the event is logged. */
  function Commit(w: World, ev: Event, fault: Fault, written: Option<World>, done: Reply): (World, Reply) {
    if fault.AppendFails? || AppendEvent(w, ev).None? then (w, Failed(AppendError))
    else if fault.WriteFails? || written.None? then (Logged(w, ev), Failed(WriteError))
    else (written.value, done)
  }

  function OpEntityCreate(w: World, c: Call): (World, Reply)
    requires c.req.EntityCreate?
  {
    var defs := TypesOf(w.etypes, c.target);
    if c.req.etype !in defs then (w, Failed(UnknownType))
    else
      var (data, ok) := Validated(defs[c.req.etype], c.req.fields);
      if !ok then (w, Failed(Invalid))
      else
        var e, ev := CreatedEntity(c, data), CreateEvent(c, data);
        Commit(w, ev, c.fault, UpsertEntity(Logged(w, ev), e), EntityReply(e))
  }

  function OpEntityUpdate(w: World, c: Call): (World, Reply)
    requires c.req.EntityUpdate?
  {
    var got := GetEntity(w, c.target, c.req.id);
    if got.None? then (w, Panicked)
    else
      var e, ev := Merged(got.value, c.req.changes, c.now), UpdateEvent(c, got.value);
      Commit(w, ev, c.fault, UpsertEntity(Logged(w, ev), e), EntityReply(e))
  }

  function OpEntityArchive(w: World, c: Call): (World, Reply)
    requires c.req.EntityArchive?
  {
    var ev := ArchiveEvent(c);
    Commit(w, ev, c.fault, ArchiveEntity(Logged(w, ev), c.target, c.req.id, c.now), StampReply(c.req.id, c.now))
  }

  function OpRelationCreate(w: World, c: Call): (World, Reply)
    requires c.req.RelationCreate?
  {
    if c.req.rtype !in TypesOf(w.rtypes, c.target) then (w, Failed(UnknownType))
    else
      var r, ev := CreatedRelation(c), RelationEvent(c);
      Commit(w, ev, c.fault, UpsertRelation(Logged(w, ev), r), RelationReply(r))
  }

  function OpRelationDissolve(w: World, c: Call): (World, Reply)
    requires c.req.RelationDissolve?
  {
    var ev := DissolveEvent(c);
    Commit(w, ev, c.fault, DissolveRelation(Logged(w, ev), c.target, c.req.id), StampReply(c.req.id, c.now))
  }

  /** The resolver learns the type before anything is stored. */
  function OpTypeDefine(w: World, c: Call): (World, Reply)
    requires Defines(c)
  {
    var u, ev := RegisterType(w, c.target, c.req.kind, DefinedType(c)), DefinitionEvent(c);
    Commit(u, ev, c.fault, UpsertEntity(Logged(u, ev), DefinitionEntity(c)), TypeReply(DefinedType(c)))
  }

  function OpTypeDescribe(w: World, c: Call): Reply
    requires c.req.TypeDescribe?
  {
    var defs := TypesOf(if c.req.kind.EntityKind? then w.etypes else w.rtypes, c.target);
    if c.req.name in defs then TypeReply(defs[c.req.name]) else Failed(UnknownType)
  }

  ghost function Read(w: World, c: Call): Reply {
    match c.req
    case EntityGet(id) =>
      var got := GetEntity(w, c.target, id);
      if got.Some? then EntityReply(got.value) else NoEntity
    case EntityList(q) => EntitiesReply(QueryEntities(w.rows, c.target, q, w.jsonText))
    case RelationList(from, to, rtype, limit) => RelationsReply(QueryRelations(w.rels, c.target, from, to, rtype, limit))
    case TypeList => TypesReply(ByName(TypesOf(w.etypes, c.target)), ByName(TypesOf(w.rtypes, c.target)))
    case TypeDescribe(_, _) => OpTypeDescribe(w, c)
    case TimeTravelTo(q, asOf) => EntitiesReply(TimeTravel(w.log, c.target, q, asOf))
    case _ => Failed(BadOp)
  }

  /** The peer's own handler. */
  ghost function Dispatch(w: World, c: Call): (World, Reply) {
    match c.req
    case EntityCreate(_, _, _, _) => OpEntityCreate(w, c)
    case EntityUpdate(_, _, _, _) => OpEntityUpdate(w, c)
    case EntityArchive(_, _, _) => OpEntityArchive(w, c)
    case RelationCreate(_, _, _, _, _, _) => OpRelationCreate(w, c)
    case RelationDissolve(_, _, _) => OpRelationDissolve(w, c)
    case TypeDefine(_, _, _, _, _, _, _) => OpTypeDefine(w, c)
    case SeedType(_, _, _) => OpTypeDefine(w, c)
    case _ => (w, Read(w, c))
  }

  // ---- router and start-up ----

  /** Registering a peer succeeds once for a non-empty DID. */
  function Register(w: World, peer: Did): (World, Reply) {
    if peer == "" || peer in w.peers then (w, Failed(BadPeer)) else (w.(peers := w.peers + {peer}), Joined)
  }

  /** The peers a start serves: those listed, or none when the list is refused for an empty DID. */
  function Served(listed: map<Did, Seeds>): map<Did, Seeds> {
    if "" in listed then map[] else listed
  }

  /** A restart keeps the tables and rebuilds the resolver from them. */
  ghost function Restart(w: World, listed: map<Did, Seeds>): (World, Reply) {
    var served := Served(listed);
    (w.(peers := served.Keys,
        etypes := map d | d in served :: Definitions.Rehydrated(w.rows, d, EntityKind, served[d].etypes, w.jsonText),
        rtypes := map d | d in served :: Definitions.Rehydrated(w.rows, d, RelationKind, served[d].rtypes, w.jsonText)),
     if "" in listed then Failed(BadPeer) else Reopened)
  }

  /** One call: routed by its target; a peer being added is seeded before it is routed to. */
  ghost function Step(w: World, c: Call): (World, Reply) {
    if c.req.Reopen? then Restart(w, c.req.listed)
    else if c.req.Join? then Register(w, c.target)
    else if c.target in w.peers || c.req.SeedType? then Dispatch(w, c)
    else (w, Failed(NoHandler))
  }

  ghost function Exec(w: World, calls: seq<Call>): World {
    if calls == [] then w
    else Step(Exec(w, calls[..|calls| - 1]), calls[|calls| - 1]).0
  }

  /** The replies a run gives to the calls that concern `peer`, in order. */
  ghost function Replies(w: World, calls: seq<Call>, peer: Did): seq<Reply> {
    if calls == [] then []
    else
      var before, c := calls[..|calls| - 1], calls[|calls| - 1];
      Replies(w, before, peer) + if Concerns(c, peer) then [Step(Exec(w, before), c).1] else []
  }

  /** A new data directory: no rows and no events, any registered peers and types. */
  predicate Fresh(w: World) {
    w.log == [] && w.rows == map[] && w.rels == map[]
  }
}
