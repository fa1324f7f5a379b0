/** Many clients at once.  Nothing makes an operation atomic, so its read, its append and
    its row write are separate steps of any number of clients, in any order; a client may
    also stop for good between two steps, and clocks need not agree with the log order. */
module Interleaving {
  import opened Types
  import opened Requests
  import opened EventLog
  import opened Shared

  /** What a client still has to write once its event is logged. */
  datatype Write =
    | PutRow(e: Entity)
    | StampRow(peer: Did, id: Id, at: Time)
    | PutRelation(r: Relation)
    | DropRelation(peer: Did, id: Id)

  datatype Pending = Idle | ToAppend(ev: Event, write: Write) | ToWrite(logged: Event, owed: Write)

  /** Where an entity came from: everything about it that no operation may change. */
  datatype Birth = Birth(etype: string, peer: Did, createdAt: Time, createdByDid: Did, createdByClient: string)

  /** Three history variables observe a run: `clock` is the time of the last call begun, `births` records each entity id
      when it is drawn, and `writers` the event of the call that last wrote each row's data. */
  datatype System = System(
    log: seq<Event>,
    rows: map<Id, Entity>,
    rels: map<Id, Relation>,
    etypes: map<Did, map<string, TypeDef>>,
    rtypes: map<Did, map<string, TypeDef>>,
    clients: map<nat, Pending>,
    lastId: Id,
    clock: Time,
    births: map<Id, Birth>,
    writers: map<Id, Event>)

  datatype Action =
    | Start(client: nat, call: Call)
    | Append(client: nat, fails: bool)
    | Finish(client: nat, fails: bool)
    | Stop(client: nat)

  function BirthOf(e: Entity): Birth {
    Birth(e.etype, e.peer, e.createdAt, e.createdByDid, e.createdByClient)
  }

  function PendingOf(s: System, k: nat): Pending {
    if k in s.clients then s.clients[k] else Idle
  }

  function Begin(s: System, k: nat, c: Call, ev: Event, write: Write, births: map<Id, Birth>): System {
    s.(clients := s.clients[k := ToAppend(ev, write)], lastId := c.id2, clock := c.now, births := births)
  }

  /** The part of an operation before its first write: validate or read, then build. */
  function StartCall(s: System, k: nat, c: Call): System {
    match c.req
    case EntityCreate(_, _, _, _) => StartCreate(s, k, c)
    case EntityUpdate(id, changes, _, _) =>
      if id !in s.rows || s.rows[id].peer != c.target then s
      else Begin(s, k, c, UpdateEvent(c, s.rows[id]), PutRow(Merged(s.rows[id], changes, c.now)), s.births)
    case EntityArchive(id, _, _) => Begin(s, k, c, ArchiveEvent(c), StampRow(c.target, id, c.now), s.births)
    case RelationCreate(_, _, rtype, _, _, _) =>
      if rtype !in TypesOf(s.rtypes, c.target) then s
      else Begin(s, k, c, RelationEvent(c), PutRelation(CreatedRelation(c)), s.births)
    case RelationDissolve(id, _, _) => Begin(s, k, c, DissolveEvent(c), DropRelation(c.target, id), s.births)
    case TypeDefine(_, _, _, _, _, _, _) => StartDefine(s, k, c)
    case SeedType(_, _, _) => StartDefine(s, k, c)
    case _ => s
  }

  function StartCreate(s: System, k: nat, c: Call): System
    requires c.req.EntityCreate?
  {
    var defs := TypesOf(s.etypes, c.target);
    if c.req.etype !in defs || !Validated(defs[c.req.etype], c.req.fields).1 then s
    else
      var data := Validated(defs[c.req.etype], c.req.fields).0;
      var e := CreatedEntity(c, data);
      Begin(s, k, c, CreateEvent(c, data), PutRow(e), s.births[e.id := BirthOf(e)])
  }

  /** The types after the resolver has learnt a definition. */
  function Learnt(s: System, c: Call): System
    requires Defines(c)
  {
    var def := DefinedType(c);
    match c.req.kind
    case EntityKind => s.(etypes := s.etypes[c.target := TypesOf(s.etypes, c.target)[def.name := def]])
    case RelationKind => s.(rtypes := s.rtypes[c.target := TypesOf(s.rtypes, c.target)[def.name := def]])
  }

  function StartDefine(s: System, k: nat, c: Call): System
    requires Defines(c)
  {
    var e := DefinitionEntity(c);
    Begin(Learnt(s, c), k, c, DefinitionEvent(c), PutRow(e), s.births[e.id := BirthOf(e)])
  }

  function AppendPending(s: System, k: nat, fails: bool): System {
    match PendingOf(s, k)
    case ToAppend(ev, write) =>
      if fails || !CanAppend(s.log, ev) then s.(clients := s.clients[k := Idle])
      else s.(log := s.log + [ev], clients := s.clients[k := ToWrite(ev, write)])
    case _ => s
  }

  /** Whether the tables take a row write that the storage does not refuse. */
  predicate Takes(s: System, write: Write) {
    match write
    case PutRow(e) => e.id != NO_ID && e.peer != ""
    case StampRow(peer, id, _) => peer != "" && id != NO_ID && id in s.rows && s.rows[id].peer == peer
    case PutRelation(r) => r.id != NO_ID && r.peer != "" && r.from != NO_ID && r.to != NO_ID && r.rtype != ""
    case DropRelation(peer, id) => peer != "" && id != NO_ID && id in s.rels && s.rels[id].peer == peer
  }

  function Written(s: System, ev: Event, write: Write): System
    requires Takes(s, write)
  {
    match write
    case PutRow(e) => s.(rows := s.rows[e.id := Row(e)], writers := s.writers[e.id := ev])
    case StampRow(_, id, at) => s.(rows := s.rows[id := s.rows[id].(archivedAt := Some(at), updatedAt := at)])
    case PutRelation(r) => s.(rels := s.rels[r.id := RelationRow(r)])
    case DropRelation(_, id) => s.(rels := s.rels - {id})
  }

  function FinishPending(s: System, k: nat, fails: bool): System {
    match PendingOf(s, k)
    case ToWrite(ev, write) =>
      (if fails || !Takes(s, write) then s else Written(s, ev, write)).(clients := s.clients[k := Idle])
    case _ => s
  }

  function Next(s: System, a: Action): System {
    match a
    case Start(k, c) => if s.lastId < c.id1 < c.id2 then StartCall(s, k, c) else s
    case Append(k, fails) => AppendPending(s, k, fails)
    case Finish(k, fails) => FinishPending(s, k, fails)
    case Stop(k) => s.(clients := s.clients[k := Idle])
  }

  function Run(s: System, actions: seq<Action>): System {
    if actions == [] then s else Next(Run(s, actions[..|actions| - 1]), actions[|actions| - 1])
  }

  predicate Initial(s: System) {
    s.log == [] && s.rows == map[] && s.rels == map[] && s.clients == map[] && s.births == map[] && s.writers == map[]
  }

  // ---- the invariant ----

  /** The event is a snapshot of the entity: the replay fold takes the entity's data from it. */
  predicate SnapshotOf(ev: Event, id: Id) {
    (ev.etype.EntityCreated? || ev.etype.EntityUpdated?) && ev.payload.EntityPayload? && ev.payload.entity.id == id
  }

  /** The data an event gives the row that its call writes. */
  function DataIn(ev: Event): Data {
    match ev.payload
    case EntityPayload(e) => DataOr(e.data)
    case DefinitionPayload(def) => DefinitionData(if ev.etype.EntityTypeDefined? then EntityKind else RelationKind, def)
    case _ => map[]
  }

  /** The event is of the peer and records the data of `e`: it is a snapshot of `e`, or the definition that `e` stores. */
  predicate Records(ev: Event, e: Entity) {
    && ev.peer == e.peer && DataIn(ev) == DataOr(e.data)
    && (SnapshotOf(ev, e.id) || ev.etype.EntityTypeDefined? || ev.etype.RelationshipTypeDefined?)
  }

  predicate Archives(ev: Event, peer: Did, id: Id, at: Time) {
    ev.peer == peer && ev.etype.EntityArchived? && ev.payload == ArchivePayload(id, at)
  }

  /** Every snapshot is complete and carries its entity's id and peer. */
  predicate WellFormed(ev: Event) {
    ev.etype.EntityCreated? || ev.etype.EntityUpdated? ==>
      && ev.payload.EntityPayload? && ev.payload.entity.id != NO_ID && ev.payload.entity.peer == ev.peer
      && (ev.etype.EntityUpdated? ==> ev.payload.entity.data.Some?)
  }

  ghost predicate ArchiveLogged(log: seq<Event>, peer: Did, id: Id, at: Time) {
    exists i :: 0 <= i < |log| && Archives(log[i], peer, id, at)
  }

  ghost predicate RelationLogged(log: seq<Event>, r: Relation) {
    exists i :: 0 <= i < |log| && log[i].peer == r.peer && log[i].etype.RelationCreated? &&
      log[i].payload.RelationPayload? && RelationRow(log[i].payload.relation) == RelationRow(r)
  }

  /** A copy of an entity, wherever it is: its origin is the recorded one, and if it is
      archived then that archive is in the log. */
  ghost predicate ProperCopy(s: System, e: Entity) {
    && e.id in s.births && s.births[e.id] == BirthOf(e)
    && (e.archivedAt.Some? ==> ArchiveLogged(s.log, e.peer, e.id, e.archivedAt.value))
  }

  /** A row: a proper copy whose data its writer's logged event records. */
  ghost predicate ProperRow(s: System, id: Id)
    requires id in s.rows
  {
    && s.rows[id].id == id && ProperCopy(s, s.rows[id])
    && id in s.writers && Records(s.writers[id], s.rows[id]) && s.writers[id] in s.log
  }

  ghost predicate ProperPending(s: System, p: Pending) {
    match p
    case Idle => true
    case ToAppend(ev, PutRow(e)) =>
      ProperCopy(s, e) && Records(ev, e) && WellFormed(ev) && (ev.payload.EntityPayload? ==> ev.payload.entity == e)
    case ToAppend(ev, StampRow(peer, id, at)) => Archives(ev, peer, id, at)
    case ToAppend(ev, PutRelation(r)) => ev.etype.RelationCreated? && ev.payload == RelationPayload(r) && ev.peer == r.peer
    case ToAppend(ev, DropRelation(_, _)) => ev.etype.RelationDissolved? && !ev.payload.EntityPayload?
    case ToWrite(ev, PutRow(e)) => ProperCopy(s, e) && Records(ev, e) && ev in s.log
    case ToWrite(ev, StampRow(peer, id, at)) => ArchiveLogged(s.log, peer, id, at)
    case ToWrite(ev, PutRelation(r)) => RelationLogged(s.log, r)
    case ToWrite(ev, DropRelation(_, _)) => true
  }

  ghost predicate Inv(s: System) {
    && (forall id :: id in s.births ==> NO_ID < id <= s.lastId)
    && (forall id :: id in s.rows ==> ProperRow(s, id))
    && s.writers.Keys == s.rows.Keys
    && (forall id :: id in s.rels ==> s.rels[id].id == id && RelationLogged(s.log, s.rels[id]))
    && (forall i :: 0 <= i < |s.log| ==> WellFormed(s.log[i]) && (s.log[i].payload.EntityPayload? ==> ProperCopy(s, s.log[i].payload.entity)))
    && (forall k :: k in s.clients ==> ProperPending(s, s.clients[k]))
  }

  /** The log only grows, no row disappears and a recorded origin is never changed. */
  ghost predicate Grows(s: System, u: System) {
    && s.log <= u.log
    && s.rows.Keys <= u.rows.Keys
    && forall id :: id in s.births ==> id in u.births && u.births[id] == s.births[id]
  }

  lemma LoggedStays(log: seq<Event>, more: seq<Event>, r: Relation, peer: Did, id: Id, at: Time, ev: Event)
    requires log <= more
    ensures RelationLogged(log, r) ==> RelationLogged(more, r)
    ensures ArchiveLogged(log, peer, id, at) ==> ArchiveLogged(more, peer, id, at)
    ensures ev in log ==> ev in more
  {
    if RelationLogged(log, r) {
      var i :| 0 <= i < |log| && log[i].peer == r.peer && log[i].etype.RelationCreated? &&
        log[i].payload.RelationPayload? && RelationRow(log[i].payload.relation) == RelationRow(r);
      assert more[i] == log[i];
    }
    if i :| 0 <= i < |log| && Archives(log[i], peer, id, at) { assert Archives(more[i], peer, id, at); }
    if ev in log {
      var i :| 0 <= i < |log| && log[i] == ev;
      assert more[i] == ev;
    }
  }

  const NO_RELATION := Relation(NO_ID, NO_ID, NO_ID, "", "", ZERO_TIME, "", "", None)
  const NO_EVENT := Event(NO_ID, "", EntityArchived, Unreadable, ZERO_TIME, "", "")

  lemma CopyStays(s: System, u: System, e: Entity)
    requires ProperCopy(s, e) && Grows(s, u)
    ensures ProperCopy(u, e)
  {
    if e.archivedAt.Some? { LoggedStays(s.log, u.log, NO_RELATION, e.peer, e.id, e.archivedAt.value, NO_EVENT); }
  }

  /** Neither the row nor its writer differs. */
  predicate SameRow(s: System, u: System, id: Id) {
    id in s.rows && id in u.rows && u.rows[id] == s.rows[id] && id in s.writers && id in u.writers && u.writers[id] == s.writers[id]
  }

  lemma RowStays(s: System, u: System, id: Id)
    requires id in s.rows && ProperRow(s, id) && Grows(s, u) && SameRow(s, u, id)
    ensures ProperRow(u, id)
  {
    CopyStays(s, u, s.rows[id]);
    LoggedStays(s.log, u.log, NO_RELATION, "", NO_ID, ZERO_TIME, s.writers[id]);
  }

  lemma PendingStays(s: System, u: System, p: Pending)
    requires ProperPending(s, p) && Grows(s, u)
    ensures ProperPending(u, p)
  {
    hide ProperCopy, ArchiveLogged, RelationLogged, Records, WellFormed;
    assert s.log <= u.log by { GrowsLog(s, u); }
    match p
    case Idle =>
    case ToAppend(_, write) => if write.PutRow? { CopyStays(s, u, write.e); }
    case ToWrite(ev, write) =>
      LoggedStays(s.log, u.log, if write.PutRelation? then write.r else NO_RELATION, if write.StampRow? then write.peer else "",
                  if write.StampRow? then write.id else NO_ID, if write.StampRow? then write.at else ZERO_TIME, ev);
      if write.PutRow? { CopyStays(s, u, write.e); }
  }

  lemma GrowsLog(s: System, u: System)
    requires Grows(s, u)
    ensures s.log <= u.log
  {
  }

  /** The invariant survives a growing step whose new rows, relations, events and tasks are proper. */
  lemma InvFrame(s: System, u: System)
    requires Inv(s) && Grows(s, u)
    requires forall id :: id in u.births ==> NO_ID < id <= u.lastId
    requires forall id :: id in u.rows && !SameRow(s, u, id) ==> ProperRow(u, id)
    requires u.writers.Keys == u.rows.Keys
    requires forall id :: id in u.rels && !(id in s.rels && u.rels[id] == s.rels[id]) ==> u.rels[id].id == id && RelationLogged(u.log, u.rels[id])
    requires forall i :: |s.log| <= i < |u.log| ==> WellFormed(u.log[i]) && (u.log[i].payload.EntityPayload? ==> ProperCopy(u, u.log[i].payload.entity))
    requires forall k :: k in u.clients && !(k in s.clients && u.clients[k] == s.clients[k]) ==> ProperPending(u, u.clients[k])
    ensures Inv(u)
  {
    hide ProperCopy, ProperPending, ProperRow, Grows, WellFormed, RelationLogged;
    assert s.log <= u.log by { GrowsLog(s, u); }
    forall id | id in u.rows ensures ProperRow(u, id) {
      if SameRow(s, u, id) { RowStays(s, u, id); }
    }
    forall id | id in u.rels ensures u.rels[id].id == id && RelationLogged(u.log, u.rels[id]) {
      if id in s.rels && u.rels[id] == s.rels[id] { LoggedStays(s.log, u.log, s.rels[id], "", NO_ID, ZERO_TIME, NO_EVENT); }
    }
    forall i | 0 <= i < |u.log| ensures WellFormed(u.log[i]) && (u.log[i].payload.EntityPayload? ==> ProperCopy(u, u.log[i].payload.entity)) {
      if i < |s.log| {
        assert u.log[i] == s.log[i];
        if u.log[i].payload.EntityPayload? { CopyStays(s, u, s.log[i].payload.entity); }
      }
    }
    forall k | k in u.clients ensures ProperPending(u, u.clients[k]) {
      if k in s.clients && u.clients[k] == s.clients[k] { PendingStays(s, u, s.clients[k]); }
    }
  }

  // ---- every step keeps it ----

  /** Drawing a fresh id records its origin and disturbs no other. */
  lemma BeginKeeps(s: System, base: System, k: nat, c: Call, ev: Event, write: Write, births: map<Id, Birth>)
    requires Inv(s) && base == s.(etypes := base.etypes, rtypes := base.rtypes) && s.lastId < c.id1 < c.id2
    requires forall id :: id in s.births ==> id in births && births[id] == s.births[id]
    requires forall id :: id in births ==> NO_ID < id <= c.id2
    requires ProperPending(Begin(base, k, c, ev, write, births), ToAppend(ev, write))
    ensures Inv(Begin(base, k, c, ev, write, births)) && Grows(s, Begin(base, k, c, ev, write, births))
  {
    hide ProperPending, ProperCopy, ProperRow, RelationLogged, WellFormed;
    InvFrame(s, Begin(base, k, c, ev, write, births));
  }

  lemma CreateKeeps(s: System, k: nat, c: Call)
    requires Inv(s) && s.lastId < c.id1 < c.id2 && c.req.EntityCreate?
    ensures Inv(StartCreate(s, k, c)) && Grows(s, StartCreate(s, k, c))
  {
    hide ProperRow, Validated;
    var defs := TypesOf(s.etypes, c.target);
    if c.req.etype in defs && Validated(defs[c.req.etype], c.req.fields).1 {
      var data := Validated(defs[c.req.etype], c.req.fields).0;
      var e := CreatedEntity(c, data);
      BeginKeeps(s, s, k, c, CreateEvent(c, data), PutRow(e), s.births[e.id := BirthOf(e)]);
    }
  }

  /** An update carries the row it read, changed in its data and update time only. */
  lemma UpdateIsProper(s: System, c: Call)
    requires c.req.EntityUpdate? && c.req.id in s.rows && s.rows[c.req.id].peer == c.target
    requires ProperRow(s, c.req.id) && NO_ID < c.req.id
    ensures ProperPending(s, ToAppend(UpdateEvent(c, s.rows[c.req.id]), PutRow(Merged(s.rows[c.req.id], c.req.changes, c.now))))
  {
  }

  lemma RowIsBorn(s: System, id: Id)
    requires Inv(s) && id in s.rows
    ensures ProperRow(s, id) && NO_ID < id
  {
    assert ProperRow(s, id);
  }

  lemma UpdateKeeps(s: System, k: nat, c: Call)
    requires Inv(s) && s.lastId < c.id1 < c.id2 && c.req.EntityUpdate?
    ensures Inv(StartCall(s, k, c)) && Grows(s, StartCall(s, k, c))
  {
    hide Inv, ProperRow, ProperPending, UpdateEvent, Merged, ProperCopy, WellFormed, RelationLogged, Begin;
    var id := c.req.id;
    if id in s.rows && s.rows[id].peer == c.target {
      RowIsBorn(s, id);
      UpdateIsProper(s, c);
      BeginKeepsTables(s, k, c, UpdateEvent(c, s.rows[id]), PutRow(Merged(s.rows[id], c.req.changes, c.now)));
    } else {
      Still(s);
    }
  }

  /** Beginning a call that draws no entity id. */
  lemma BeginKeepsTables(s: System, k: nat, c: Call, ev: Event, write: Write)
    requires Inv(s) && s.lastId < c.id1 < c.id2 && ProperPending(s, ToAppend(ev, write))
    ensures Inv(Begin(s, k, c, ev, write, s.births)) && Grows(s, Begin(s, k, c, ev, write, s.births))
  {
    hide ProperPending, ProperCopy, ProperRow, RelationLogged, WellFormed;
    var u := Begin(s, k, c, ev, write, s.births);
    PendingStays(s, u, ToAppend(ev, write));
    BeginKeeps(s, s, k, c, ev, write, s.births);
  }

  lemma LearntKeepsTables(s: System, c: Call)
    requires Defines(c)
    ensures Learnt(s, c) == s.(etypes := Learnt(s, c).etypes, rtypes := Learnt(s, c).rtypes)
  {
  }

  /** The row of a definition and the event that records it. */
  lemma DefinitionIsProper(c: Call)
    requires Defines(c)
    ensures var e, ev := DefinitionEntity(c), DefinitionEvent(c);
      Records(ev, e) && WellFormed(ev) && !ev.payload.EntityPayload? && e.id == DefinitionId(c) && e.archivedAt.None?
  {
    DefinitionRow(c);
    hide DefinitionEntity, DefinitionData, DefinedType;
  }

  lemma DefineKeeps(s: System, k: nat, c: Call)
    requires Inv(s) && s.lastId < c.id1 < c.id2 && Defines(c)
    ensures Inv(StartDefine(s, k, c)) && Grows(s, StartDefine(s, k, c))
  {
    var e, ev := DefinitionEntity(c), DefinitionEvent(c);
    DefinitionIsProper(c);
    LearntKeepsTables(s, c);
    hide DefinitionEntity, DefinitionEvent, Learnt, Records, WellFormed, ProperRow;
    BeginKeeps(s, Learnt(s, c), k, c, ev, PutRow(e), s.births[e.id := BirthOf(e)]);
  }

  lemma StartKeeps(s: System, k: nat, c: Call)
    requires Inv(s) && s.lastId < c.id1 < c.id2
    ensures Inv(StartCall(s, k, c)) && Grows(s, StartCall(s, k, c))
  {
    hide StartCreate, StartDefine, ProperRow;
    match c.req
    case EntityCreate(_, _, _, _) => CreateKeeps(s, k, c);
    case EntityUpdate(_, _, _, _) => UpdateKeeps(s, k, c);
    case EntityArchive(id, _, _) => BeginKeeps(s, s, k, c, ArchiveEvent(c), StampRow(c.target, id, c.now), s.births);
    case RelationCreate(_, _, _, _, _, _) =>
      if c.req.rtype in TypesOf(s.rtypes, c.target) { BeginKeeps(s, s, k, c, RelationEvent(c), PutRelation(CreatedRelation(c)), s.births); }
    case RelationDissolve(id, _, _) => BeginKeeps(s, s, k, c, DissolveEvent(c), DropRelation(c.target, id), s.births);
    case TypeDefine(_, _, _, _, _, _, _) => DefineKeeps(s, k, c);
    case SeedType(_, _, _) => DefineKeeps(s, k, c);
    case _ =>
  }

  lemma AppendedIsProper(s: System, u: System, ev: Event, write: Write)
    requires ProperPending(s, ToAppend(ev, write)) && Grows(s, u) && u.log == s.log + [ev]
    ensures ProperPending(u, ToWrite(ev, write))
    ensures WellFormed(ev) && (ev.payload.EntityPayload? ==> ProperCopy(u, ev.payload.entity))
  {
    PendingStays(s, u, ToAppend(ev, write));
    var n := |s.log|;
    assert u.log[n] == ev;
    match write
    case PutRow(_) =>
    case StampRow(peer, id, at) => assert Archives(u.log[n], peer, id, at);
    case PutRelation(_) =>
    case DropRelation(_, _) =>
  }

  lemma LoggedKeeps(s: System, k: nat, ev: Event, write: Write)
    requires Inv(s) && ProperPending(s, ToAppend(ev, write))
    ensures var u := s.(log := s.log + [ev], clients := s.clients[k := ToWrite(ev, write)]); Inv(u) && Grows(s, u)
  {
    var u := s.(log := s.log + [ev], clients := s.clients[k := ToWrite(ev, write)]);
    AppendedIsProper(s, u, ev, write);
    hide ProperPending, ProperCopy, ProperRow, WellFormed, RelationLogged;
    InvFrame(s, u);
  }

  lemma AppendKeeps(s: System, k: nat, fails: bool)
    requires Inv(s)
    ensures Inv(AppendPending(s, k, fails)) && Grows(s, AppendPending(s, k, fails))
  {
    match PendingOf(s, k)
    case ToAppend(ev, write) =>
      assert ProperPending(s, ToAppend(ev, write));
      hide Inv, Grows, ProperPending;
      StopKeeps(s, k);
      LoggedKeeps(s, k, ev, write);
    case _ => Still(s);
  }

  lemma PutKeeps(s: System, ev: Event, e: Entity, u: System)
    requires Inv(s) && ProperPending(s, ToWrite(ev, PutRow(e))) && Takes(s, PutRow(e))
    requires u == Written(s, ev, PutRow(e)).(clients := u.clients)
    requires forall k :: k in u.clients && !(k in s.clients && u.clients[k] == s.clients[k]) ==> u.clients[k] == Idle
    ensures Inv(u) && Grows(s, u)
  {
    assert ProperRow(u, e.id) by { hide SnapshotOf, DataIn; }
    hide ProperPending, ProperCopy, ProperRow, RelationLogged, WellFormed;
    assert ProperPending(u, Idle) by { IdleIsProper(u); }
    InvFrame(s, u);
  }

  lemma IdleIsProper(s: System)
    ensures ProperPending(s, Idle)
  {
  }

  lemma StampedRow(s: System, ev: Event, peer: Did, id: Id, at: Time, u: System)
    requires id in s.rows && ProperRow(s, id) && s.rows[id].peer == peer && ArchiveLogged(s.log, peer, id, at)
    requires Takes(s, StampRow(peer, id, at)) && u == Written(s, ev, StampRow(peer, id, at)).(clients := u.clients)
    ensures ProperRow(u, id)
  {
    hide SnapshotOf, DataIn, ArchiveLogged;
  }

  lemma StampKeeps(s: System, ev: Event, peer: Did, id: Id, at: Time, u: System)
    requires Inv(s) && ArchiveLogged(s.log, peer, id, at) && Takes(s, StampRow(peer, id, at))
    requires u == Written(s, ev, StampRow(peer, id, at)).(clients := u.clients)
    requires forall k :: k in u.clients && !(k in s.clients && u.clients[k] == s.clients[k]) ==> u.clients[k] == Idle
    ensures Inv(u) && Grows(s, u)
  {
    hide ProperPending, ProperCopy, ProperRow, RelationLogged, WellFormed, ArchiveLogged, Records;
    StampedRow(s, ev, peer, id, at, u);
    IdleIsProper(u);
    InvFrame(s, u);
  }

  lemma PutRelationKeeps(s: System, ev: Event, r: Relation, u: System)
    requires Inv(s) && RelationLogged(s.log, r) && Takes(s, PutRelation(r))
    requires u == Written(s, ev, PutRelation(r)).(clients := u.clients)
    requires forall k :: k in u.clients && !(k in s.clients && u.clients[k] == s.clients[k]) ==> u.clients[k] == Idle
    ensures Inv(u) && Grows(s, u)
  {
    assert RelationLogged(u.log, RelationRow(r)) by { assert RelationRow(RelationRow(r)) == RelationRow(r); }
    hide ProperPending, ProperCopy, ProperRow, RelationLogged, WellFormed;
    IdleIsProper(u);
    InvFrame(s, u);
  }

  lemma DropRelationKeeps(s: System, ev: Event, peer: Did, id: Id, u: System)
    requires Inv(s) && Takes(s, DropRelation(peer, id))
    requires u == Written(s, ev, DropRelation(peer, id)).(clients := u.clients)
    requires forall k :: k in u.clients && !(k in s.clients && u.clients[k] == s.clients[k]) ==> u.clients[k] == Idle
    ensures Inv(u) && Grows(s, u)
  {
    hide ProperPending, ProperCopy, ProperRow, RelationLogged, WellFormed;
    IdleIsProper(u);
    InvFrame(s, u);
  }

  lemma StopKeeps(s: System, k: nat)
    requires Inv(s)
    ensures Inv(s.(clients := s.clients[k := Idle])) && Grows(s, s.(clients := s.clients[k := Idle]))
  {
    hide ProperPending, ProperCopy, ProperRow, RelationLogged, WellFormed;
    var u := s.(clients := s.clients[k := Idle]);
    assert ProperPending(u, Idle) by { IdleIsProper(u); }
    InvFrame(s, u);
  }

  lemma StampLogged(s: System, ev: Event, peer: Did, id: Id, at: Time)
    requires ProperPending(s, ToWrite(ev, StampRow(peer, id, at)))
    ensures ArchiveLogged(s.log, peer, id, at)
  {
  }

  lemma RelationWritten(s: System, ev: Event, r: Relation)
    requires ProperPending(s, ToWrite(ev, PutRelation(r)))
    ensures RelationLogged(s.log, r)
  {
  }

  lemma WriteKeeps(s: System, ev: Event, write: Write, u: System)
    requires Inv(s) && ProperPending(s, ToWrite(ev, write)) && Takes(s, write) && u == Written(s, ev, write).(clients := u.clients)
    requires forall k :: k in u.clients && !(k in s.clients && u.clients[k] == s.clients[k]) ==> u.clients[k] == Idle
    ensures Inv(u) && Grows(s, u)
  {
    hide Inv, ProperPending, Grows, Takes, Written;
    match write
    case PutRow(e) => PutKeeps(s, ev, e, u);
    case StampRow(peer, id, at) =>
      assert ArchiveLogged(s.log, peer, id, at) by { StampLogged(s, ev, peer, id, at); }
      StampKeeps(s, ev, peer, id, at, u);
    case PutRelation(r) =>
      assert RelationLogged(s.log, r) by { RelationWritten(s, ev, r); }
      PutRelationKeeps(s, ev, r, u);
    case DropRelation(peer, id) => DropRelationKeeps(s, ev, peer, id, u);
  }

  lemma WrittenClients(s: System, ev: Event, write: Write)
    requires Takes(s, write)
    ensures Written(s, ev, write).clients == s.clients
  {
  }

  lemma FinishKeeps(s: System, k: nat, fails: bool)
    requires Inv(s)
    ensures Inv(FinishPending(s, k, fails)) && Grows(s, FinishPending(s, k, fails))
  {
    match PendingOf(s, k)
    case ToWrite(ev, write) =>
      assert ProperPending(s, ToWrite(ev, write));
      hide Inv, ProperPending, Grows, Takes, Written;
      if fails || !Takes(s, write) {
        StopKeeps(s, k);
      } else {
        WrittenClients(s, ev, write);
        WriteKeeps(s, ev, write, FinishPending(s, k, fails));
      }
    case _ => Still(s);
  }

  lemma Still(s: System)
    ensures Grows(s, s)
  {
  }

  /** Each single store step of any client keeps the invariant. */
  lemma NextKeeps(s: System, a: Action)
    requires Inv(s)
    ensures Inv(Next(s, a)) && Grows(s, Next(s, a))
  {
    hide StartCall, AppendPending, FinishPending, Inv, Grows;
    Still(s);
    match a
    case Start(k, c) => if s.lastId < c.id1 < c.id2 { StartKeeps(s, k, c); }
    case Append(k, fails) => AppendKeeps(s, k, fails);
    case Finish(k, fails) => FinishKeeps(s, k, fails);
    case Stop(k) => StopKeeps(s, k);
  }

  lemma {:induction false} RunKeeps(s: System, actions: seq<Action>)
    requires Inv(s)
    ensures Inv(Run(s, actions)) && Grows(s, Run(s, actions))
  {
    hide Next, Inv;
    if actions != [] {
      var before := actions[..|actions| - 1];
      RunKeeps(s, before);
      NextKeeps(Run(s, before), actions[|actions| - 1]);
    }
  }

  lemma {:induction false} RunConcat(s: System, before: seq<Action>, after: seq<Action>)
    ensures Run(s, before + after) == Run(Run(s, before), after)
  {
    if after == [] {
      assert before + after == before;
    } else {
      RunConcat(s, before, after[..|after| - 1]);
      assert (before + after)[..|before + after| - 1] == before + after[..|after| - 1];
    }
  }

  lemma InitialInv(s: System)
    requires Initial(s)
    ensures Inv(s)
  {
  }

  // ---- safety ----

  /** `e` is a copy of an entity held somewhere: a row, a logged snapshot, or a client's
      copy on its way to the log or to the row. */
  ghost predicate Holds(s: System, e: Entity) {
    || (e.id in s.rows && s.rows[e.id] == e)
    || (exists i :: 0 <= i < |s.log| && s.log[i].payload == EntityPayload(e))
    || (exists k :: k in s.clients && Carries(s.clients[k], e))
  }

  predicate Carries(p: Pending, e: Entity) {
    (p.ToWrite? && p.owed == PutRow(e)) || (p.ToAppend? && p.write == PutRow(e))
  }

  /** Safety under every interleaving, from every reachable state to every later one: the
      log only grows, every row's data is what some logged event of its peer records,
      every archived row has its archive in the log, every relation has its creation there, and no two
      copies of an entity, at the same time or at different times, differ in type, peer or creation metadata. */
  lemma InterleavedSafety(init: System, before: seq<Action>, after: seq<Action>)
    requires Initial(init)
    ensures var s, u := Run(init, before), Run(init, before + after);
      && s.log <= u.log
      && (forall id :: id in u.rows ==> exists ev :: ev in u.log && Records(ev, u.rows[id]))
      && (forall id :: id in u.rows && u.rows[id].archivedAt.Some? ==>
            ArchiveLogged(u.log, u.rows[id].peer, id, u.rows[id].archivedAt.value))
      && (forall id :: id in u.rels ==> RelationLogged(u.log, u.rels[id]))
      && (forall e, f :: Holds(s, e) && Holds(u, f) && e.id == f.id ==> BirthOf(e) == BirthOf(f))
  {
    hide Run, ArchiveLogged, Records, RelationLogged, WellFormed, Holds;
    InitialInv(init);
    var s, u := Run(init, before), Run(init, before + after);
    RunKeeps(init, before);
    RunConcat(init, before, after);
    RunKeeps(s, after);
    forall id | id in u.rows ensures exists ev :: ev in u.log && Records(ev, u.rows[id]) {
      assert ProperRow(u, id);
      assert u.writers[id] in u.log && Records(u.writers[id], u.rows[id]);
    }
    forall e | Holds(s, e) ensures e.id in s.births && s.births[e.id] == BirthOf(e) { CopiesKnown(s, e); }
    forall e | Holds(u, e) ensures e.id in u.births && u.births[e.id] == BirthOf(e) { CopiesKnown(u, e); }
  }

  lemma CopiesKnown(s: System, e: Entity)
    requires Inv(s) && Holds(s, e)
    ensures e.id in s.births && s.births[e.id] == BirthOf(e)
  {
    if e.id in s.rows && s.rows[e.id] == e { assert ProperRow(s, e.id); }
    if k :| k in s.clients && Carries(s.clients[k], e) { assert ProperPending(s, s.clients[k]); }
  }
}
