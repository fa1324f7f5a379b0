/** The entity table is a cache of the log: for one peer's private machine, replaying its
    log gives its rows, with the exact exceptions the code makes. */
module Replay {
  import opened Types
  import opened Requests
  import opened EventLog
  import opened Ranking
  import opened Private

  /** The row that replay predicts for a replayed entity.  An archive stamps the row's
      update time but not the replayed one. */
  function Replayed(f: Entity, archivedLast: bool): Entity {
    f.(data := Some(DataOr(f.data)),
       updatedAt := if archivedLast && f.archivedAt.Some? then f.archivedAt.value else f.updatedAt)
  }

  /** What a run leaves for replay to account for, all of it readable off the calls and
      their replies: definition rows never updated since, and the ids whose last data
      write, archive or relation write was logged but failed on its row. */
  datatype Marks = Marks(
    definitions: set<Id>, staleData: set<Id>, staleArchive: set<Id>, staleRels: set<Id>)

  const NO_MARKS := Marks({}, {}, {}, {})

  function With(s: set<Id>, id: Id, present: bool): set<Id> {
    if present then s + {id} else s - {id}
  }

  /** The marks after a call, given whether it logged its event and whether it failed. */
  function MarkCall(v: View, m: Marks, c: Call, logged: bool, failed: bool): Marks {
    if !logged then m
    else match c.req
      case EntityCreate(_, _, _, _) => m.(staleData := With(m.staleData, c.id1, failed))
      case EntityUpdate(id, _, _, _) =>
        m.(definitions := m.definitions - {id}, staleData := With(m.staleData, id, failed))
      case EntityArchive(id, _, _) =>
        if id in Fold(v.log) then m.(staleArchive := With(m.staleArchive, id, failed)) else m
      case RelationCreate(_, _, _, _, _, _) => m.(staleRels := With(m.staleRels, c.id1, failed && ProperEndpoints(c)))
      case RelationDissolve(id, _, _) => m.(staleRels := With(m.staleRels, id, failed && id in v.rels))
      case TypeDefine(_, _, _, _, _, _, _) => if failed then m else m.(definitions := m.definitions + {DefinitionId(c)})
      case SeedType(_, _, _) => if failed then m else m.(definitions := m.definitions + {DefinitionId(c)})
      case _ => m
  }

  ghost function Mark(v: View, m: Marks, c: Call): Marks {
    MarkCall(v, m, c, Step(v, c).0.log != v.log, Step(v, c).1.Failed?)
  }

  ghost function MarksOf(v: View, calls: seq<Call>): Marks {
    if calls == [] then NO_MARKS
    else
      var before := calls[..|calls| - 1];
      Mark(Exec(v, before), MarksOf(v, before), calls[|calls| - 1])
  }

  predicate SameOrigin(a: Entity, b: Entity) {
    && a.id == b.id && a.etype == b.etype && a.peer == b.peer
    && a.createdAt == b.createdAt && a.createdByDid == b.createdByDid && a.createdByClient == b.createdByClient
  }

  function At<T>(m: map<Id, T>, id: Id): Option<T> {
    if id in m then Some(m[id]) else None
  }

  /** The relation between the row and the replayed entity of one id, given whether the
      last event that changed the latter is an archive, and the id's marks. */
  predicate AgreeAt(row: Option<Entity>, f: Option<Entity>, archivedLast: bool,
                    definition: bool, staleData: bool, staleArchive: bool)
  {
    match (row, f)
    case (None, None) => !definition
    case (None, Some(_)) => !definition && staleData
    case (Some(r), None) => definition && (r.etype == DefinitionType(EntityKind) || r.etype == DefinitionType(RelationKind))
    case (Some(r), Some(e)) =>
      && !definition
      && SameOrigin(r, e)
      && (staleData || DataOr(r.data) == DataOr(e.data))
      && (staleArchive || r.archivedAt == e.archivedAt)
      && (staleData || staleArchive ||
            if archivedLast then r.archivedAt == Some(r.updatedAt) else r.updatedAt == e.updatedAt)
  }

  ghost predicate Agrees(v: View, m: Marks, id: Id) {
    AgreeAt(At(v.rows, id), At(Fold(v.log), id), ArchivedLast(v.log, id),
            id in m.definitions, id in m.staleData, id in m.staleArchive)
  }

  ghost predicate ProperRow(v: View, id: Id, peer: Did) {
    id in v.rows ==>
      id > NO_ID && v.rows[id].id == id && v.rows[id].peer == peer && v.rows[id].data.Some? && v.rows[id].createdAt > ZERO_TIME
  }

  /** Rows are proper, and the log is the peer's own and sorted by time and id. */
  ghost predicate WellFormed(v: View, peer: Did, last: Id, now: Time) {
    && (forall id :: id in v.rows ==> id <= last && ProperRow(v, id, peer))
    && (forall i :: 0 <= i < |v.log| ==> v.log[i].peer == peer && v.log[i].id <= last && v.log[i].timestamp <= now)
    && SortedEvents(v.log)
  }

  ghost predicate Coherent(v: View, m: Marks, peer: Did, last: Id, now: Time) {
    && WellFormed(v, peer, last, now)
    && (forall id :: id in m.staleData ==> id <= last)
    && (forall id :: Agrees(v, m, id))
  }

  predicate Timely(c: Call, peer: Did, last: Id, now: Time) {
    Concerns(c, peer) && peer != "" && last < c.id1 < c.id2 && now <= c.now && ZERO_TIME < c.now
  }

  // ---- what each event does to the fold ----

  lemma FoldCreate(log: seq<Event>, c: Call, data: Option<Data>)
    requires c.req.EntityCreate? && c.target != "" && c.now > ZERO_TIME && c.id1 > NO_ID
    ensures Fold(log + [CreateEvent(c, data)]) == Fold(log)[c.id1 := CreatedEntity(c, data)]
  {
    FoldAppend(log, CreateEvent(c, data));
  }

  lemma FoldUpdate(log: seq<Event>, c: Call, row: Entity)
    requires c.req.EntityUpdate? && c.now > ZERO_TIME
    requires row.id > NO_ID && row.peer != "" && row.createdAt > ZERO_TIME
    ensures var f, e := Fold(log), Merged(row, c.req.changes, c.now);
      Fold(log + [UpdateEvent(c, row)]) == f[row.id := if row.id in f then Merge(f[row.id], e, c.now) else e]
  {
    FoldAppend(log, UpdateEvent(c, row));
  }

  lemma FoldArchive(log: seq<Event>, c: Call)
    requires c.req.EntityArchive? && c.now > ZERO_TIME
    ensures var f, id := Fold(log), c.req.id;
      Fold(log + [ArchiveEvent(c)]) == if id in f then f[id := f[id].(archivedAt := Some(c.now))] else f
  {
    FoldAppend(log, ArchiveEvent(c));
  }

  lemma LastEffectiveAppend(log: seq<Event>, ev: Event, id: Id)
    ensures LastEffective(log + [ev], id) ==
      if ev.etype.EntityArchived? then
        (var d := DecodeArchive(ev.payload);
         if d.Some? && d.value.0 == id && id in Fold(log) then Some(ev.etype) else LastEffective(log, id))
      else if ev.etype.EntityCreated? || ev.etype.EntityUpdated? then
        (var d := DecodeEntity(ev);
         if d.Some? && d.value.id == id then Some(ev.etype) else LastEffective(log, id))
      else LastEffective(log, id)
  {
    assert (log + [ev])[..|log|] == log;
  }

  lemma AppendSorted(log: seq<Event>, ev: Event)
    requires SortedEvents(log)
    requires forall i :: 0 <= i < |log| ==> log[i].timestamp <= ev.timestamp && log[i].id <= ev.id
    ensures SortedEvents(log + [ev])
  {
  }

  // ---- every operation keeps the agreement ----

  /** An id no row and no replayed entity has. */
  ghost predicate Unused(v: View, id: Id) {
    id !in v.rows && id !in Fold(v.log)
  }

  /** Replay ignores every event that is not about an entity. */
  lemma Ignored(log: seq<Event>, ev: Event, id: Id)
    requires !ev.etype.EntityCreated? && !ev.etype.EntityUpdated? && !ev.etype.EntityArchived?
    ensures Fold(log + [ev]) == Fold(log) && LastEffective(log + [ev], id) == LastEffective(log, id)
  {
    FoldAppend(log, ev);
    LastEffectiveAppend(log, ev, id);
  }

  lemma CreateAgrees(v: View, m: Marks, c: Call, id: Id)
    requires Agrees(v, m, id) && c.req.EntityCreate? && Unused(v, c.id1)
    requires c.target != "" && c.now > ZERO_TIME && c.id1 > NO_ID
    ensures var (u, reply) := Create(v, c); Agrees(u, MarkCall(v, m, c, u.log != v.log, reply.Failed?), id)
  {
    hide Fold, LastEffective, Validated;
    if c.req.etype in v.etypes && Validated(v.etypes[c.req.etype], c.req.fields).1 && !c.fault.AppendFails? {
      var data := Validated(v.etypes[c.req.etype], c.req.fields).0;
      var ev := CreateEvent(c, data);
      assert Create(v, c).0.log == v.log + [ev];
      FoldCreate(v.log, c, data);
      LastEffectiveAppend(v.log, ev, id);
    }
  }

  /** An update logged ends the excuses for old data; a failed row write leaves a new one. */
  lemma UpdatedAgreeAt(row: Entity, f: Option<Entity>, archivedLast: bool, definition: bool, staleData: bool, staleArchive: bool,
                       changes: Data, now: Time, failed: bool)
    requires AgreeAt(Some(row), f, archivedLast, definition, staleData, staleArchive) && row.data.Some? && now > ZERO_TIME
    ensures var e := Merged(row, changes, now);
      AgreeAt(Some(if failed then row else e), Some(if f.Some? then Merge(f.value, e, now) else e), false, false, failed, staleArchive)
  {
  }

  /** What a logged update does to its row and to the replay. */
  lemma UpdateLogged(v: View, c: Call, id: Id)
    requires c.req.EntityUpdate? && c.req.id in v.rows && ProperRow(v, c.req.id, c.target) && !c.fault.AppendFails?
    requires c.target != "" && c.now > ZERO_TIME
    ensures var (u, reply) := Update(v, c); var row, f := v.rows[c.req.id], Fold(v.log); var e := Merged(row, c.req.changes, c.now);
      && u.log != v.log
      && u.rows == v.rows[c.req.id := if reply.Failed? then row else e]
      && Fold(u.log) == f[c.req.id := if c.req.id in f then Merge(f[c.req.id], e, c.now) else e]
      && LastEffective(u.log, id) == if id == c.req.id then Some(EntityUpdated) else LastEffective(v.log, id)
  {
    hide Fold, LastEffective;
    var row := v.rows[c.req.id];
    var ev := UpdateEvent(c, row);
    assert Update(v, c).0.log == v.log + [ev];
    FoldUpdate(v.log, c, row);
    LastEffectiveAppend(v.log, ev, id);
    assert DecodeEntity(ev) == Some(Merged(row, c.req.changes, c.now));
    assert v.rows[c.req.id := row] == v.rows;
  }

  lemma UpdateAgrees(v: View, m: Marks, c: Call, id: Id)
    requires Agrees(v, m, id) && c.req.EntityUpdate? && ProperRow(v, c.req.id, c.target)
    requires c.target != "" && c.now > ZERO_TIME
    ensures var (u, reply) := Update(v, c); Agrees(u, MarkCall(v, m, c, u.log != v.log, reply.Failed?), id)
  {
    hide Fold, LastEffective;
    if c.req.id in v.rows && !c.fault.AppendFails? {
      UpdateLogged(v, c, id);
      if id == c.req.id {
        UpdatedAgreeAt(v.rows[id], At(Fold(v.log), id), ArchivedLast(v.log, id), id in m.definitions, id in m.staleData, id in m.staleArchive,
                       c.req.changes, c.now, Update(v, c).1.Failed?);
      }
      hide AgreeAt, Update, Merge, Merged;
    }
  }

  lemma ArchiveAgrees(v: View, m: Marks, c: Call, id: Id)
    requires Agrees(v, m, id) && c.req.EntityArchive? && c.now > ZERO_TIME
    ensures var (u, reply) := Archive(v, c); Agrees(u, MarkCall(v, m, c, u.log != v.log, reply.Failed?), id)
  {
    hide Fold, LastEffective;
    if !c.fault.AppendFails? {
      assert Archive(v, c).0.log == v.log + [ArchiveEvent(c)];
      FoldArchive(v.log, c);
      LastEffectiveAppend(v.log, ArchiveEvent(c), id);
    }
  }

  lemma RegisterKeeps(v: View, c: Call)
    requires Defines(c)
    ensures var u := Register(v, c.req.kind, DefinedType(c)); u.rows == v.rows && u.log == v.log
  {
  }

  lemma DefineAgrees(v: View, m: Marks, c: Call, id: Id)
    requires Agrees(v, m, id) && Defines(c) && Unused(v, DefinitionId(c))
    ensures var (u, reply) := Define(v, c); Agrees(u, MarkCall(v, m, c, u.log != v.log, reply.Failed?), id)
  {
    hide Fold, LastEffective, DefinitionData, DefinitionAuthor, DefinedType, SameOrigin;
    var ev, e := DefinitionEvent(c), DefinitionEntity(c);
    Ignored(v.log, ev, id);
    assert e.id == DefinitionId(c) && e.etype == DefinitionType(c.req.kind);
    hide DefinitionEvent, DefinitionEntity, DefinitionId, Register;
    assert Register(v, c.req.kind, DefinedType(c)).rows == v.rows && Register(v, c.req.kind, DefinedType(c)).log == v.log by { RegisterKeeps(v, c); }
  }

  lemma RelateAgrees(v: View, m: Marks, c: Call, id: Id)
    requires Agrees(v, m, id) && c.req.RelationCreate?
    ensures var (u, reply) := Relate(v, c); Agrees(u, MarkCall(v, m, c, u.log != v.log, reply.Failed?), id)
  {
    hide Fold, LastEffective, AgreeAt;
    Ignored(v.log, RelationEvent(c), id);
  }

  lemma DissolveAgrees(v: View, m: Marks, c: Call, id: Id)
    requires Agrees(v, m, id) && c.req.RelationDissolve?
    ensures var (u, reply) := Dissolve(v, c); Agrees(u, MarkCall(v, m, c, u.log != v.log, reply.Failed?), id)
  {
    hide Fold, LastEffective, AgreeAt;
    Ignored(v.log, DissolveEvent(c), id);
  }

  lemma StepAgrees(v: View, m: Marks, c: Call, peer: Did, last: Id, now: Time, id: Id)
    requires Coherent(v, m, peer, last, now) && Timely(c, peer, last, now)
    ensures Agrees(Step(v, c).0, Mark(v, m, c), id)
  {
    hide Fold, LastEffective, Create, Update, Archive, Relate, Dissolve, Define;
    assert Agrees(v, m, id) && Agrees(v, m, c.id1) && Agrees(v, m, c.id2);
    if c.req.Reopen? || c.req.Join? {
    } else if v.registered || c.req.SeedType? {
      match c.req
      case EntityCreate(_, _, _, _) => CreateAgrees(v, m, c, id);
      case EntityUpdate(_, _, _, _) => UpdateAgrees(v, m, c, id);
      case EntityArchive(_, _, _) => ArchiveAgrees(v, m, c, id);
      case RelationCreate(_, _, _, _, _, _) => RelateAgrees(v, m, c, id);
      case RelationDissolve(_, _, _) => DissolveAgrees(v, m, c, id);
      case TypeDefine(_, _, _, _, _, _, _) => DefineAgrees(v, m, c, id);
      case SeedType(_, _, _) => DefineAgrees(v, m, c, id);
      case _ =>
    }
  }

  lemma CommitWellFormed(v: View, ev: Event, fault: Fault, ok: bool, written: View, done: Reply,
                         peer: Did, last: Id, now: Time, next: Id)
    requires WellFormed(v, peer, last, now)
    requires ev.peer == peer && last < ev.id <= next && now <= ev.timestamp
    requires forall id :: id in written.rows ==> id <= next && ProperRow(written, id, peer)
    ensures WellFormed(Commit(v, ev, fault, ok, written, done).0, peer, next, ev.timestamp)
  {
    AppendSorted(v.log, ev);
  }

  lemma EntityOpWellFormed(v: View, c: Call, peer: Did, last: Id, now: Time)
    requires WellFormed(v, peer, last, now) && Timely(c, peer, last, now)
    ensures c.req.EntityCreate? ==> WellFormed(Create(v, c).0, peer, c.id2, c.now)
    ensures c.req.EntityUpdate? ==> WellFormed(Update(v, c).0, peer, c.id2, c.now)
  {
    hide Commit, Validated;
    if c.req.EntityCreate? && c.req.etype in v.etypes {
      var data := Validated(v.etypes[c.req.etype], c.req.fields).0;
      var e := CreatedEntity(c, data);
      CommitWellFormed(v, CreateEvent(c, data), c.fault, true, v.(rows := v.rows[e.id := Row(e)]), EntityReply(e), peer, last, now, c.id2);
    }
    if c.req.EntityUpdate? && c.req.id in v.rows {
      var row := v.rows[c.req.id];
      var e := Merged(row, c.req.changes, c.now);
      CommitWellFormed(v, UpdateEvent(c, row), c.fault, true, v.(rows := v.rows[c.req.id := e]), EntityReply(e), peer, last, now, c.id2);
    }
  }

  lemma ArchiveWellFormed(v: View, c: Call, peer: Did, last: Id, now: Time)
    requires WellFormed(v, peer, last, now) && Timely(c, peer, last, now) && c.req.EntityArchive?
    ensures WellFormed(Archive(v, c).0, peer, c.id2, c.now)
  {
    hide Commit;
    var id := c.req.id;
    var written := if id in v.rows then v.(rows := v.rows[id := v.rows[id].(archivedAt := Some(c.now), updatedAt := c.now)]) else v;
    CommitWellFormed(v, ArchiveEvent(c), c.fault, id in v.rows, written, StampReply(id, c.now), peer, last, now, c.id2);
  }

  lemma RelationOpWellFormed(v: View, c: Call, peer: Did, last: Id, now: Time)
    requires WellFormed(v, peer, last, now) && Timely(c, peer, last, now)
    ensures c.req.RelationCreate? ==> WellFormed(Relate(v, c).0, peer, c.id2, c.now)
    ensures c.req.RelationDissolve? ==> WellFormed(Dissolve(v, c).0, peer, c.id2, c.now)
  {
    hide Commit;
    if c.req.RelationCreate? {
      var r := CreatedRelation(c);
      CommitWellFormed(v, RelationEvent(c), c.fault, ProperEndpoints(c), v.(rels := v.rels[r.id := RelationRow(r)]), RelationReply(r),
                       peer, last, now, c.id2);
    }
    if c.req.RelationDissolve? {
      var rid := c.req.id;
      CommitWellFormed(v, DissolveEvent(c), c.fault, rid in v.rels, v.(rels := v.rels - {rid}), StampReply(rid, c.now), peer, last, now, c.id2);
    }
  }

  lemma DefineWellFormed(v: View, c: Call, peer: Did, last: Id, now: Time)
    requires WellFormed(v, peer, last, now) && Timely(c, peer, last, now) && Defines(c)
    ensures WellFormed(Define(v, c).0, peer, c.id2, c.now)
  {
    hide Commit, DefinitionData, DefinitionAuthor, DefinedType;
    var u, e := Register(v, c.req.kind, DefinedType(c)), DefinitionEntity(c);
    assert u.rows == v.rows && u.log == v.log;
    CommitWellFormed(u, DefinitionEvent(c), c.fault, true, u.(rows := u.rows[e.id := e]), TypeReply(DefinedType(c)), peer, last, now, c.id2);
  }

  lemma LaterWellFormed(v: View, peer: Did, last: Id, now: Time, last': Id, now': Time)
    requires WellFormed(v, peer, last, now) && last <= last' && now <= now'
    ensures WellFormed(v, peer, last', now')
  {
  }

  lemma StepWellFormed(v: View, c: Call, peer: Did, last: Id, now: Time)
    requires WellFormed(v, peer, last, now) && Timely(c, peer, last, now)
    ensures WellFormed(Step(v, c).0, peer, c.id2, c.now)
  {
    LaterWellFormed(v, peer, last, now, c.id2, c.now);
    EntityOpWellFormed(v, c, peer, last, now);
    RelationOpWellFormed(v, c, peer, last, now);
    if c.req.EntityArchive? { ArchiveWellFormed(v, c, peer, last, now); }
    if Defines(c) { DefineWellFormed(v, c, peer, last, now); }
    if c.req.Reopen? || c.req.Join? { RestartWellFormed(v, c, peer, c.id2, c.now); }
    hide WellFormed, Create, Update, Archive, Relate, Dissolve, Define, Read, Restart;
  }

  lemma RestartWellFormed(v: View, c: Call, peer: Did, last: Id, now: Time)
    requires WellFormed(v, peer, last, now) && (c.req.Reopen? || c.req.Join?)
    ensures WellFormed(Step(v, c).0, peer, last, now)
  {
  }

  lemma StepCoherent(v: View, m: Marks, c: Call, peer: Did, last: Id, now: Time)
    requires Coherent(v, m, peer, last, now) && Timely(c, peer, last, now)
    ensures Coherent(Step(v, c).0, Mark(v, m, c), peer, c.id2, c.now)
  {
    StepWellFormed(v, c, peer, last, now);
    forall id ensures Agrees(Step(v, c).0, Mark(v, m, c), id) {
      StepAgrees(v, m, c, peer, last, now, id);
    }
    hide Step, Agrees, WellFormed;
  }

  /** From a fresh start, a whole run keeps rows and replay in agreement. */
  lemma {:induction false} RunCoherent(v: View, calls: seq<Call>, peer: Did)
    requires v.log == [] && v.rows == map[] && peer != ""
    requires Clocked(calls, NO_ID) && forall i :: 0 <= i < |calls| ==> Concerns(calls[i], peer)
    ensures Coherent(Exec(v, calls), MarksOf(v, calls), peer, LastId(calls, NO_ID), LastTime(calls))
  {
    if calls != [] {
      var before, c := calls[..|calls| - 1], calls[|calls| - 1];
      RunCoherent(v, before, peer);
      StepCoherent(Exec(v, before), MarksOf(v, before), c, peer, LastId(before, NO_ID), LastTime(before));
    }
  }

  // ---- what the marks mean ----

  /** Call `i` of the run stores a type definition under `id`. */
  ghost predicate Introduces(v: View, calls: seq<Call>, i: int, id: Id) {
    && 0 <= i < |calls| && Defines(calls[i]) && DefinitionId(calls[i]) == id
    && !Step(Exec(v, calls[..i]), calls[i]).1.Failed?
  }

  /** Call `j` of the run logs an update of `id`. */
  ghost predicate Updates(v: View, calls: seq<Call>, j: int, id: Id) {
    && 0 <= j < |calls| && calls[j].req.EntityUpdate? && calls[j].req.id == id
    && Step(Exec(v, calls[..j]), calls[j]).0.log != Exec(v, calls[..j]).log
  }

  ghost predicate DefinedAt(v: View, calls: seq<Call>, i: int, id: Id) {
    Introduces(v, calls, i, id) && forall j :: i < j < |calls| ==> !Updates(v, calls, j, id)
  }

  lemma MarkDefinitions(v: View, m: Marks, c: Call, id: Id)
    ensures id in Mark(v, m, c).definitions <==>
      || (Defines(c) && DefinitionId(c) == id && !Step(v, c).1.Failed?)
      || (id in m.definitions && !(c.req.EntityUpdate? && c.req.id == id && Step(v, c).0.log != v.log))
  {
    hide DefinitionData, DefinitionAuthor;
  }

  lemma EarlierCalls(v: View, calls: seq<Call>, n: nat, id: Id)
    requires n <= |calls|
    ensures forall i | 0 <= i < n :: Introduces(v, calls[..n], i, id) <==> Introduces(v, calls, i, id)
    ensures forall i | 0 <= i < n :: Updates(v, calls[..n], i, id) <==> Updates(v, calls, i, id)
  {
    hide Step, Exec;
    assert forall i | 0 <= i < n :: calls[..n][..i] == calls[..i];
  }

  /** The marked definitions are the ids a type definition introduced and no update touched. */
  lemma {:induction false} DefinitionsMeaning(v: View, calls: seq<Call>, id: Id)
    ensures id in MarksOf(v, calls).definitions <==> exists i :: DefinedAt(v, calls, i, id)
  {
    hide Step, Exec, Mark;
    if calls != [] {
      var n := |calls| - 1;
      var before := calls[..n];
      DefinitionsMeaning(v, before, id);
      MarkDefinitions(Exec(v, before), MarksOf(v, before), calls[n], id);
      EarlierCalls(v, calls, n, id);
      if i :| DefinedAt(v, calls, i, id) && i < n { assert DefinedAt(v, before, i, id); }
      if i :| DefinedAt(v, before, i, id) && !Updates(v, calls, n, id) { assert DefinedAt(v, calls, i, id); }
      if Introduces(v, calls, n, id) { assert DefinedAt(v, calls, n, id); }
    }
  }

  /** The parts of the tables whose writes can fail after their event is logged. */
  datatype Aspect = DataAspect | ArchiveAspect | RelationAspect

  function StaleIn(m: Marks, aspect: Aspect): set<Id> {
    match aspect
    case DataAspect => m.staleData
    case ArchiveAspect => m.staleArchive
    case RelationAspect => m.staleRels
  }

  /** The call logs an event about this part of the id: a creation or update of its data, an archive of an entity that is
      replayed, a creation or dissolution of a relation. */
  ghost predicate Tries(v: View, c: Call, aspect: Aspect, id: Id) {
    && Step(v, c).0.log != v.log
    && match aspect
       case DataAspect => (c.req.EntityCreate? && c.id1 == id) || (c.req.EntityUpdate? && c.req.id == id)
       case ArchiveAspect => c.req.EntityArchive? && c.req.id == id && id in Fold(v.log)
       case RelationAspect => (c.req.RelationCreate? && c.id1 == id) || (c.req.RelationDissolve? && c.req.id == id)
  }

  /** And it fails on the row, although there was something to write or to delete. */
  ghost predicate Misses(v: View, c: Call, aspect: Aspect, id: Id) {
    && Tries(v, c, aspect, id) && Step(v, c).1.Failed?
    && (c.req.RelationCreate? ==> ProperEndpoints(c)) && (c.req.RelationDissolve? ==> id in v.rels)
  }

  lemma MarkPart(v: View, m: Marks, c: Call, aspect: Aspect, id: Id)
    ensures id in StaleIn(Mark(v, m, c), aspect) <==> Misses(v, c, aspect, id) || (id in StaleIn(m, aspect) && !Tries(v, c, aspect, id))
  {
    hide Step, Fold;
  }

  /** Call `i` of the run misses a part of the id, and no later call tries it. */
  ghost predicate MissedAt(v: View, calls: seq<Call>, i: int, aspect: Aspect, id: Id) {
    && 0 <= i < |calls| && Misses(Exec(v, calls[..i]), calls[i], aspect, id)
    && forall j :: i < j < |calls| ==> !TriesAt(v, calls, j, aspect, id)
  }

  ghost predicate TriesAt(v: View, calls: seq<Call>, j: int, aspect: Aspect, id: Id) {
    0 <= j < |calls| && Tries(Exec(v, calls[..j]), calls[j], aspect, id)
  }

  lemma MissedBefore(v: View, calls: seq<Call>, i: int, aspect: Aspect, id: Id)
    requires 0 <= i < |calls| - 1
    ensures MissedAt(v, calls, i, aspect, id) <==>
      MissedAt(v, calls[..|calls| - 1], i, aspect, id) && !TriesAt(v, calls, |calls| - 1, aspect, id)
  {
    hide Step, Exec, Misses, Tries;
    var before := calls[..|calls| - 1];
    forall j | 0 <= j < |before| ensures before[..j] == calls[..j] && (TriesAt(v, before, j, aspect, id) <==> TriesAt(v, calls, j, aspect, id)) {
      assert before[..j] == calls[..j];
    }
  }

  /** The stale marks are the parts that some call missed and no later call tried again. */
  lemma {:induction false} StaleMeaning(v: View, calls: seq<Call>, aspect: Aspect, id: Id)
    ensures id in StaleIn(MarksOf(v, calls), aspect) <==> exists i :: MissedAt(v, calls, i, aspect, id)
  {
    hide Step, Exec, Mark, Misses, Tries;
    if calls != [] {
      var n := |calls| - 1;
      var before := calls[..n];
      StaleMeaning(v, before, aspect, id);
      MarkPart(Exec(v, before), MarksOf(v, before), calls[n], aspect, id);
      if i :| MissedAt(v, calls, i, aspect, id) && i < n { MissedBefore(v, calls, i, aspect, id); }
      if i :| MissedAt(v, before, i, aspect, id) && !TriesAt(v, calls, n, aspect, id) { MissedBefore(v, calls, i, aspect, id); }
      if Misses(Exec(v, before), calls[n], aspect, id) { assert MissedAt(v, calls, n, aspect, id); }
    }
  }

  /** A marked id can agree all the same: the row write of an update that changes nothing fails, and the entity is archived. */
  lemma MarkedCanAgree(v: View, m: Marks, c: Call, d: Call, peer: Did, last: Id, now: Time)
    requires Coherent(v, m, peer, last, now) && Timely(c, peer, last, now) && Timely(d, peer, c.id2, c.now) && v.registered
    requires c.req.EntityUpdate? && c.req.changes == map[] && c.fault.WriteFails? && c.req.id in v.rows
    requires c.req.id !in m.staleData && c.req.id !in m.staleArchive
    requires d.req.EntityArchive? && d.req.id == c.req.id && d.fault.Works?
    ensures var u := Step(v, c).0; var w, n := Step(u, d).0, Mark(u, Mark(v, m, c), d);
      && c.req.id in n.staleData && c.req.id in w.rows && c.req.id in Fold(w.log)
      && w.rows[c.req.id] == Replayed(Fold(w.log)[c.req.id], ArchivedLast(w.log, c.req.id))
  {
    hide Fold, LastEffective;
    var id := c.req.id;
    var row := v.rows[id];
    assert Agrees(v, m, id) && ProperRow(v, id, peer);
    var u, x, y := Step(v, c).0, UpdateEvent(c, row), ArchiveEvent(d);
    UpdateLogged(v, c, id);
    assert u == v.(log := v.log + [x]);
    assert Step(u, d).0.log == u.log + [y];
    FoldArchive(u.log, d);
    LastEffectiveAppend(u.log, y, id);
    assert DataOr(row.data) + c.req.changes == DataOr(row.data);
    var f := Fold(u.log)[id];
    assert SameOrigin(f, row) && DataOr(f.data) == DataOr(row.data);
  }
}
