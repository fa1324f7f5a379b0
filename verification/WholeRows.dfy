/** Which interleavings keep whole rows in agreement with replay: besides its data, an entity has an archive time and the
    time it was last touched. */
module WholeRows {
  import opened Types
  import opened Requests
  import opened EventLog
  import opened Ranking
  import opened Queries
  import opened Shared
  import opened Interleaving
  import opened Adequacy
  import opened Schedules
  import Replay

  /** When an entity was archived, if it was, and when it was last touched. */
  datatype Trace = Trace(archivedAt: Option<Time>, touchedAt: Time)

  // ---- what replay shows ----

  /** The event is an archive notice of the id. */
  predicate NoticeOf(ev: Event, id: Id) {
    ev.etype.EntityArchived? && DecodeArchive(ev.payload).Some? && DecodeArchive(ev.payload).value.0 == id
  }

  function NoticeTime(ev: Event): Time {
    var d := DecodeArchive(ev.payload);
    if d.None? || d.value.1 == ZERO_TIME then ev.timestamp else d.value.1
  }

  predicate Concerning(ev: Event, id: Id) {
    SnapshotOf(ev, id) || NoticeOf(ev, id)
  }

  /** The creating snapshot, or the first update snapshot of an unknown id, brings its own archive time, a later update
      keeps the one there is, and a notice of a known id sets it. */
  function Traced(t: Option<Trace>, ev: Event, id: Id): Option<Trace> {
    if SnapshotOf(ev, id) then
      Some(Trace(if ev.etype.EntityCreated? || t.None? then ev.payload.entity.archivedAt else t.value.archivedAt, ev.timestamp))
    else if NoticeOf(ev, id) && t.Some? then Some(Trace(Some(NoticeTime(ev)), NoticeTime(ev)))
    else t
  }

  function ListedTrace(evs: seq<Event>, id: Id): Option<Trace> {
    if evs == [] then None else Traced(ListedTrace(evs[..|evs| - 1], id), evs[|evs| - 1], id)
  }

  function TraceOf(s: System, peer: Did, id: Id): Option<Trace> {
    ListedTrace(Listing(s, peer), id)
  }

  lemma FoldEventArchive(state: map<Id, Entity>, t: Option<Trace>, ev: Event, id: Id)
    requires WellFormed(ev) && id != NO_ID
    requires (id in state <==> t.Some?) && (id in state ==> state[id].archivedAt == t.value.archivedAt)
    ensures var next, u := FoldEvent(state, ev), Traced(t, ev, id);
      (id in next <==> u.Some?) && (id in next ==> next[id].archivedAt == u.value.archivedAt)
  {
  }

  /** Replaying a listing gives an entity the archive time its listing traces. */
  lemma {:induction false} FoldTrace(evs: seq<Event>, id: Id)
    requires AllWellFormed(evs) && id != NO_ID
    ensures id in Fold(evs) <==> ListedTrace(evs, id).Some?
    ensures id in Fold(evs) ==> Fold(evs)[id].archivedAt == ListedTrace(evs, id).value.archivedAt
  {
    hide WellFormed, Traced, FoldEvent;
    if evs != [] {
      var before := evs[..|evs| - 1];
      FoldTrace(before, id);
      FoldEventArchive(Fold(before), ListedTrace(before, id), evs[|evs| - 1], id);
    }
  }

  /** A snapshot says when it was made. */
  predicate DatedEvent(ev: Event) {
    (ev.etype.EntityCreated? || ev.etype.EntityUpdated?) && ev.payload.EntityPayload? ==>
      ev.payload.entity.updatedAt == ev.timestamp && ev.timestamp > ZERO_TIME
  }

  ghost predicate AllDated(evs: seq<Event>) {
    forall i :: 0 <= i < |evs| ==> DatedEvent(evs[i])
  }

  /** The update time that replay predicts for a row is the time of the last touch. */
  predicate Touched(f: Entity, archivedLast: bool, at: Time) {
    Replay.Replayed(f, archivedLast).updatedAt == at && (archivedLast ==> f.archivedAt == Some(at))
  }

  lemma FoldEventTouch(before: seq<Event>, ev: Event, id: Id)
    requires WellFormed(ev) && DatedEvent(ev) && id != NO_ID
    requires id in Fold(before) <==> ListedTrace(before, id).Some?
    requires id in Fold(before) ==> Touched(Fold(before)[id], ArchivedLast(before, id), ListedTrace(before, id).value.touchedAt)
    ensures var next, u := FoldEvent(Fold(before), ev), Traced(ListedTrace(before, id), ev, id);
      id in next && u.Some? ==> Touched(next[id], LastEffective(before + [ev], id) == Some(EntityArchived), u.value.touchedAt)
  {
    hide Fold, ListedTrace;
    Replay.LastEffectiveAppend(before, ev, id);
    hide LastEffective;
  }

  lemma {:induction false} FoldTouch(evs: seq<Event>, id: Id)
    requires AllWellFormed(evs) && AllDated(evs) && id in Fold(evs) && id != NO_ID
    ensures ListedTrace(evs, id).Some? && Touched(Fold(evs)[id], ArchivedLast(evs, id), ListedTrace(evs, id).value.touchedAt)
  {
    hide WellFormed, DatedEvent, Traced, FoldEvent, Touched, LastEffective;
    FoldTrace(evs, id);
    if evs != [] {
      var before, ev := evs[..|evs| - 1], evs[|evs| - 1];
      assert before + [ev] == evs;
      FoldTrace(before, id);
      if id in Fold(before) { FoldTouch(before, id); }
      FoldEventTouch(before, ev, id);
    }
  }

  // ---- what the schedule wrote ----

  /** The client has logged its event and is to stamp the row next. */
  predicate OwesStamp(p: Pending, id: Id) {
    p.ToWrite? && p.owed.StampRow? && p.owed.id == id
  }

  predicate StampsRow(s: System, a: Action, id: Id) {
    a.Finish? && !a.fails && OwesStamp(PendingOf(s, a.client), id) && Takes(s, PendingOf(s, a.client).owed)
  }

  /** The trace of a row, read off the schedule: what the last finished write or stamp of the row brought that the table
      took. */
  function TraceBySchedule(init: System, actions: seq<Action>, id: Id): Option<Trace> {
    if actions == [] then None
    else
      var before, a := actions[..|actions| - 1], actions[|actions| - 1];
      var s := Run(init, before);
      if PutsRow(s, a, id) then
        var e := PendingOf(s, a.client).owed.e;
        Some(Trace(e.archivedAt, e.updatedAt))
      else if StampsRow(s, a, id) then Some(Trace(Some(PendingOf(s, a.client).owed.at), PendingOf(s, a.client).owed.at))
      else TraceBySchedule(init, before, id)
  }

  function RowTrace(s: System, id: Id): Option<Trace> {
    if id in s.rows then Some(Trace(s.rows[id].archivedAt, s.rows[id].updatedAt)) else None
  }

  /** What one write does to one row. */
  lemma WrittenTrace(s: System, ev: Event, write: Write, id: Id)
    requires Takes(s, write)
    ensures RowTrace(Written(s, ev, write), id) ==
      if write.PutRow? && write.e.id == id then Some(Trace(write.e.archivedAt, write.e.updatedAt))
      else if write.StampRow? && write.id == id then Some(Trace(Some(write.at), write.at))
      else RowTrace(s, id)
  {
  }

  lemma FinishTrace(s: System, k: nat, fails: bool, id: Id)
    ensures var u, a, p := FinishPending(s, k, fails), Finish(k, fails), PendingOf(s, k);
      RowTrace(u, id) ==
        if PutsRow(s, a, id) then Some(Trace(p.owed.e.archivedAt, p.owed.e.updatedAt))
        else if StampsRow(s, a, id) then Some(Trace(Some(p.owed.at), p.owed.at))
        else RowTrace(s, id)
  {
    hide Takes, Written;
    match PendingOf(s, k)
    case ToWrite(ev, write) => if Takes(s, write) { WrittenTrace(s, ev, write, id); }
    case _ =>
  }

  /** Beginning a call leaves the rows alone. */
  lemma StartRows(s: System, k: nat, c: Call)
    ensures StartCall(s, k, c).rows == s.rows
  {
    hide StartCreate, StartDefine, ArchiveEvent, RelationEvent, CreatedRelation, DissolveEvent, UpdateEvent, Merged;
    if c.req.EntityCreate? { CreateRows(s, k, c); }
    if Defines(c) { DefineRows(s, k, c); }
  }

  lemma CreateRows(s: System, k: nat, c: Call)
    requires c.req.EntityCreate?
    ensures StartCreate(s, k, c).rows == s.rows
  {
    hide Validated, CreatedEntity, CreateEvent;
  }

  lemma DefineRows(s: System, k: nat, c: Call)
    requires Defines(c)
    ensures StartDefine(s, k, c).rows == s.rows
  {
    hide DefinitionEntity, DefinitionEvent, DefinedType, Learnt;
    LearntKeepsTables(s, c);
  }

  lemma StepTrace(s: System, a: Action, id: Id)
    ensures var u := Next(s, a);
      RowTrace(u, id) ==
        if PutsRow(s, a, id) then Some(Trace(PendingOf(s, a.client).owed.e.archivedAt, PendingOf(s, a.client).owed.e.updatedAt))
        else if StampsRow(s, a, id) then Some(Trace(Some(PendingOf(s, a.client).owed.at), PendingOf(s, a.client).owed.at))
        else RowTrace(s, id)
  {
    hide StartCall, FinishPending, CanAppend;
    match a
    case Start(k, c) => if s.lastId < c.id1 < c.id2 { StartRows(s, k, c); }
    case Append(_, _) =>
    case Finish(k, fails) => FinishTrace(s, k, fails, id);
    case Stop(_) =>
  }

  /** The rows hold what the schedule says. */
  lemma {:induction false} TraceMeaning(init: System, actions: seq<Action>, id: Id)
    requires Initial(init)
    ensures TraceBySchedule(init, actions, id) == RowTrace(Run(init, actions), id)
  {
    hide Next, PutsRow, StampsRow, RowTrace;
    if actions == [] {
      assert RowTrace(init, id) == None by { NoRows(init, id); }
    } else {
      var before := actions[..|actions| - 1];
      TraceMeaning(init, before, id);
      StepTrace(Run(init, before), actions[|actions| - 1], id);
    }
  }

  lemma NoRows(init: System, id: Id)
    requires Initial(init)
    ensures RowTrace(init, id) == None
  {
  }

  // ---- the exact conditions ----

  /** In every state of every interleaved run, the archive times of an entity both replayed and stored agree if and only if
      the one traced by the listing is the one that the last finished write or stamp of its row brought. */
  lemma ArchivesBySchedule(init: System, actions: seq<Action>, peer: Did, id: Id)
    requires Initial(init) && id != NO_ID
    ensures var s := Run(init, actions); var f := Fold(Listing(s, peer));
      var listed, written := TraceOf(s, peer, id), TraceBySchedule(init, actions, id);
      && (id in f <==> listed.Some?) && (id in s.rows <==> written.Some?)
      && (id in f && id in s.rows ==> (f[id].archivedAt == s.rows[id].archivedAt <==> listed.value.archivedAt == written.value.archivedAt))
  {
    hide Run, Listing, Fold, ListedTrace, TraceBySchedule, WellFormed;
    InitialInv(init);
    RunKeeps(init, actions);
    TraceMeaning(init, actions, id);
    ListingWellFormed(Run(init, actions), peer);
    FoldTrace(Listing(Run(init, actions), peer), id);
  }

  // ---- origins, and the dates of snapshots ----

  /** Every call begins after the zero time. */
  predicate Dates(actions: seq<Action>) {
    forall i :: 0 <= i < |actions| && actions[i].Start? ==> actions[i].call.now > ZERO_TIME
  }

  predicate DatedPending(p: Pending) {
    p.ToAppend? ==> DatedEvent(p.ev) && (p.write.StampRow? ==> p.write.at > ZERO_TIME)
  }

  /** Entities are created after the zero time, snapshots say when they were made, and rows hold data. */
  ghost predicate Dated(s: System) {
    && (forall id :: id in s.births ==> s.births[id].createdAt > ZERO_TIME)
    && (forall i :: 0 <= i < |s.log| ==> DatedEvent(s.log[i]))
    && (forall k :: k in s.clients ==> DatedPending(s.clients[k]))
    && (forall id :: id in s.rows ==> s.rows[id].data.Some?)
  }

  lemma BeginDated(s: System, base: System, k: nat, c: Call, ev: Event, write: Write, births: map<Id, Birth>)
    requires Dated(s) && base == s.(etypes := base.etypes, rtypes := base.rtypes)
    requires DatedPending(ToAppend(ev, write)) && forall id :: id in births ==> births[id].createdAt > ZERO_TIME
    ensures Dated(Begin(base, k, c, ev, write, births))
  {
  }

  lemma CreateDated(s: System, k: nat, c: Call)
    requires Dated(s) && c.now > ZERO_TIME && c.req.EntityCreate?
    ensures Dated(StartCreate(s, k, c))
  {
    hide Validated, Begin, Dated;
    var defs := TypesOf(s.etypes, c.target);
    if c.req.etype in defs && Validated(defs[c.req.etype], c.req.fields).1 {
      var data := Validated(defs[c.req.etype], c.req.fields).0;
      var e := CreatedEntity(c, data);
      assert forall id :: id in s.births ==> s.births[id].createdAt > ZERO_TIME by { DatedBirths(s); }
      BeginDated(s, s, k, c, CreateEvent(c, data), PutRow(e), s.births[e.id := BirthOf(e)]);
    }
  }

  lemma DatedBirths(s: System)
    requires Dated(s)
    ensures forall id :: id in s.births ==> s.births[id].createdAt > ZERO_TIME
  {
  }

  lemma DefineDated(s: System, k: nat, c: Call)
    requires Dated(s) && c.now > ZERO_TIME && Defines(c)
    ensures Dated(StartDefine(s, k, c))
  {
    var e, ev := DefinitionEntity(c), DefinitionEvent(c);
    assert DatedPending(ToAppend(ev, PutRow(e)));
    hide DefinitionEntity, DefinitionEvent, DefinedType, Learnt, Begin, Dated;
    DefinitionRow(c);
    LearntKeepsTables(s, c);
    DatedBirths(s);
    BeginDated(s, Learnt(s, c), k, c, ev, PutRow(e), s.births[e.id := BirthOf(e)]);
  }

  lemma StartDated(s: System, k: nat, c: Call)
    requires Dated(s) && c.now > ZERO_TIME
    ensures Dated(StartCall(s, k, c))
  {
    DatedBirths(s);
    hide StartCreate, StartDefine, Begin, Dated;
    match c.req
    case EntityCreate(_, _, _, _) => CreateDated(s, k, c);
    case EntityUpdate(id, changes, _, _) =>
      if id in s.rows { BeginDated(s, s, k, c, UpdateEvent(c, s.rows[id]), PutRow(Merged(s.rows[id], changes, c.now)), s.births); }
    case EntityArchive(id, _, _) => BeginDated(s, s, k, c, ArchiveEvent(c), StampRow(c.target, id, c.now), s.births);
    case RelationCreate(_, _, _, _, _, _) => BeginDated(s, s, k, c, RelationEvent(c), PutRelation(CreatedRelation(c)), s.births);
    case RelationDissolve(id, _, _) => BeginDated(s, s, k, c, DissolveEvent(c), DropRelation(c.target, id), s.births);
    case TypeDefine(_, _, _, _, _, _, _) => DefineDated(s, k, c);
    case SeedType(_, _, _) => DefineDated(s, k, c);
    case _ =>
  }

  lemma WrittenDated(s: System, ev: Event, write: Write)
    requires Dated(s) && Takes(s, write)
    ensures Dated(Written(s, ev, write))
  {
  }

  lemma DropDated(s: System, k: nat)
    requires Dated(s)
    ensures Dated(s.(clients := s.clients[k := Idle]))
  {
  }

  lemma LogDated(s: System, k: nat, ev: Event, write: Write)
    requires Dated(s) && k in s.clients && s.clients[k] == ToAppend(ev, write)
    ensures Dated(s.(log := s.log + [ev], clients := s.clients[k := ToWrite(ev, write)]))
  {
  }

  lemma NextDated(s: System, a: Action)
    requires Dated(s) && (a.Start? ==> a.call.now > ZERO_TIME)
    ensures Dated(Next(s, a))
  {
    hide StartCall, Dated, Takes, Written, CanAppend;
    match a
    case Start(k, c) => if s.lastId < c.id1 < c.id2 { StartDated(s, k, c); }
    case Append(k, _) =>
      DropDated(s, k);
      if PendingOf(s, k).ToAppend? { LogDated(s, k, s.clients[k].ev, s.clients[k].write); }
    case Finish(k, fails) =>
      DropDated(s, k);
      if PendingOf(s, k).ToWrite? && Takes(s, s.clients[k].owed) {
        var ev, write := s.clients[k].logged, s.clients[k].owed;
        WrittenDated(s, ev, write);
        WrittenClients(s, ev, write);
        DropDated(Written(s, ev, write), k);
      }
    case Stop(k) => DropDated(s, k);
  }

  lemma InitialDated(s: System)
    requires Initial(s)
    ensures Dated(s)
  {
  }

  lemma {:induction false} RunDated(init: System, actions: seq<Action>)
    requires Initial(init) && Dates(actions)
    ensures Dated(Run(init, actions))
  {
    hide Next, Dated;
    if actions == [] {
      InitialDated(init);
    } else {
      RunDated(init, actions[..|actions| - 1]);
      NextDated(Run(init, actions[..|actions| - 1]), actions[|actions| - 1]);
    }
  }

  /** The snapshot is of an entity with a recorded origin. */
  ghost predicate BornEvent(births: map<Id, Birth>, ev: Event) {
    (ev.etype.EntityCreated? || ev.etype.EntityUpdated?) && ev.payload.EntityPayload? ==>
      var e := ev.payload.entity;
      e.id in births && births[e.id] == BirthOf(e) && e.createdAt > ZERO_TIME
  }

  lemma FoldEventOrigin(births: map<Id, Birth>, state: map<Id, Entity>, ev: Event, id: Id)
    requires WellFormed(ev) && BornEvent(births, ev)
    requires id in state ==> state[id].id == id && id in births && BirthOf(state[id]) == births[id]
    ensures var next := FoldEvent(state, ev); id in next ==> next[id].id == id && id in births && BirthOf(next[id]) == births[id]
  {
  }

  /** Replay gives an entity its recorded origin. */
  lemma {:induction false} FoldOrigin(births: map<Id, Birth>, evs: seq<Event>, id: Id)
    requires AllWellFormed(evs) && forall i :: 0 <= i < |evs| ==> BornEvent(births, evs[i])
    ensures var f := Fold(evs); id in f ==> f[id].id == id && id in births && BirthOf(f[id]) == births[id]
  {
    hide WellFormed, FoldEvent, BornEvent;
    if evs != [] {
      FoldOrigin(births, evs[..|evs| - 1], id);
      FoldEventOrigin(births, Fold(evs[..|evs| - 1]), evs[|evs| - 1], id);
    }
  }

  lemma ListingIsBorn(s: System, peer: Did)
    requires Inv(s) && Dated(s)
    ensures AllWellFormed(Listing(s, peer)) && AllDated(Listing(s, peer))
    ensures forall i :: 0 <= i < |Listing(s, peer)| ==> BornEvent(s.births, Listing(s, peer)[i])
  {
    ListingWellFormed(s, peer);
    ListingMembers(s.log, peer);
    hide ListEvents;
    var evs := Listing(s, peer);
    forall i | 0 <= i < |evs| ensures DatedEvent(evs[i]) && BornEvent(s.births, evs[i]) {
      assert evs[i] in evs;
      var j :| 0 <= j < |s.log| && s.log[j] == evs[i];
      LoggedIsBorn(s, j);
    }
  }

  lemma LoggedIsBorn(s: System, j: nat)
    requires Inv(s) && Dated(s) && j < |s.log|
    ensures BornEvent(s.births, s.log[j]) && DatedEvent(s.log[j])
  {
    if s.log[j].payload.EntityPayload? { assert ProperCopy(s, s.log[j].payload.entity); }
  }

  /** A row is the one predicted by replay exactly when origin, data, archive time and time of the last touch are. */
  lemma PredictedRow(row: Entity, f: Entity, archivedLast: bool, t: Trace)
    requires row.id == f.id && BirthOf(row) == BirthOf(f) && row.data.Some?
    requires f.archivedAt == t.archivedAt && Touched(f, archivedLast, t.touchedAt)
    ensures row == Replay.Replayed(f, archivedLast) <==> DataOr(row.data) == DataOr(f.data) && t == Trace(row.archivedAt, row.updatedAt)
  {
  }

  /** In every state of every interleaved run, the row of a replayed entity is exactly the one that replay predicts, its
      origin, data and times, if and only if the latest snapshot and the last finished row write carried equal data and the
      listing and the schedule trace the same archive time and the same last touch. */
  lemma RowsBySchedule(init: System, actions: seq<Action>, peer: Did, id: Id)
    requires Initial(init) && Dates(actions) && id != NO_ID
    ensures var s := Run(init, actions); var f := Fold(Listing(s, peer));
      id in f && id in s.rows ==>
        && LatestSnapshot(s, peer, id).Some? && WriterBySchedule(init, actions, id).Some?
        && (s.rows[id] == Replay.Replayed(f[id], ArchivedLast(Listing(s, peer), id)) <==>
              && DataIn(LatestSnapshot(s, peer, id).value) == DataIn(WriterBySchedule(init, actions, id).value)
              && TraceOf(s, peer, id) == TraceBySchedule(init, actions, id))
  {
    hide Run, Listing, Fold, ListedTrace, TraceBySchedule, WellFormed, LastEffective, LastSnapshot, DataIn, WriterBySchedule, Dated,
      BornEvent, DatedEvent, Touched;
    InitialInv(init);
    RunKeeps(init, actions);
    RunDated(init, actions);
    TraceMeaning(init, actions, id);
    WritersMeaning(init, actions, id);
    var s := Run(init, actions);
    var evs := Listing(s, peer);
    ListingIsBorn(s, peer);
    FoldData(evs, id);
    FoldTrace(evs, id);
    FoldOrigin(s.births, evs, id);
    if id in Fold(evs) && id in s.rows {
      FoldTouch(evs, id);
      StoredRow(s, id);
      PredictedRow(s.rows[id], Fold(evs)[id], ArchivedLast(evs, id), ListedTrace(evs, id).value);
    }
  }

  lemma StoredRow(s: System, id: Id)
    requires Inv(s) && Dated(s) && id in s.rows
    ensures s.rows[id].id == id && id in s.births && s.births[id] == BirthOf(s.rows[id]) && s.rows[id].data.Some?
    ensures id in s.writers && DataIn(s.writers[id]) == DataOr(s.rows[id].data)
  {
    assert ProperRow(s, id);
  }
}
