/** The event log and its replay: the fold behind time travel, and the fold that the
    relation table caches. */
module EventLog {
  import opened Types

  /** The events of one peer, in log order. */
  function OfPeer(log: seq<Event>, peer: Did): seq<Event> {
    if log == [] then []
    else
      var last := log[|log| - 1];
      OfPeer(log[..|log| - 1], peer) + if last.peer == peer then [last] else []
  }

  lemma OfPeerAppend(log: seq<Event>, ev: Event, peer: Did)
    ensures OfPeer(log + [ev], peer) == OfPeer(log, peer) + if ev.peer == peer then [ev] else []
  {
    assert (log + [ev])[..|log|] == log;
  }

  /** What decoding a payload as an entity yields: absent members keep their zero value. */
  function AsEntity(p: Payload): Option<Entity> {
    match p
    case EntityPayload(e) => Some(e)
    case ArchivePayload(id, at) => Some(Entity(id, "", "", ZERO_TIME, "", "", ZERO_TIME, Some(at), None))
    case RelationPayload(r) =>
      Some(Entity(r.id, r.rtype, r.peer, r.createdAt, r.createdByDid, r.createdByClient, ZERO_TIME, None, r.data))
    case DissolvePayload(id, _) => Some(Entity(id, "", "", ZERO_TIME, "", "", ZERO_TIME, None, None))
    case DefinitionPayload(def) => Some(Entity(NO_ID, "", def.peer, ZERO_TIME, "", "", ZERO_TIME, None, None))
    case Unreadable => None
  }

  function DecodeEntity(ev: Event): Option<Entity> {
    match AsEntity(ev.payload)
    case None => None
    case Some(e) =>
      if e.id == NO_ID then None
      else Some(e.(
        createdAt := if e.createdAt == ZERO_TIME then ev.timestamp else e.createdAt,
        updatedAt := if e.updatedAt == ZERO_TIME then ev.timestamp else e.updatedAt,
        peer := if e.peer == "" then ev.peer else e.peer))
  }

  /** What decoding a payload as an archive notice yields: an id and a time. */
  function DecodeArchive(p: Payload): Option<(Id, Time)> {
    match AsEntity(p)
    case None => None
    case Some(e) => Some((e.id, if e.archivedAt.Some? then e.archivedAt.value else ZERO_TIME))
  }

  /** A later update of a known entity: new data, new update time, old creation metadata. */
  function Merge(cur: Entity, snapshot: Entity, at: Time): Entity {
    cur.(
      data := if snapshot.data.Some? then snapshot.data else cur.data,
      etype := if snapshot.etype != "" then snapshot.etype else cur.etype,
      updatedAt := if at != ZERO_TIME then at
                   else if snapshot.updatedAt != ZERO_TIME then snapshot.updatedAt
                   else cur.updatedAt)
  }

  function FoldEvent(state: map<Id, Entity>, ev: Event): map<Id, Entity> {
    match ev.etype
    case EntityCreated =>
      var d := DecodeEntity(ev);
      if d.None? then state else state[d.value.id := d.value]
    case EntityUpdated =>
      var d := DecodeEntity(ev);
      if d.None? then state
      else if d.value.id !in state then state[d.value.id := d.value]
      else state[d.value.id := Merge(state[d.value.id], d.value, ev.timestamp)]
    case EntityArchived =>
      var d := DecodeArchive(ev.payload);
      if d.None? || d.value.0 !in state then state
      else
        var at := if d.value.1 == ZERO_TIME then ev.timestamp else d.value.1;
        state[d.value.0 := state[d.value.0].(archivedAt := Some(at))]
    case _ => state
  }

  /** Entity state replayed from a log. */
  function Fold(log: seq<Event>): map<Id, Entity> {
    if log == [] then map[] else FoldEvent(Fold(log[..|log| - 1]), log[|log| - 1])
  }

  lemma FoldAppend(log: seq<Event>, ev: Event)
    ensures Fold(log + [ev]) == FoldEvent(Fold(log), ev)
  {
    assert (log + [ev])[..|log|] == log;
  }

  /** The type of the last event that changed the replayed entity `id`. */
  function LastEffective(log: seq<Event>, id: Id): Option<EventType> {
    if log == [] then None
    else
      var before, ev := log[..|log| - 1], log[|log| - 1];
      if ev.etype.EntityArchived? then
        var d := DecodeArchive(ev.payload);
        if d.Some? && d.value.0 == id && id in Fold(before) then Some(ev.etype) else LastEffective(before, id)
      else if ev.etype.EntityCreated? || ev.etype.EntityUpdated? then
        var d := DecodeEntity(ev);
        if d.Some? && d.value.id == id then Some(ev.etype) else LastEffective(before, id)
      else LastEffective(before, id)
  }

  predicate ArchivedLast(log: seq<Event>, id: Id) {
    LastEffective(log, id) == Some(EntityArchived)
  }

  function FoldRelation(state: map<Id, Relation>, ev: Event): map<Id, Relation> {
    match (ev.etype, ev.payload)
    case (RelationCreated, RelationPayload(r)) => state[r.id := r]
    case (RelationDissolved, DissolvePayload(id, _)) => state - {id}
    case _ => state
  }

  /** The relations a log leaves standing. */
  function FoldRelations(log: seq<Event>): map<Id, Relation> {
    if log == [] then map[] else FoldRelation(FoldRelations(log[..|log| - 1]), log[|log| - 1])
  }

  lemma FoldRelationsAppend(log: seq<Event>, ev: Event)
    ensures FoldRelations(log + [ev]) == FoldRelation(FoldRelations(log), ev)
  {
    assert (log + [ev])[..|log|] == log;
  }

  /** Event `i` creates relation `r`. */
  predicate CreatesAt(log: seq<Event>, i: int, r: Relation) {
    0 <= i < |log| && log[i].etype.RelationCreated? && log[i].payload == RelationPayload(r)
  }

  /** Event `j` dissolves `id`. */
  predicate DissolvesAt(log: seq<Event>, j: int, id: Id) {
    0 <= j < |log| && log[j].etype.RelationDissolved? && log[j].payload.DissolvePayload? && log[j].payload.dissolvedId == id
  }

  /** Event `i` is the last one to create relation `r.id`, and nothing dissolves it later. */
  ghost predicate Standing(log: seq<Event>, i: int, r: Relation) {
    && CreatesAt(log, i, r)
    && (forall j :: i < j < |log| ==> !DissolvesAt(log, j, r.id))
    && (forall j, other: Relation :: i < j < |log| && CreatesAt(log, j, other) ==> other.id != r.id)
  }

  /** Replay in words: a relation stands iff it was created and never dissolved afterwards. */
  lemma {:induction false} FoldRelationsMeaning(log: seq<Event>, id: Id, r: Relation)
    ensures (id in FoldRelations(log) && FoldRelations(log)[id] == r)
       <==> (r.id == id && exists i :: Standing(log, i, r))
  {
    if log != [] {
      var n := |log| - 1;
      var before := log[..n];
      FoldRelationsMeaning(before, id, r);
      assert forall j, s: Relation | 0 <= j < n :: CreatesAt(before, j, s) <==> CreatesAt(log, j, s);
      assert forall j, s: Id | 0 <= j < n :: DissolvesAt(before, j, s) <==> DissolvesAt(log, j, s);
      if i :| Standing(before, i, r) {
        if !DissolvesAt(log, n, r.id) && !(exists o: Relation :: CreatesAt(log, n, o) && o.id == r.id) {
          assert Standing(log, i, r);
        }
      }
      if i :| Standing(log, i, r) {
        if i < n { assert Standing(before, i, r); }
      }
      if CreatesAt(log, n, r) { assert Standing(log, n, r); }
    }
  }
}
