/** Per-peer isolation: through the shared tables every peer sees exactly its private
    reference machine, so other peers' calls can be deleted from any run. */
module Isolation {
  import opened Types
  import opened Requests
  import opened EventLog
  import opened Queries
  import opened Shared
  import Private
  import Definitions

  function RowsOf(rows: map<Id, Entity>, peer: Did): map<Id, Entity> {
    map id | id in rows && rows[id].peer == peer :: rows[id]
  }

  function RelsOf(rels: map<Id, Relation>, peer: Did): map<Id, Relation> {
    map id | id in rels && rels[id].peer == peer :: rels[id]
  }

  /** What the shared state holds of one peer. */
  function ViewOf(w: World, peer: Did): Private.View {
    Private.View(peer, peer in w.peers, OfPeer(w.log, peer), RowsOf(w.rows, peer), RelsOf(w.rels, peer),
                 TypesOf(w.etypes, peer), TypesOf(w.rtypes, peer), w.jsonText)
  }

  function CallsTo(calls: seq<Call>, peer: Did): seq<Call> {
    if calls == [] then []
    else
      var last := calls[|calls| - 1];
      CallsTo(calls[..|calls| - 1], peer) + if Concerns(last, peer) then [last] else []
  }

  /** Every stored id was drawn before `next`, keys match their rows, and rows are normalised. */
  ghost predicate Consistent(w: World, last: Id) {
    && (forall id :: id in w.rows ==> NO_ID < id <= last && w.rows[id].id == id && w.rows[id].data.Some?)
    && (forall id :: id in w.rels ==> NO_ID < id <= last && w.rels[id].id == id)
    && (forall i :: 0 <= i < |w.log| ==> w.log[i].id <= last)
  }

  lemma QueryIsLocal(w: World, peer: Did, q: EntityQuery)
    ensures QueryEntities(w.rows, peer, q, w.jsonText) == QueryEntities(RowsOf(w.rows, peer), peer, q, w.jsonText)
  {
    assert LiveRows(w.rows, peer, q, w.jsonText) == LiveRows(RowsOf(w.rows, peer), peer, q, w.jsonText);
  }

  lemma RelationQueryIsLocal(w: World, peer: Did, from: Id, to: Id, rtype: string, limit: int)
    ensures QueryRelations(w.rels, peer, from, to, rtype, limit) == QueryRelations(RelsOf(w.rels, peer), peer, from, to, rtype, limit)
  {
    assert SelectedRelations(w.rels, peer, from, to, rtype) == SelectedRelations(RelsOf(w.rels, peer), peer, from, to, rtype);
  }

  lemma {:induction false} OfPeerIdempotent(log: seq<Event>, peer: Did)
    ensures OfPeer(OfPeer(log, peer), peer) == OfPeer(log, peer)
  {
    if log != [] {
      var before, last := log[..|log| - 1], log[|log| - 1];
      OfPeerIdempotent(before, peer);
      OfPeerAppend(OfPeer(before, peer), last, peer);
      assert OfPeer(log, peer) == if last.peer == peer then OfPeer(before, peer) + [last] else OfPeer(before, peer);
    }
  }

  lemma ReadRefines(w: World, c: Call)
    ensures Read(w, c) == Private.Read(ViewOf(w, c.target), c)
  {
    match c.req
    case EntityList(q) => QueryIsLocal(w, c.target, q);
    case RelationList(from, to, rtype, limit) => RelationQueryIsLocal(w, c.target, from, to, rtype, limit);
    case TimeTravelTo(q, asOf) => OfPeerIdempotent(w.log, c.target);
    case _ =>
  }

  lemma AppendRefines(w: World, ev: Event, peer: Did)
    requires CanAppend(w.log, ev)
    ensures AppendEvent(w, ev) == Some(w.(log := w.log + [ev]))
    ensures ev.peer != peer ==> ViewOf(w.(log := w.log + [ev]), peer) == ViewOf(w, peer)
    ensures ev.peer == peer ==> ViewOf(w.(log := w.log + [ev]), peer) == ViewOf(w, peer).(log := OfPeer(w.log, peer) + [ev])
  {
    OfPeerAppend(w.log, ev, peer);
    assert OfPeer(w.log, peer) + [] == OfPeer(w.log, peer);
  }

  /** Replacing a row is invisible to a peer unless the row becomes or was its own. */
  lemma UpsertRefines(w: World, e: Entity, peer: Did)
    requires e.id in w.rows ==> w.rows[e.id].peer == e.peer
    ensures RowsOf(w.rows[e.id := Row(e)], peer)
         == if e.peer == peer then RowsOf(w.rows, peer)[e.id := Row(e)] else RowsOf(w.rows, peer)
  {
  }

  lemma RegisterRefines(w: World, owner: Did, k: Kind, def: TypeDef, peer: Did)
    ensures ViewOf(RegisterType(w, owner, k, def), peer)
         == if owner == peer then Private.Register(ViewOf(w, peer), k, def) else ViewOf(w, peer)
  {
  }

  /** The view one step leaves to `peer`, and the reply, are the private machine's. */
  ghost predicate Refines(w: World, after: (World, Reply), local: (Private.View, Reply), target: Did, peer: Did) {
    if target == peer then ViewOf(after.0, peer) == local.0 && after.1 == local.1
    else ViewOf(after.0, peer) == ViewOf(w, peer)
  }

  /** Committing an event of `ev.peer`, seen by `peer`. */
  lemma CommitRefines(w: World, ev: Event, fault: Fault, written: Option<World>, done: Reply,
                      ok: bool, local: Private.View, peer: Did)
    requires CanAppend(w.log, ev)
    requires written.Some? <==> ok
    requires ok ==>
      ViewOf(written.value, peer) == if ev.peer == peer then local.(log := OfPeer(w.log, peer) + [ev]) else ViewOf(w, peer)
    ensures Refines(w, Commit(w, ev, fault, written, done),
                    Private.Commit(ViewOf(w, ev.peer), ev, fault, ok, local, done), ev.peer, peer)
  {
    AppendRefines(w, ev, peer);
  }

  lemma CommitConsistent(w: World, ev: Event, fault: Fault, written: Option<World>, done: Reply, last: Id, next: Id)
    requires Consistent(w, last) && last < next && ev.id <= next
    requires written.Some? ==> Consistent(written.value, next)
    ensures Consistent(Commit(w, ev, fault, written, done).0, next)
  {
  }

  /** The row an operation writes for its own peer, after its event is logged. */
  lemma RowCommitRefines(w: World, ev: Event, e: Entity, fault: Fault, done: Reply, peer: Did, last: Id, next: Id)
    requires Consistent(w, last) && last < ev.id <= next && ev.peer != ""
    requires e.peer == ev.peer && NO_ID < e.id <= next && (e.id in w.rows ==> w.rows[e.id].peer == e.peer)
    ensures Refines(w, Commit(w, ev, fault, UpsertEntity(Logged(w, ev), e), done),
              Private.Commit(ViewOf(w, ev.peer), ev, fault, true,
                ViewOf(w, ev.peer).(rows := ViewOf(w, ev.peer).rows[e.id := Row(e)]), done), ev.peer, peer)
    ensures Consistent(Commit(w, ev, fault, UpsertEntity(Logged(w, ev), e), done).0, next)
  {
    hide Refines, Commit, Private.Commit, RowsOf, OfPeer, RelsOf;
    AppendRefines(w, ev, peer);
    UpsertRefines(w, e, peer);
    var local := ViewOf(w, ev.peer).(rows := ViewOf(w, ev.peer).rows[e.id := Row(e)]);
    CommitRefines(w, ev, fault, UpsertEntity(Logged(w, ev), e), done, true, local, peer);
    CommitConsistent(w, ev, fault, UpsertEntity(Logged(w, ev), e), done, last, next);
  }

  lemma CreateRefines(w: World, c: Call, peer: Did, last: Id)
    requires Consistent(w, last) && last < c.id1 < c.id2 && c.target != "" && c.req.EntityCreate?
    ensures Refines(w, OpEntityCreate(w, c), Private.Create(ViewOf(w, c.target), c), c.target, peer)
    ensures Consistent(OpEntityCreate(w, c).0, c.id2)
  {
    var defs := TypesOf(w.etypes, c.target);
    if c.req.etype in defs {
      var data := Validated(defs[c.req.etype], c.req.fields).0;
      var e := CreatedEntity(c, data);
      RowCommitRefines(w, CreateEvent(c, data), e, c.fault, EntityReply(e), peer, last, c.id2);
    }
  }

  lemma UpdateRefines(w: World, c: Call, peer: Did, last: Id)
    requires Consistent(w, last) && last < c.id1 < c.id2 && c.target != "" && c.req.EntityUpdate?
    ensures Refines(w, OpEntityUpdate(w, c), Private.Update(ViewOf(w, c.target), c), c.target, peer)
    ensures Consistent(OpEntityUpdate(w, c).0, c.id2)
  {
    var got := GetEntity(w, c.target, c.req.id);
    if got.Some? {
      var e := Merged(got.value, c.req.changes, c.now);
      assert Row(e) == e;
      RowCommitRefines(w, UpdateEvent(c, got.value), e, c.fault, EntityReply(e), peer, last, c.id2);
    }
  }

  lemma ArchiveRefines(w: World, c: Call, peer: Did, last: Id)
    requires Consistent(w, last) && last < c.id1 < c.id2 && c.target != "" && c.req.EntityArchive?
    ensures Refines(w, OpEntityArchive(w, c), Private.Archive(ViewOf(w, c.target), c), c.target, peer)
    ensures Consistent(OpEntityArchive(w, c).0, c.id2)
  {
    var id, ev, done := c.req.id, ArchiveEvent(c), StampReply(c.req.id, c.now);
    if GetEntity(w, c.target, id).Some? {
      var e := w.rows[id].(archivedAt := Some(c.now), updatedAt := c.now);
      assert Row(e) == e;
      RowCommitRefines(w, ev, e, c.fault, done, peer, last, c.id2);
    } else {
      CommitRefines(w, ev, c.fault, None, done, false, ViewOf(w, c.target), peer);
      CommitConsistent(w, ev, c.fault, None, done, last, c.id2);
    }
  }

  lemma UpsertRelationRefines(w: World, r: Relation, peer: Did, last: Id)
    requires Consistent(w, last) && last < r.id
    ensures RelsOf(w.rels[r.id := RelationRow(r)], peer)
         == if r.peer == peer then RelsOf(w.rels, peer)[r.id := RelationRow(r)] else RelsOf(w.rels, peer)
  {
  }

  lemma RelateRefines(w: World, c: Call, peer: Did, last: Id)
    requires Consistent(w, last) && last < c.id1 < c.id2 && c.target != "" && c.req.RelationCreate?
    ensures Refines(w, OpRelationCreate(w, c), Private.Relate(ViewOf(w, c.target), c), c.target, peer)
    ensures Consistent(OpRelationCreate(w, c).0, c.id2)
  {
    if c.req.rtype in TypesOf(w.rtypes, c.target) {
      var r, ev, v := CreatedRelation(c), RelationEvent(c), ViewOf(w, c.target);
      AppendRefines(w, ev, peer);
      UpsertRelationRefines(w, r, peer, last);
      var written := UpsertRelation(Logged(w, ev), r);
      CommitRefines(w, ev, c.fault, written, RelationReply(r), Private.ProperEndpoints(c),
                    v.(rels := v.rels[r.id := RelationRow(r)]), peer);
      CommitConsistent(w, ev, c.fault, written, RelationReply(r), last, c.id2);
    }
  }

  lemma DissolveRefines(w: World, c: Call, peer: Did, last: Id)
    requires Consistent(w, last) && last < c.id1 < c.id2 && c.target != "" && c.req.RelationDissolve?
    ensures Refines(w, OpRelationDissolve(w, c), Private.Dissolve(ViewOf(w, c.target), c), c.target, peer)
    ensures Consistent(OpRelationDissolve(w, c).0, c.id2)
  {
    var id, ev, v := c.req.id, DissolveEvent(c), ViewOf(w, c.target);
    AppendRefines(w, ev, peer);
    var written, ok := DissolveRelation(Logged(w, ev), c.target, id), id in v.rels;
    if ok {
      assert RelsOf(w.rels - {id}, peer) == if c.target == peer then RelsOf(w.rels, peer) - {id} else RelsOf(w.rels, peer);
    }
    CommitRefines(w, ev, c.fault, written, StampReply(id, c.now), ok, v.(rels := v.rels - {id}), peer);
    CommitConsistent(w, ev, c.fault, written, StampReply(id, c.now), last, c.id2);
  }

  lemma RegisterKeepsTables(w: World, owner: Did, k: Kind, def: TypeDef)
    ensures var u := RegisterType(w, owner, k, def);
      u.peers == w.peers && u.log == w.log && u.rows == w.rows && u.rels == w.rels && u.jsonText == w.jsonText
  {
  }

  lemma DefineRefines(w: World, c: Call, peer: Did, last: Id)
    requires Consistent(w, last) && last < c.id1 < c.id2 && c.target != "" && Defines(c)
    ensures Refines(w, OpTypeDefine(w, c), Private.Define(ViewOf(w, c.target), c), c.target, peer)
    ensures Consistent(OpTypeDefine(w, c).0, c.id2)
  {
    hide DefinitionData, DefinedType, RegisterType, Private.Register, OfPeer, Commit, Private.Commit;
    var u := RegisterType(w, c.target, c.req.kind, DefinedType(c));
    assert Consistent(u, last) && u.rows == w.rows && u.log == w.log by { RegisterKeepsTables(w, c.target, c.req.kind, DefinedType(c)); }
    RegisterRefines(w, c.target, c.req.kind, DefinedType(c), peer);
    RegisterRefines(w, c.target, c.req.kind, DefinedType(c), c.target);
    RowCommitRefines(u, DefinitionEvent(c), DefinitionEntity(c), c.fault, TypeReply(DefinedType(c)), peer, last, c.id2);
  }

  lemma RegisterPeerRefines(w: World, c: Call, peer: Did, last: Id)
    requires Consistent(w, last) && last < c.id1 < c.id2 && c.target != "" && c.req.Join?
    ensures Refines(w, Step(w, c), Private.Step(ViewOf(w, c.target), c), c.target, peer)
    ensures Consistent(Step(w, c).0, c.id2)
  {
    hide OfPeer, RowsOf, RelsOf, Dispatch;
  }

  lemma RestartRefines(w: World, listed: map<Did, Seeds>, peer: Did)
    ensures ViewOf(Restart(w, listed).0, peer) == Private.Restart(ViewOf(w, peer), listed).0
    ensures Restart(w, listed).1 == Private.Restart(ViewOf(w, peer), listed).1
  {
    QueryIsLocal(w, peer, Definitions.DefinitionQuery(EntityKind));
    QueryIsLocal(w, peer, Definitions.DefinitionQuery(RelationKind));
  }

  /** The view one call leaves to `peer`: the private machine's, with its reply, if the call concerns the peer, and
      otherwise the same as before. */
  ghost predicate Follows(w: World, c: Call, peer: Did) {
    if Concerns(c, peer) then
      ViewOf(Step(w, c).0, peer) == Private.Step(ViewOf(w, peer), c).0 && Step(w, c).1 == Private.Step(ViewOf(w, peer), c).1
    else ViewOf(Step(w, c).0, peer) == ViewOf(w, peer)
  }

  /** A call that changes nothing: a read, or one that is not routed. */
  lemma StillRefines(w: World, reply: Reply, target: Did, peer: Did, last: Id, next: Id)
    requires Consistent(w, last) && last <= next
    ensures Refines(w, (w, reply), (ViewOf(w, target), reply), target, peer) && Consistent(w, next)
  {
  }

  lemma DispatchRefines(w: World, c: Call, peer: Did, last: Id)
    requires Consistent(w, last) && last < c.id1 < c.id2 && c.target != "" && !c.req.Reopen? && !c.req.Join?
    ensures Refines(w, Step(w, c), Private.Step(ViewOf(w, c.target), c), c.target, peer)
    ensures Consistent(Step(w, c).0, c.id2)
  {
    hide Read, Private.Read, Private.Create, Private.Update, Private.Archive, Private.Relate, Private.Dissolve, Private.Define,
      OpEntityCreate, OpEntityUpdate, OpEntityArchive, OpRelationCreate, OpRelationDissolve, OpTypeDefine;
    assert ViewOf(w, c.target).registered <==> c.target in w.peers;
    StillRefines(w, Step(w, c).1, c.target, peer, last, c.id2);
    hide Refines, Consistent, ViewOf;
    if c.target in w.peers || c.req.SeedType? {
      match c.req
      case EntityCreate(_, _, _, _) => CreateRefines(w, c, peer, last);
      case EntityUpdate(_, _, _, _) => UpdateRefines(w, c, peer, last);
      case EntityArchive(_, _, _) => ArchiveRefines(w, c, peer, last);
      case RelationCreate(_, _, _, _, _, _) => RelateRefines(w, c, peer, last);
      case RelationDissolve(_, _, _) => DissolveRefines(w, c, peer, last);
      case TypeDefine(_, _, _, _, _, _, _) => DefineRefines(w, c, peer, last);
      case SeedType(_, _, _) => DefineRefines(w, c, peer, last);
      case _ => ReadRefines(w, c);
    }
  }

  /** A step of the shared machine, a restart included, is a step of the private one for every peer it concerns, with the
      same reply, and invisible to every other peer. */
  lemma StepRefines(w: World, c: Call, peer: Did, last: Id)
    requires Consistent(w, last) && last < c.id1 < c.id2 && (c.target != "" || c.req.Reopen?)
    ensures Follows(w, c, peer) && Consistent(Step(w, c).0, c.id2)
  {
    hide Private.Step;
    if c.req.Reopen? {
      RestartRefines(w, c.req.listed, peer);
      StepRestarts(w, c, peer);
    } else if c.req.Join? {
      RegisterPeerRefines(w, c, peer, last);
    } else {
      hide Step;
      DispatchRefines(w, c, peer, last);
    }
  }

  lemma StepRestarts(w: World, c: Call, peer: Did)
    requires c.req.Reopen?
    ensures Step(w, c) == Restart(w, c.req.listed)
    ensures Private.Step(ViewOf(w, peer), c) == Private.Restart(ViewOf(w, peer), c.req.listed)
  {
  }

  /** Isolation over whole runs, with peers joining and restarts: through the shared tables, `peer` sees the private
      machine run on the calls addressed to it and the restarts, and on nothing else. */
  lemma {:induction false} RunRefines(w: World, calls: seq<Call>, peer: Did, last: Id)
    requires Consistent(w, last) && Clocked(calls, last) && peer != "" && Addressed(calls)
    ensures ViewOf(Exec(w, calls), peer) == Private.Exec(ViewOf(w, peer), CallsTo(calls, peer))
    ensures Replies(w, calls, peer) == Private.Replies(ViewOf(w, peer), CallsTo(calls, peer))
    ensures Consistent(Exec(w, calls), LastId(calls, last))
  {
    if calls != [] {
      var before, c := calls[..|calls| - 1], calls[|calls| - 1];
      RunRefines(w, before, peer, last);
      StepRefines(Exec(w, before), c, peer, LastId(before, last));
      var mine := CallsTo(before, peer);
      if Concerns(c, peer) {
        assert (mine + [c])[..|mine|] == mine;
      } else {
        assert CallsTo(calls, peer) == mine;
      }
    }
  }

  lemma {:induction false} CallsToMembers(calls: seq<Call>, peer: Did)
    ensures CallsTo(CallsTo(calls, peer), peer) == CallsTo(calls, peer)
    ensures forall c :: c in CallsTo(calls, peer) ==> c in calls
  {
    if calls != [] {
      var before, c := calls[..|calls| - 1], calls[|calls| - 1];
      CallsToMembers(before, peer);
      var mine := CallsTo(before, peer);
      if Concerns(c, peer) {
        assert (mine + [c])[..|mine|] == mine;
      } else {
        assert CallsTo(calls, peer) == mine;
      }
    }
  }

  lemma {:induction false} CallsToTarget(calls: seq<Call>, peer: Did)
    ensures forall i :: 0 <= i < |CallsTo(calls, peer)| ==> Concerns(CallsTo(calls, peer)[i], peer)
  {
    if calls != [] { CallsToTarget(calls[..|calls| - 1], peer); }
  }

  lemma ClockedAppend(calls: seq<Call>, c: Call, last: Id)
    requires Clocked(calls, last) && c.now > ZERO_TIME && last < c.id1 < c.id2
    requires forall d :: d in calls ==> d.now <= c.now && d.id2 < c.id1
    ensures Clocked(calls + [c], last)
  {
  }

  lemma {:induction false} CallsToClocked(calls: seq<Call>, peer: Did, last: Id)
    requires Clocked(calls, last)
    ensures Clocked(CallsTo(calls, peer), last)
  {
    if calls != [] {
      var before, c := calls[..|calls| - 1], calls[|calls| - 1];
      CallsToClocked(before, peer, last);
      if Concerns(c, peer) {
        CallsToMembers(before, peer);
        forall d | d in before ensures d.now <= c.now && d.id2 < c.id1 {
          var k :| 0 <= k < |before| && before[k] == d;
          assert calls[k] == d;
        }
        ClockedAppend(CallsTo(before, peer), c, last);
      } else {
        assert CallsTo(calls, peer) == CallsTo(before, peer);
      }
    }
  }

  /** Non-interference: deleting every call addressed to other peers changes neither what
      the shared state holds of `peer` nor any reply `peer` gives. */
  lemma NonInterference(w: World, calls: seq<Call>, peer: Did, last: Id)
    requires Consistent(w, last) && Clocked(calls, last) && peer != "" && Addressed(calls)
    ensures ViewOf(Exec(w, calls), peer) == ViewOf(Exec(w, CallsTo(calls, peer)), peer)
    ensures Replies(w, calls, peer) == Replies(w, CallsTo(calls, peer), peer)
  {
    CallsToClocked(calls, peer, last);
    CallsToMembers(calls, peer);
    forall i | 0 <= i < |CallsTo(calls, peer)| ensures CallsTo(calls, peer)[i].target != "" || CallsTo(calls, peer)[i].req.Reopen? {
      assert CallsTo(calls, peer)[i] in CallsTo(calls, peer);
    }
    RunRefines(w, calls, peer, last);
    RunRefines(w, CallsTo(calls, peer), peer, last);
  }
}
