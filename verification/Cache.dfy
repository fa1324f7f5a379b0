/** The main results about the shared tables: they are a cache of the event log. */
module Cache {
  import opened Types
  import opened Requests
  import opened EventLog
  import opened Shared
  import opened Isolation
  import opened Replay
  import opened RelationReplay
  import Private

  /** Entity rows `rows` are a faithful cache of `log`: each replayed entity predicts its
      row exactly, and the rows replay knows nothing of are the definitions `defs`. */
  ghost predicate Caches(rows: map<Id, Entity>, log: seq<Event>, defs: set<Id>) {
    && (forall id :: id in Fold(log) ==> id in rows && rows[id] == Replayed(Fold(log)[id], ArchivedLast(log, id)))
    && (forall id :: id in rows ==> (id !in Fold(log) <==> id in defs))
  }

  /** Relation rows `rels` are exactly the storable relations `log` leaves standing. */
  ghost predicate CachesRelations(rels: map<Id, Relation>, log: seq<Event>) {
    forall id :: At(rels, id) == ReplayedRelation(log, id)
  }

  /** The marks a run leaves on one peer. */
  ghost function PeerMarks(w: World, calls: seq<Call>, peer: Did): Marks {
    MarksOf(ViewOf(w, peer), CallsTo(calls, peer))
  }

  predicate Reliable(calls: seq<Call>) {
    forall i :: 0 <= i < |calls| ==> calls[i].fault.Works?
  }

  /** Rows, replay and marks of every id of every peer, after any run with any storage
      failures.  Everything below is read off this. */
  lemma RunsAgree(w: World, calls: seq<Call>, peer: Did)
    requires Fresh(w) && Clocked(calls, NO_ID) && Addressed(calls) && peer != ""
    ensures var v := ViewOf(Exec(w, calls), peer);
      && v == Private.Exec(ViewOf(w, peer), CallsTo(calls, peer))
      && Coherent(v, PeerMarks(w, calls, peer), peer, LastId(CallsTo(calls, peer), NO_ID), LastTime(CallsTo(calls, peer)))
      && RelationsCoherent(v, PeerMarks(w, calls, peer), LastId(CallsTo(calls, peer), NO_ID))
  {
    hide Private.Step, Mark, Coherent, RelationsCoherent;
    var mine := CallsTo(calls, peer);
    CallsToClocked(calls, peer, NO_ID);
    CallsToTarget(calls, peer);
    RunRefines(w, calls, peer, NO_ID);
    RunCoherent(ViewOf(w, peer), mine, peer);
    RunKeeps(ViewOf(w, peer), mine);
  }

  lemma {:induction false} CallsToReliable(calls: seq<Call>, peer: Did)
    requires Reliable(calls)
    ensures Reliable(CallsTo(calls, peer))
  {
    if calls != [] { CallsToReliable(calls[..|calls| - 1], peer); }
  }

  lemma AgreementCaches(v: Private.View, m: Marks, peer: Did, last: Id, now: Time)
    requires Coherent(v, m, peer, last, now) && m.staleData == {} && m.staleArchive == {}
    ensures Caches(v.rows, v.log, m.definitions)
  {
    hide Fold, LastEffective;
    forall id | id in Fold(v.log)
      ensures id in v.rows && v.rows[id] == Replayed(Fold(v.log)[id], ArchivedLast(v.log, id))
    {
      assert Agrees(v, m, id);
      assert ProperRow(v, id, peer);
    }
    forall id | id in v.rows ensures id !in Fold(v.log) <==> id in m.definitions {
      assert Agrees(v, m, id);
    }
  }

  /** Without storage failures no id is ever left stale. */
  lemma {:induction false} ReliableMarks(v: Private.View, calls: seq<Call>, peer: Did)
    requires v.log == [] && v.rows == map[] && peer != "" && Reliable(calls)
    requires Clocked(calls, NO_ID) && forall i :: 0 <= i < |calls| ==> Concerns(calls[i], peer)
    ensures var m := MarksOf(v, calls); m.staleData == {} && m.staleArchive == {} && m.staleRels == {}
  {
    if calls != [] {
      var before, c := calls[..|calls| - 1], calls[|calls| - 1];
      ReliableMarks(v, before, peer);
      RunCoherent(v, before, peer);
      var u := Private.Exec(v, before);
      if c.req.EntityArchive? { assert Agrees(u, MarksOf(v, before), c.req.id); }
      ReliableMark(u, MarksOf(v, before), c);
    }
  }

  lemma ReliableMark(v: Private.View, m: Marks, c: Call)
    requires m.staleData == {} && m.staleArchive == {} && m.staleRels == {} && c.fault.Works?
    requires c.req.EntityArchive? && c.req.id in Fold(v.log) ==> c.req.id in v.rows
    ensures var n := Mark(v, m, c); n.staleData == {} && n.staleArchive == {} && n.staleRels == {}
  {
    hide Fold, DefinitionData, DefinitionAuthor, Validate;
  }

  // ---- the theorems ----

  /** Replay equals projection: after any run without storage failures, each peer's rows
      and relations are exactly what replaying its part of the log predicts. */
  lemma ReplayEqualsRows(w: World, calls: seq<Call>, peer: Did)
    requires Fresh(w) && Clocked(calls, NO_ID) && Addressed(calls) && peer != "" && Reliable(calls)
    ensures var u := Exec(w, calls); var log := OfPeer(u.log, peer);
      && Caches(RowsOf(u.rows, peer), log, PeerMarks(w, calls, peer).definitions)
      && CachesRelations(RelsOf(u.rels, peer), log)
  {
    hide Coherent, RelationsCoherent, ReplayedRelation, Caches;
    RunsAgree(w, calls, peer);
    var mine, v := CallsTo(calls, peer), ViewOf(Exec(w, calls), peer);
    CallsToClocked(calls, peer, NO_ID);
    CallsToTarget(calls, peer);
    CallsToReliable(calls, peer);
    ReliableMarks(ViewOf(w, peer), mine, peer);
    AgreementCaches(v, PeerMarks(w, calls, peer), peer, LastId(mine, NO_ID), LastTime(mine));
    forall id ensures At(v.rels, id) == ReplayedRelation(v.log, id) {
      StillAgrees(v, PeerMarks(w, calls, peer), LastId(mine, NO_ID), id);
    }
  }

  lemma StillAgrees(v: Private.View, m: Marks, last: Id, id: Id)
    requires RelationsCoherent(v, m, last)
    ensures id !in m.staleRels ==> At(v.rels, id) == ReplayedRelation(v.log, id)
  {
    assert RelationAgrees(v, m, id);
  }

  /** With storage failures anywhere in the run, every replayed entity that the failures
      did not leave stale still predicts its row exactly. */
  lemma ReplayDespiteFailures(w: World, calls: seq<Call>, peer: Did, id: Id)
    requires Fresh(w) && Clocked(calls, NO_ID) && Addressed(calls) && peer != ""
    ensures var u := Exec(w, calls); var f := Fold(OfPeer(u.log, peer)); var m := PeerMarks(w, calls, peer);
      id in f && id !in m.staleData && id !in m.staleArchive ==>
        && id in u.rows
        && u.rows[id] == Replayed(f[id], ArchivedLast(OfPeer(u.log, peer), id))
  {
    hide Fold, LastEffective, RelationsCoherent;
    RunsAgree(w, calls, peer);
    var v := ViewOf(Exec(w, calls), peer);
    assert Agrees(v, PeerMarks(w, calls, peer), id);
    assert ProperRow(v, id, peer);
  }

  lemma CompletedUpdateAgrees(v: Private.View, m: Marks, c: Call, peer: Did, last: Id, now: Time)
    requires Coherent(v, m, peer, last, now) && Timely(c, peer, last, now)
    requires c.req.EntityUpdate? && Private.Step(v, c).1.EntityReply?
    ensures var u := Private.Step(v, c).0; var f := Fold(u.log);
      c.req.id in u.rows && c.req.id in f && DataOr(f[c.req.id].data) == DataOr(u.rows[c.req.id].data)
  {
    hide Fold, LastEffective, Coherent;
    StepAgrees(v, m, c, peer, last, now, c.req.id);
  }

  /** Self-healing: whatever failed before, an update that completes leaves the replayed
      data of its entity equal to the data of its row. */
  lemma UpdateHeals(w: World, calls: seq<Call>)
    requires Fresh(w) && Clocked(calls, NO_ID) && Addressed(calls) && calls != []
    requires var c := calls[|calls| - 1];
      c.req.EntityUpdate? && Step(Exec(w, calls[..|calls| - 1]), c).1.EntityReply?
    ensures var c := calls[|calls| - 1]; var u := Exec(w, calls); var f := Fold(OfPeer(u.log, c.target));
      && c.req.id in u.rows && c.req.id in f
      && DataOr(f[c.req.id].data) == DataOr(u.rows[c.req.id].data)
  {
    hide Fold, Coherent, RelationsCoherent, Step, Private.Step;
    var c, before := calls[|calls| - 1], calls[..|calls| - 1];
    var peer := c.target;
    ClockedPrefix(calls, |before|);
    RunsAgree(w, before, peer);
    RunRefines(w, before, peer, NO_ID);
    StepRefines(Exec(w, before), c, peer, LastId(before, NO_ID));
    var mine := CallsTo(before, peer);
    EarlierMine(calls, peer);
    CompletedUpdateAgrees(ViewOf(Exec(w, before), peer), PeerMarks(w, before, peer), c, peer,
                          LastId(mine, NO_ID), LastTime(mine));
  }

  /** The last call of a run comes after a peer's earlier calls. */
  lemma EarlierMine(calls: seq<Call>, peer: Did)
    requires Clocked(calls, NO_ID) && calls != []
    ensures var mine, c := CallsTo(calls[..|calls| - 1], peer), calls[|calls| - 1];
      LastId(mine, NO_ID) < c.id1 < c.id2 && LastTime(mine) <= c.now && c.now > ZERO_TIME
  {
    var before := calls[..|calls| - 1];
    var mine := CallsTo(before, peer);
    CallsToMembers(before, peer);
    if mine != [] {
      assert mine[|mine| - 1] in mine;
      var k :| 0 <= k < |before| && before[k] == mine[|mine| - 1];
      assert calls[k] == before[k];
    }
  }

  lemma ClockedPrefix(calls: seq<Call>, n: nat)
    requires Clocked(calls, NO_ID) && Addressed(calls) && n <= |calls|
    ensures Clocked(calls[..n], NO_ID) && Addressed(calls[..n])
  {
  }

  /** `log` is `before`, or `before` with one more event. */
  predicate Extends(log: seq<Event>, before: seq<Event>) {
    log == before || (|log| == |before| + 1 && log[..|before|] == before)
  }

  predicate SameTables(v: Private.View, u: Private.View) {
    u.rows == v.rows && u.rels == v.rels
  }

  lemma FailedEntityOps(v: Private.View, c: Call)
    requires !c.fault.Works?
    ensures c.req.EntityCreate? ==> SameTables(v, Private.Create(v, c).0)
    ensures c.req.EntityUpdate? ==> SameTables(v, Private.Update(v, c).0)
    ensures c.req.EntityArchive? ==> SameTables(v, Private.Archive(v, c).0)
  {
    hide Validated, CreatedEntity, CreateEvent, UpdateEvent, Merged, ArchiveEvent;
  }

  lemma FailedOtherOps(v: Private.View, c: Call)
    requires !c.fault.Works?
    ensures c.req.RelationCreate? ==> SameTables(v, Private.Relate(v, c).0)
    ensures c.req.RelationDissolve? ==> SameTables(v, Private.Dissolve(v, c).0)
    ensures Defines(c) ==> SameTables(v, Private.Define(v, c).0)
  {
    hide CreatedRelation, RelationEvent, DissolveEvent, DefinitionEntity, DefinitionEvent, DefinedType;
  }

  /** A failing call never touches a table, and logs at most its own event. */
  lemma FailureTouchesNoTable(v: Private.View, c: Call)
    requires !c.fault.Works?
    ensures var u := Private.Step(v, c).0; u.rows == v.rows && u.rels == v.rels && Extends(u.log, v.log)
  {
    var ev := Private.StepLogs(v, c);
    FailedEntityOps(v, c);
    FailedOtherOps(v, c);
    hide Private.Create, Private.Update, Private.Archive, Private.Relate, Private.Dissolve, Private.Define, Private.Read;
  }

  lemma UnloggedUnmarked(v: Private.View, m: Marks, c: Call)
    ensures Private.Step(v, c).0.log == v.log ==> Mark(v, m, c) == m
  {
  }

  lemma ExtendsMeans(log: seq<Event>, before: seq<Event>)
    requires Extends(log, before)
    ensures log == before || (log != [] && log[..|log| - 1] == before)
  {
  }

  /** Crash cut: stop a run anywhere inside its last call.  The tables then agree with the
      replay of the log, or with the replay of the log without its last event. */
  lemma CrashCut(w: World, calls: seq<Call>, peer: Did)
    requires Fresh(w) && Clocked(calls, NO_ID) && Addressed(calls) && peer != ""
    requires calls != [] && Reliable(calls[..|calls| - 1])
    ensures var u := Exec(w, calls); var log := OfPeer(u.log, peer);
      || (&& Caches(RowsOf(u.rows, peer), log, PeerMarks(w, calls, peer).definitions)
          && CachesRelations(RelsOf(u.rels, peer), log))
      || (&& log != []
          && Caches(RowsOf(u.rows, peer), log[..|log| - 1], PeerMarks(w, calls[..|calls| - 1], peer).definitions)
          && CachesRelations(RelsOf(u.rels, peer), log[..|log| - 1]))
  {
    hide Private.Step, Caches, CachesRelations, Step, RowsOf, RelsOf, Exec, Clocked, MarkCall, Extends;
    var c, before := calls[|calls| - 1], calls[..|calls| - 1];
    if c.fault.Works? {
      assert calls == before + [c];
      ReplayEqualsRows(w, calls, peer);
    } else {
      ClockedPrefix(calls, |before|);
      ReplayEqualsRows(w, before, peer);
      RunRefines(w, before, peer, NO_ID);
      RunRefines(w, calls, peer, NO_ID);
      var mine := CallsTo(before, peer);
      if Concerns(c, peer) {
        assert (mine + [c])[..|mine|] == mine;
        FailureTouchesNoTable(ViewOf(Exec(w, before), peer), c);
        UnloggedUnmarked(ViewOf(Exec(w, before), peer), PeerMarks(w, before, peer), c);
        ExtendsMeans(ViewOf(Exec(w, calls), peer).log, ViewOf(Exec(w, before), peer).log);
      } else {
        assert CallsTo(calls, peer) == mine;
      }
    }
  }
}
