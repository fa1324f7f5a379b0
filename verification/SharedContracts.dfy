/** The contracts of calls on the shared tables, and what they make of relations over whole runs. */
module SharedContracts {
  import opened Types
  import opened Requests
  import opened Shared
  import opened Isolation
  import opened Contracts
  import opened Queries
  import Private

  /** Whatever other peers have in the tables, a call does for its peer, and answers, what its request says. */
  lemma CallMeets(w: World, c: Call, last: Id)
    requires Consistent(w, last) && last < c.id1 < c.id2 && c.target != ""
    ensures Contract(ViewOf(w, c.target), c, ViewOf(Step(w, c).0, c.target), Step(w, c).1)
  {
    hide Step, Private.Step, Contract, Consistent;
    StepRefines(w, c, c.target, last);
    StepMeets(ViewOf(w, c.target), c);
  }

  /** The id under which a writing call logs its event. */
  predicate DrawsForEvent(c: Call, id: Id) {
    match c.req
    case EntityCreate(_, _, _, _) => id == c.id2
    case EntityUpdate(_, _, _, _) => id == c.id1
    case EntityArchive(_, _, _) => id == c.id1
    case RelationCreate(_, _, _, _, _, _) => id == c.id2
    case RelationDissolve(_, _, _) => id == c.id1
    case TypeDefine(_, _, _, _, _, _, _) => id == c.id2
    case SeedType(_, _, _) => id == c.id1
    case _ => false
  }

  /** An event id is used once, by whichever peer: a call that draws one already logged changes neither log nor tables and
      does not succeed. */
  lemma UsedIdsAreRefused(w: World, c: Call, i: nat)
    requires i < |w.log| && DrawsForEvent(c, w.log[i].id)
    ensures var u, reply := Step(w, c).0, Step(w, c).1;
      u.log == w.log && u.rows == w.rows && u.rels == w.rels && (reply.Failed? || reply.Panicked?)
  {
    hide Validated, CreatedEntity, CreateEvent, Merged, UpdateEvent, ArchiveEvent, CreatedRelation, RelationEvent, DissolveEvent, DefinedType,
      OpTypeDefine, DefinitionEntity, DefinitionEvent, RegisterType, UpsertEntity, ArchiveEntity, UpsertRelation, DissolveRelation, Read, Commit, CanAppend, Restart;
    EventIds(c);
    match c.req
    case EntityCreate(etype, fields, _, _) =>
      var defs := TypesOf(w.etypes, c.target);
      if etype in defs {
        var data := Validated(defs[etype], fields).0;
        var e, ev := CreatedEntity(c, data), CreateEvent(c, data);
        RefusedCommit(w, ev, c.fault, UpsertEntity(Logged(w, ev), e), EntityReply(e), i);
      }
    case EntityUpdate(id, changes, _, _) =>
      var got := GetEntity(w, c.target, id);
      if got.Some? {
        var e, ev := Merged(got.value, changes, c.now), UpdateEvent(c, got.value);
        RefusedCommit(w, ev, c.fault, UpsertEntity(Logged(w, ev), e), EntityReply(e), i);
      }
    case EntityArchive(id, _, _) =>
      RefusedCommit(w, ArchiveEvent(c), c.fault, ArchiveEntity(Logged(w, ArchiveEvent(c)), c.target, id, c.now), StampReply(id, c.now), i);
    case RelationCreate(_, _, _, _, _, _) =>
      RefusedCommit(w, RelationEvent(c), c.fault, UpsertRelation(Logged(w, RelationEvent(c)), CreatedRelation(c)), RelationReply(CreatedRelation(c)), i);
    case RelationDissolve(id, _, _) =>
      RefusedCommit(w, DissolveEvent(c), c.fault, DissolveRelation(Logged(w, DissolveEvent(c)), c.target, id), StampReply(id, c.now), i);
    case TypeDefine(_, _, _, _, _, _, _) => DefinitionRefused(w, c, i);
    case SeedType(_, _, _) => DefinitionRefused(w, c, i);
    case _ =>
  }

  lemma DefinitionRefused(w: World, c: Call, i: nat)
    requires Defines(c) && i < |w.log| && DefinitionEvent(c).id == w.log[i].id
    ensures var (u, reply) := OpTypeDefine(w, c); u.log == w.log && u.rows == w.rows && u.rels == w.rels && reply.Failed?
  {
    hide DefinedType, DefinitionEntity, DefinitionEvent, RegisterType, UpsertEntity, Commit;
    var u, ev := RegisterType(w, c.target, c.req.kind, DefinedType(c)), DefinitionEvent(c);
    RegisterKeepsTables(w, c.target, c.req.kind, DefinedType(c));
    RefusedCommit(u, ev, c.fault, UpsertEntity(Logged(u, ev), DefinitionEntity(c)), TypeReply(DefinedType(c)), i);
  }

  lemma RefusedCommit(w: World, ev: Event, fault: Fault, written: Option<World>, done: Reply, i: nat)
    requires i < |w.log| && ev.id == w.log[i].id
    ensures Commit(w, ev, fault, written, done) == (w, Failed(AppendError))
  {
  }

  lemma EventIds(c: Call)
    ensures c.req.EntityCreate? ==> forall data :: CreateEvent(c, data).id == c.id2
    ensures c.req.EntityUpdate? ==> forall row :: UpdateEvent(c, row).id == c.id1
    ensures c.req.EntityArchive? ==> ArchiveEvent(c).id == c.id1
    ensures c.req.RelationCreate? ==> RelationEvent(c).id == c.id2
    ensures c.req.RelationDissolve? ==> DissolveEvent(c).id == c.id1
    ensures Defines(c) ==> DefinitionEvent(c).id == if c.req.TypeDefine? then c.id2 else c.id1
  {
    hide DefinedType;
  }

  // ---- relations over whole runs ----

  /** Call `i` of the run creates the relation. */
  ghost predicate Makes(v: Private.View, calls: seq<Call>, i: int, id: Id) {
    && 0 <= i < |calls| && calls[i].req.RelationCreate? && calls[i].id1 == id
    && Private.Step(Private.Exec(v, calls[..i]), calls[i]).1.RelationReply?
  }

  /** Call `j` of the run deletes it. */
  ghost predicate Unmakes(v: Private.View, calls: seq<Call>, j: int, id: Id) {
    && 0 <= j < |calls| && calls[j].req.RelationDissolve? && calls[j].req.id == id
    && Private.Step(Private.Exec(v, calls[..j]), calls[j]).1.StampReply?
  }

  /** Call `i` creates the relation, and no later call creates it again or deletes it. */
  ghost predicate StandsFrom(v: Private.View, calls: seq<Call>, i: int, id: Id) {
    && Makes(v, calls, i, id)
    && forall j :: i < j < |calls| ==> !Makes(v, calls, j, id) && !Unmakes(v, calls, j, id)
  }

  /** The row is the relation that the request asks for, a nil data map being empty. */
  predicate RowOfRequest(c: Call, r: Relation)
    requires c.req.RelationCreate?
  {
    && r.id == c.id1 && r.from == c.req.from && r.to == c.req.to && r.rtype == c.req.rtype && r.peer == c.target && r.createdAt == c.now
    && r.data == Some(GivenFields(c.req.rdata))
    && Attributed(c, r.createdByDid, r.createdByClient, c.req.author, c.req.client)
  }

  /** What one call does to one relation. */
  lemma StepRelation(v: Private.View, c: Call, id: Id)
    ensures var u, reply := Private.Step(v, c).0, Private.Step(v, c).1;
      if c.req.RelationCreate? && c.id1 == id && reply.RelationReply? then id in u.rels && RowOfRequest(c, u.rels[id])
      else if c.req.RelationDissolve? && c.req.id == id && reply.StampReply? then id !in u.rels
      else (id in u.rels <==> id in v.rels) && (id in v.rels ==> u.rels[id] == v.rels[id])
  {
    hide Private.Step, LogsOne, Signed, Attributed;
    if c.req.RelationCreate? {
      RelateMeets(v, c);
    } else if c.req.RelationDissolve? {
      DissolveMeets(v, c);
    } else {
      var ev := Private.StepLogs(v, c);
    }
  }

  lemma StandsStep(v: Private.View, calls: seq<Call>, i: int, id: Id)
    requires 0 <= i < |calls| - 1
    ensures StandsFrom(v, calls, i, id) <==>
      StandsFrom(v, calls[..|calls| - 1], i, id) && !Makes(v, calls, |calls| - 1, id) && !Unmakes(v, calls, |calls| - 1, id)
  {
    hide Private.Step, Private.Exec;
    var before := calls[..|calls| - 1];
    forall j | 0 <= j < |before| ensures before[..j] == calls[..j] &&
      (Makes(v, before, j, id) <==> Makes(v, calls, j, id)) && (Unmakes(v, before, j, id) <==> Unmakes(v, calls, j, id))
    {
      assert before[..j] == calls[..j];
    }
  }

  /** A relation stands exactly from the call that created it last until it is dissolved, and its row is what that call
      asked for. */
  lemma {:induction false} PrivateRelations(v: Private.View, calls: seq<Call>, id: Id)
    requires v.rels == map[]
    ensures var rels := Private.Exec(v, calls).rels;
      && (id in rels <==> exists i :: StandsFrom(v, calls, i, id))
      && forall i :: StandsFrom(v, calls, i, id) ==> id in rels && RowOfRequest(calls[i], rels[id])
  {
    hide Private.Step, RowOfRequest;
    if calls != [] {
      var n := |calls| - 1;
      var before := calls[..n];
      PrivateRelations(v, before, id);
      StepRelation(Private.Exec(v, before), calls[n], id);
      forall i | 0 <= i < n ensures StandsFrom(v, calls, i, id) <==>
        StandsFrom(v, before, i, id) && !Makes(v, calls, n, id) && !Unmakes(v, calls, n, id)
      {
        StandsStep(v, calls, i, id);
      }
      hide Private.Exec;
      if Makes(v, calls, n, id) { assert StandsFrom(v, calls, n, id); }
    }
  }

  /** Through the shared tables, whatever other peers do and whichever calls fail: a peer's relation stands exactly from the
      call that created it until it is dissolved, and its row has the endpoints, the type and the data of that call. */
  lemma RelationsHoldRequests(w: World, calls: seq<Call>, peer: Did, id: Id)
    requires Fresh(w) && Clocked(calls, NO_ID) && Addressed(calls) && peer != ""
    ensures var rels, v, mine := RelsOf(Exec(w, calls).rels, peer), ViewOf(w, peer), CallsTo(calls, peer);
      && (id in rels <==> exists i :: StandsFrom(v, mine, i, id))
      && forall i :: StandsFrom(v, mine, i, id) ==> id in rels && RowOfRequest(mine[i], rels[id])
  {
    hide Exec, Private.Exec, StandsFrom, RowOfRequest;
    RunRefines(w, calls, peer, NO_ID);
    PrivateRelations(ViewOf(w, peer), CallsTo(calls, peer), id);
  }

  // ---- reading back what was just written ----

  /** A relation just created comes first in the listing by any of its endpoints and its type. */
  lemma RelateThenList(v: Private.View, c: Call, d: Call)
    requires c.req.RelationCreate? && Private.Step(v, c).1.RelationReply?
    requires forall x :: x in v.rels ==> v.rels[x].id == x && x < c.id1 && v.rels[x].createdAt <= c.now
    requires d.req.RelationList? && d.target == c.target && d.req.from in {0, c.req.from} && d.req.to in {0, c.req.to} && d.req.rtype in {"", c.req.rtype}
    ensures var reply := Private.Step(Private.Step(v, c).0, d).1;
      reply.RelationsReply? && reply.relations != [] && RowOfRequest(c, reply.relations[0])
  {
    hide Private.Step, Attributed, LogsOne, Signed;
    var u := Private.Step(v, c).0;
    StepMeets(v, c);
    StepMeets(u, d);
    var rs, row := Private.Step(u, d).1.relations, u.rels[c.id1];
    forall x | x in u.rels ensures u.rels[x].id == x { }
    var n: int := if d.req.limit > 0 then d.req.limit else 50;
    assert RelationsListed(u, d.target, d.req.from, d.req.to, d.req.rtype, rs, n);
    assert RelationAnswer(u.rels, d.target, d.req.from, d.req.to, d.req.rtype, rs, n, c.id1);
    assert WantedRelation(u.rels, d.target, d.req.from, d.req.to, d.req.rtype, c.id1);
    assert rs != [];
    assert RelationAnswer(u.rels, d.target, d.req.from, d.req.to, d.req.rtype, rs, n, rs[0].id);
    assert !NewerRelation(rs[0], row);
  }

  lemma DefinitionIsKnown(v: Private.View, c: Call) returns (def: TypeDef)
    requires c.req.TypeDefine? && v.registered
    ensures Declared(c, def)
    ensures var u := Private.Step(v, c).0; u.registered && match c.req.kind
      case EntityKind => c.req.name in u.etypes && u.etypes[c.req.name] == def
      case RelationKind => c.req.name in u.rtypes && u.rtypes[c.req.name] == def
  {
    hide Private.Step, LogsOne, Signed, StoresDefinition, Attributed, Declared;
    DefineMeets(v, c);
    var u, reply := Private.Step(v, c).0, Private.Step(v, c).1;
    def :| Declared(c, def) && Defined(v, c, c.req.kind, def, c.id2, c.id1, u, reply);
    DeclaredName(c, def);
  }

  lemma DeclaredName(c: Call, def: TypeDef)
    requires c.req.TypeDefine?
    ensures Declared(c, def) ==> def.name == c.req.name
  {
  }

  lemma DescribeMeets(v: Private.View, d: Call)
    requires d.req.TypeDescribe? && v.registered
    ensures Private.Step(v, d).1 == Private.Describe(v, d)
  {
    hide Private.Describe;
  }

  /** A type just defined is described as it was declared, even if it could not be stored. */
  lemma DefineThenDescribe(v: Private.View, c: Call, d: Call)
    requires c.req.TypeDefine? && v.registered && d.req == TypeDescribe(c.req.kind, c.req.name)
    ensures var reply := Private.Step(Private.Step(v, c).0, d).1;
      reply.TypeReply? && Declared(c, reply.def)
  {
    hide Private.Step;
    var def := DefinitionIsKnown(v, c);
    DescribeMeets(Private.Step(v, c).0, d);
  }

  /** An entity just created comes first in the listing of its type. */
  lemma CreateThenList(v: Private.View, c: Call, d: Call)
    requires c.req.EntityCreate? && Private.Step(v, c).1.EntityReply?
    requires forall x :: x in v.rows ==> v.rows[x].id == x && x < c.id1 && v.rows[x].createdAt <= c.now
    requires d.req.EntityList? && d.target == c.target && d.req.query.etype in {"", c.req.etype} && d.req.query.filters == map[]
    ensures var created, reply := Private.Step(v, c).1.entity, Private.Step(Private.Step(v, c).0, d).1;
      reply.EntitiesReply? && reply.entities != [] && reply.entities[0] == created.(data := Some(GivenFields(created.data)))
  {
    hide Private.Step, Attributed, LogsOne, Signed, LacksRequired, InitialField;
    var u, q := Private.Step(v, c).0, d.req.query;
    StepMeets(v, c);
    StepMeets(u, d);
    var es, row := Private.Step(u, d).1.entities, u.rows[c.id1];
    forall x | x in u.rows ensures u.rows[x].id == x { }
    var n: int := if q.limit > 0 then q.limit else 50;
    assert EntitiesListed(u, d.target, q, es, n);
    assert EntityAnswer(u.rows, d.target, q, u.jsonText, es, n, c.id1);
    assert Wanted(u.rows, d.target, q, u.jsonText, c.id1);
    assert es != [];
    assert EntityAnswer(u.rows, d.target, q, u.jsonText, es, n, es[0].id);
    assert !Newer(es[0], row);
  }
}
