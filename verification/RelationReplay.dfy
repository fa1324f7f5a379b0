/** The relation table is a cache of the log too: for one peer's private machine it holds
    exactly the standing relations whose endpoints and type are named. */
module RelationReplay {
  import opened Types
  import opened Requests
  import opened EventLog
  import opened Private
  import opened Replay

  /** The store refuses a relation row without endpoints or type, after its event is logged. */
  predicate Storable(r: Relation) {
    r.from != NO_ID && r.to != NO_ID && r.rtype != ""
  }

  /** The relation row that replay predicts for an id. */
  function ReplayedRelation(log: seq<Event>, id: Id): Option<Relation> {
    var f := FoldRelations(log);
    if id in f && Storable(f[id]) then Some(RelationRow(f[id])) else None
  }

  ghost predicate RelationAgrees(v: View, m: Marks, id: Id) {
    id !in m.staleRels ==> At(v.rels, id) == ReplayedRelation(v.log, id)
  }

  ghost predicate RelationsCoherent(v: View, m: Marks, last: Id) {
    && (forall id :: id in v.rels ==> id <= last)
    && (forall id :: RelationAgrees(v, m, id))
  }

  lemma RelateKeeps(v: View, m: Marks, c: Call, last: Id, id: Id)
    requires RelationsCoherent(v, m, last) && last < c.id1 && c.req.RelationCreate?
    ensures var (u, reply) := Relate(v, c); RelationAgrees(u, MarkCall(v, m, c, u.log != v.log, reply.Failed?), id)
  {
    hide FoldRelations;
    assert RelationAgrees(v, m, id);
    if c.req.rtype in v.rtypes && !c.fault.AppendFails? {
      assert Relate(v, c).0.log == v.log + [RelationEvent(c)];
      FoldRelationsAppend(v.log, RelationEvent(c));
    }
  }

  lemma DissolveKeeps(v: View, m: Marks, c: Call, last: Id, id: Id)
    requires RelationsCoherent(v, m, last) && c.req.RelationDissolve?
    ensures var (u, reply) := Dissolve(v, c); RelationAgrees(u, MarkCall(v, m, c, u.log != v.log, reply.Failed?), id)
  {
    hide FoldRelations;
    assert RelationAgrees(v, m, id);
    if !c.fault.AppendFails? {
      assert Dissolve(v, c).0.log == v.log + [DissolveEvent(c)];
      FoldRelationsAppend(v.log, DissolveEvent(c));
    }
  }

  /** Any other call leaves the relations, their marks and their replay alone. */
  lemma OtherKeeps(v: View, m: Marks, c: Call, id: Id)
    requires RelationAgrees(v, m, id) && !c.req.RelationCreate? && !c.req.RelationDissolve?
    ensures RelationAgrees(Step(v, c).0, Mark(v, m, c), id) && Step(v, c).0.rels == v.rels
  {
    hide FoldRelations, Step;
    var ev := StepLogs(v, c);
    FoldRelationsAppend(v.log, ev);
  }

  lemma StepKeeps(v: View, m: Marks, c: Call, last: Id)
    requires RelationsCoherent(v, m, last) && last < c.id1 < c.id2
    ensures RelationsCoherent(Step(v, c).0, Mark(v, m, c), c.id2)
  {
    hide FoldRelations, DefinitionData, DefinitionAuthor, Validate, DefinedType, ReplayedRelation;
    forall id ensures RelationAgrees(Step(v, c).0, Mark(v, m, c), id) {
      assert RelationAgrees(v, m, id);
      if c.req.RelationCreate? { RelateKeeps(v, m, c, last, id); }
      else if c.req.RelationDissolve? { DissolveKeeps(v, m, c, last, id); }
      else { OtherKeeps(v, m, c, id); }
    }
    if !c.req.RelationCreate? && !c.req.RelationDissolve? { OtherKeeps(v, m, c, c.id1); }
  }

  lemma {:induction false} RunKeeps(v: View, calls: seq<Call>)
    requires v.log == [] && v.rels == map[] && Clocked(calls, NO_ID)
    ensures RelationsCoherent(Exec(v, calls), MarksOf(v, calls), LastId(calls, NO_ID))
  {
    hide Step, Mark;
    if calls != [] {
      var before, c := calls[..|calls| - 1], calls[|calls| - 1];
      RunKeeps(v, before);
      StepKeeps(Exec(v, before), MarksOf(v, before), c, LastId(before, NO_ID));
    }
  }
}
