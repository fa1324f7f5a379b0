/** Type definitions over runs with restarts: which definitions the tables hold, and which the resolver does. */
module Rehydration {
  import opened Types
  import opened Sequences
  import opened Ranking
  import opened Queries
  import opened Definitions
  import opened Requests
  import Replay
  import Private

  // ---- the definitions a run leaves in the tables ----

  /** The call defines a type of the kind, for a peer that is served or being seeded: the resolver learns of it. */
  ghost predicate Heard(v: Private.View, c: Call, k: Kind) {
    Defines(c) && c.req.kind == k && (v.registered || c.req.SeedType?)
  }

  /** And its row is written. */
  ghost predicate Kept(v: Private.View, c: Call, k: Kind) {
    Heard(v, c, k) && c.fault.Works?
  }

  /** The calls of a run that write a definition row, in order. */
  ghost function Definers(v: Private.View, calls: seq<Call>, k: Kind): (ds: seq<Call>)
    ensures forall i :: 0 <= i < |ds| ==> Defines(ds[i]) && ds[i].req.kind == k
  {
    if calls == [] then []
    else
      var before, c := calls[..|calls| - 1], calls[|calls| - 1];
      Definers(v, before, k) + if Kept(Private.Exec(v, before), c, k) then [c] else []
  }

  /** Definition rows are written by definitions alone: no entity is created with their type, and no update or archive
      names one of them. */
  ghost predicate Undisturbed(v: Private.View, calls: seq<Call>, k: Kind) {
    forall i :: 0 <= i < |calls| ==> Respects(calls[i], Definers(v, calls[..i], k), k)
  }

  ghost predicate Respects(c: Call, ds: seq<Call>, k: Kind)
    requires forall i :: 0 <= i < |ds| ==> Defines(ds[i])
  {
    && (c.req.EntityCreate? ==> c.req.etype != DefinitionType(k))
    && (c.req.EntityUpdate? || c.req.EntityArchive? ==> forall i :: 0 <= i < |ds| ==> DefinitionId(ds[i]) != c.req.id)
  }

  /** The definition rows of a table are those that the calls `ds` write. */
  ghost predicate Mirrors(rows: map<Id, Entity>, ds: seq<Call>, k: Kind)
    requires forall i :: 0 <= i < |ds| ==> Defines(ds[i])
  {
    && (forall i :: 0 <= i < |ds| ==> DefinitionId(ds[i]) in rows && rows[DefinitionId(ds[i])] == DefinitionEntity(ds[i]))
    && (forall id :: id in rows && rows[id].etype == DefinitionType(k) ==> exists i :: 0 <= i < |ds| && DefinitionId(ds[i]) == id)
  }

  predicate AllDefine(ds: seq<Call>, k: Kind) {
    forall i :: 0 <= i < |ds| ==> Defines(ds[i]) && ds[i].req.kind == k
  }

  /** From `rows` to `more` at most row `id` changes, to a row of the type it had or of type `etype`. */
  ghost predicate OnlyRow(rows: map<Id, Entity>, more: map<Id, Entity>, id: Id, etype: string) {
    && (forall x :: x != id ==> (x in more <==> x in rows) && (x in rows ==> more[x] == rows[x]))
    && (id in more ==> (id in rows && more[id].etype == rows[id].etype) || more[id].etype == etype)
  }

  lemma OtherRowMirrors(rows: map<Id, Entity>, more: map<Id, Entity>, ds: seq<Call>, k: Kind, id: Id, etype: string)
    requires AllDefine(ds, k) && Mirrors(rows, ds, k) && OnlyRow(rows, more, id, etype)
    requires forall i :: 0 <= i < |ds| ==> DefinitionId(ds[i]) != id
    requires etype != DefinitionType(k)
    ensures Mirrors(more, ds, k)
  {
    hide DefinitionEntity, DefinitionId;
    assert id in rows ==> rows[id].etype != DefinitionType(k);
  }

  lemma NewRowMirrors(rows: map<Id, Entity>, ds: seq<Call>, c: Call, k: Kind)
    requires AllDefine(ds, k) && Mirrors(rows, ds, k) && Defines(c) && c.req.kind == k
    requires forall i :: 0 <= i < |ds| ==> DefinitionId(ds[i]) != DefinitionId(c)
    ensures Mirrors(rows[DefinitionId(c) := DefinitionEntity(c)], ds + [c], k)
  {
    hide DefinitionEntity, DefinitionId;
    var more, all := rows[DefinitionId(c) := DefinitionEntity(c)], ds + [c];
    assert all[|ds|] == c;
    forall id | id in more && more[id].etype == DefinitionType(k) ensures exists i :: 0 <= i < |all| && DefinitionId(all[i]) == id {
      if id != DefinitionId(c) {
        var i :| 0 <= i < |ds| && DefinitionId(ds[i]) == id;
        assert all[i] == ds[i];
      }
    }
  }

  // ---- what one call does to the definition rows ----

  /** The row a call may write, and its type if it is a new one. */
  function Written(c: Call): Id {
    if Defines(c) then DefinitionId(c)
    else if c.req.EntityUpdate? || c.req.EntityArchive? then c.req.id
    else c.id1
  }

  function WrittenType(c: Call): string {
    if c.req.EntityCreate? then c.req.etype else if Defines(c) then DefinitionType(c.req.kind) else ""
  }

  lemma DefineWrites(v: Private.View, c: Call)
    requires Defines(c)
    ensures Private.Define(v, c).0.rows == if c.fault.Works? then v.rows[DefinitionId(c) := DefinitionEntity(c)] else v.rows
  {
    hide DefinitionEntity, DefinitionEvent, DefinedType, DefinitionId;
    DefinitionRow(c);
  }

  lemma OtherDefineWrites(v: Private.View, c: Call, k: Kind)
    requires Defines(c) && !(c.req.kind == k && c.fault.Works?)
    ensures OnlyRow(v.rows, Private.Define(v, c).0.rows, Written(c), if c.req.kind == k then "" else WrittenType(c))
  {
    hide DefinitionEntity, Private.Define;
    DefineWrites(v, c);
    DefinitionRow(c);
  }

  lemma CreateWrites(v: Private.View, c: Call)
    requires c.req.EntityCreate?
    ensures OnlyRow(v.rows, Private.Create(v, c).0.rows, Written(c), WrittenType(c))
  {
    hide Validate;
  }

  lemma UpdateWrites(v: Private.View, c: Call)
    requires c.req.EntityUpdate?
    ensures OnlyRow(v.rows, Private.Update(v, c).0.rows, Written(c), WrittenType(c))
  {
  }

  lemma ArchiveWrites(v: Private.View, c: Call)
    requires c.req.EntityArchive?
    ensures OnlyRow(v.rows, Private.Archive(v, c).0.rows, Written(c), WrittenType(c))
  {
  }

  lemma UnchangedRow(rows: map<Id, Entity>, id: Id, etype: string)
    ensures OnlyRow(rows, rows, id, etype)
  {
  }

  lemma RelationOpsWrite(v: Private.View, c: Call)
    ensures c.req.RelationCreate? ==> Private.Relate(v, c).0.rows == v.rows
    ensures c.req.RelationDissolve? ==> Private.Dissolve(v, c).0.rows == v.rows
  {
    hide CreatedRelation, RelationEvent, DissolveEvent;
  }

  lemma OtherStepWrites(v: Private.View, c: Call, k: Kind)
    requires !Kept(v, c, k)
    ensures OnlyRow(v.rows, Private.Step(v, c).0.rows, Written(c), if Defines(c) && c.req.kind == k then "" else WrittenType(c))
  {
    hide DefinitionEntity, Private.Read, Private.Create, Private.Update, Private.Archive, Private.Relate, Private.Dissolve, Private.Define,
      Written, WrittenType;
    RelationOpsWrite(v, c);
    UnchangedRow(v.rows, Written(c), if Defines(c) && c.req.kind == k then "" else WrittenType(c));
    hide OnlyRow;
    if c.req.Reopen? || c.req.Join? || !(v.registered || c.req.SeedType?) {
    } else if Defines(c) {
      OtherDefineWrites(v, c, k);
    } else if c.req.EntityCreate? {
      CreateWrites(v, c);
    } else if c.req.EntityUpdate? {
      UpdateWrites(v, c);
    } else if c.req.EntityArchive? {
      ArchiveWrites(v, c);
    }
  }

  lemma KeptStepWrites(v: Private.View, c: Call, k: Kind)
    requires Kept(v, c, k)
    ensures Private.Step(v, c).0.rows == v.rows[DefinitionId(c) := DefinitionEntity(c)]
  {
    hide DefinitionEntity, Private.Define;
    DefineWrites(v, c);
  }

  lemma StepMirrors(v: Private.View, ds: seq<Call>, c: Call, k: Kind, last: Id)
    requires AllDefine(ds, k) && Mirrors(v.rows, ds, k) && Respects(c, ds, k)
    requires last < c.id1 < c.id2 && forall i :: 0 <= i < |ds| ==> DefinitionId(ds[i]) <= last
    ensures Mirrors(Private.Step(v, c).0.rows, ds + if Kept(v, c, k) then [c] else [], k)
  {
    hide DefinitionEntity, Private.Step, Mirrors;
    if Kept(v, c, k) {
      KeptStepWrites(v, c, k);
      NewRowMirrors(v.rows, ds, c, k);
    } else {
      OtherStepWrites(v, c, k);
      assert ds + [] == ds;
      OtherRowMirrors(v.rows, Private.Step(v, c).0.rows, ds, k, Written(c), if Defines(c) && c.req.kind == k then "" else WrittenType(c));
    }
  }

  // ---- runs ----

  predicate Ordered(calls: seq<Call>) {
    (forall i :: 0 <= i < |calls| ==> calls[i].id1 < calls[i].id2) &&
    forall i, j :: 0 <= i < j < |calls| ==> calls[i].now <= calls[j].now && calls[i].id2 < calls[j].id1
  }

  lemma ClockedIsOrdered(calls: seq<Call>)
    requires Clocked(calls, NO_ID)
    ensures Ordered(calls)
  {
  }

  lemma FirstClocked(calls: seq<Call>)
    requires calls != [] && Clocked(calls, NO_ID)
    ensures var before, c := calls[..|calls| - 1], calls[|calls| - 1];
      Clocked(before, NO_ID) && LastId(before, NO_ID) < c.id1 < c.id2
  {
  }

  lemma FirstUndisturbed(v: Private.View, calls: seq<Call>, k: Kind)
    requires calls != [] && Undisturbed(v, calls, k)
    ensures Undisturbed(v, calls[..|calls| - 1], k) && Respects(calls[|calls| - 1], Definers(v, calls[..|calls| - 1], k), k)
  {
    hide Respects, Definers;
    var before := calls[..|calls| - 1];
    forall i | 0 <= i < |before| ensures Respects(before[i], Definers(v, before[..i], k), k) {
      assert before[..i] == calls[..i];
    }
  }

  lemma {:induction false} DefinersMembers(v: Private.View, calls: seq<Call>, k: Kind)
    ensures forall d :: d in Definers(v, calls, k) ==> d in calls
  {
    hide Kept;
    if calls != [] { DefinersMembers(v, calls[..|calls| - 1], k); }
  }

  lemma {:induction false} DefinersOrdered(v: Private.View, calls: seq<Call>, k: Kind)
    requires Ordered(calls)
    ensures Ordered(Definers(v, calls, k))
  {
    hide Kept, Private.Exec, Defines;
    if calls != [] {
      var before, c := calls[..|calls| - 1], calls[|calls| - 1];
      DefinersOrdered(v, before, k);
      DefinersMembers(v, before, k);
      var ds := Definers(v, before, k);
      forall i | 0 <= i < |ds| ensures ds[i].now <= c.now && ds[i].id2 < c.id1 && ds[i].id1 < ds[i].id2 {
        assert ds[i] in before;
      }
    }
  }

  lemma DefinersEarlier(v: Private.View, calls: seq<Call>, k: Kind)
    requires Clocked(calls, NO_ID)
    ensures var ds := Definers(v, calls, k);
      AllDefine(ds, k) && forall i :: 0 <= i < |ds| ==> DefinitionId(ds[i]) <= LastId(calls, NO_ID)
  {
    hide Definers;
    DefinersMembers(v, calls, k);
    var ds := Definers(v, calls, k);
    forall i | 0 <= i < |ds| ensures DefinitionId(ds[i]) <= LastId(calls, NO_ID) {
      assert ds[i] in calls;
      var j :| 0 <= j < |calls| && calls[j] == ds[i];
    }
  }

  lemma NothingMirrored(k: Kind)
    ensures Mirrors(map[], [], k)
  {
  }

  /** From an empty table, with peers joining, storage failing and any number of restarts, the definition rows are those
      of the run's stored definitions. */
  lemma {:induction false} RunMirrors(v: Private.View, calls: seq<Call>, k: Kind)
    requires v.rows == map[] && Clocked(calls, NO_ID) && Undisturbed(v, calls, k)
    ensures Mirrors(Private.Exec(v, calls).rows, Definers(v, calls, k), k)
  {
    hide Private.Step, Respects, Mirrors, Undisturbed, Clocked, Kept;
    if calls == [] {
      NothingMirrored(k);
    } else {
      var before, c := calls[..|calls| - 1], calls[|calls| - 1];
      FirstClocked(calls);
      FirstUndisturbed(v, calls, k);
      RunMirrors(v, before, k);
      DefinersEarlier(v, before, k);
      StepMirrors(Private.Exec(v, before), Definers(v, before, k), c, k, LastId(before, NO_ID));
    }
  }

  // ---- the listing of a run's definitions ----

  function DefinitionIds(ds: seq<Call>): (ids: seq<Id>)
    requires forall i :: 0 <= i < |ds| ==> Defines(ds[i])
    ensures |ids| == |ds|
  {
    seq(|ds|, i requires 0 <= i < |ds| => DefinitionId(ds[i]))
  }

  /** The definition a call stores, as it reads back. */
  function StoredDef(c: Call): TypeDef
    requires Defines(c)
  {
    AsStored(c.req.kind, c.target, DefinedType(c))
  }

  function StoredDefs(ds: seq<Call>): (defs: seq<TypeDef>)
    requires forall i :: 0 <= i < |ds| ==> Defines(ds[i])
    ensures |defs| == |ds|
  {
    seq(|ds|, i requires 0 <= i < |ds| => StoredDef(ds[i]))
  }

  lemma ListedIds(rows: map<Id, Entity>, ds: seq<Call>, peer: Did, k: Kind, jsonText: Json -> string)
    requires AllDefine(ds, k) && Mirrors(rows, ds, k) && forall id :: id in rows ==> rows[id].peer == peer
    ensures forall i :: 0 <= i < |ds| ==> DefinitionId(ds[i]) in LiveRows(rows, peer, DefinitionQuery(k), jsonText)
    ensures forall id :: id in LiveRows(rows, peer, DefinitionQuery(k), jsonText) ==>
      id in rows && LiveRows(rows, peer, DefinitionQuery(k), jsonText)[id] == rows[id] && exists i :: 0 <= i < |ds| && DefinitionId(ds[i]) == id
  {
    hide DefinitionEntity, DefinitionId;
    forall i | 0 <= i < |ds| ensures DefinitionId(ds[i]) in LiveRows(rows, peer, DefinitionQuery(k), jsonText) {
      DefinitionRow(ds[i]);
    }
  }

  lemma ReversedIds(ds: seq<Call>, id: Id)
    requires forall i :: 0 <= i < |ds| ==> Defines(ds[i])
    ensures id in Reversed(DefinitionIds(ds)) <==> exists i :: 0 <= i < |ds| && DefinitionId(ds[i]) == id
  {
    hide DefinitionId;
    var ids := Reversed(DefinitionIds(ds));
    if id in ids {
      var i :| 0 <= i < |ids| && ids[i] == id;
      assert DefinitionId(ds[|ds| - 1 - i]) == id;
    }
    if exists i :: 0 <= i < |ds| && DefinitionId(ds[i]) == id {
      var i :| 0 <= i < |ds| && DefinitionId(ds[i]) == id;
      assert ids[|ds| - 1 - i] == id;
    }
  }

  lemma ReversedRanked(ds: seq<Call>, created: map<Id, Time>)
    requires Ordered(ds) && forall i :: 0 <= i < |ds| ==> Defines(ds[i])
    requires forall i :: 0 <= i < |ds| ==> DefinitionId(ds[i]) in created && created[DefinitionId(ds[i])] == ds[i].now
    ensures Ranked(created, Reversed(DefinitionIds(ds)))
  {
    var n, ids := |ds|, Reversed(DefinitionIds(ds));
    forall i, j | 0 <= i < j < n ensures Above(created, ids[i], ids[j]) {
      assert ids[i] == DefinitionId(ds[n - 1 - i]) && ids[j] == DefinitionId(ds[n - 1 - j]);
    }
    forall i | 0 <= i < n ensures ids[i] in created {
      assert ids[i] == DefinitionId(ds[n - 1 - i]);
    }
  }

  /** Start-up lists the newest fifty stored definitions, latest first. */
  lemma ListingIsReversedRun(rows: map<Id, Entity>, ds: seq<Call>, peer: Did, k: Kind, jsonText: Json -> string)
    requires AllDefine(ds, k) && Mirrors(rows, ds, k) && Ordered(ds) && forall id :: id in rows ==> rows[id].peer == peer
    ensures var listed := Take(Reversed(ds), 50);
      var es := QueryEntities(rows, peer, DefinitionQuery(k), jsonText);
      |es| == |listed| && forall i :: 0 <= i < |es| ==> Defines(listed[i]) && es[i] == DefinitionEntity(listed[i])
  {
    var chosen := LiveRows(rows, peer, DefinitionQuery(k), jsonText);
    var ids := Reversed(DefinitionIds(ds));
    ListedIds(rows, ds, peer, k, jsonText);
    assert forall i :: 0 <= i < |ds| ==> rows[DefinitionId(ds[i])] == DefinitionEntity(ds[i]);
    hide DefinitionEntity, DefinitionId, Mirrors, LiveRows, DefinitionIds, Ordered;
    forall id ensures id in ids <==> id in chosen { ReversedIds(ds, id); }
    forall i | 0 <= i < |ds| ensures Created(chosen)[DefinitionId(ds[i])] == ds[i].now { DefinitionRow(ds[i]); }
    ReversedRanked(ds, Created(chosen));
    RankUnique(Created(chosen), ids, Rank(Created(chosen)));
    IdsListed(chosen, ds);
  }

  lemma IdsListed(chosen: map<Id, Entity>, ds: seq<Call>)
    requires forall i :: 0 <= i < |ds| ==> Defines(ds[i])
    requires Rank(Created(chosen)) == Reversed(DefinitionIds(ds))
    requires forall i :: 0 <= i < |ds| ==> DefinitionId(ds[i]) in chosen && chosen[DefinitionId(ds[i])] == DefinitionEntity(ds[i])
    ensures var es, listed := Newest(chosen, 0), Take(Reversed(ds), 50);
      |es| == |listed| && forall i :: 0 <= i < |es| ==> Defines(listed[i]) && es[i] == DefinitionEntity(listed[i])
  {
    hide DefinitionEntity, Rank, Ranked;
    var es, listed, ids := Newest(chosen, 0), Take(Reversed(ds), 50), NewestIds(chosen, 0);
    forall i | 0 <= i < |es| ensures Defines(listed[i]) && es[i] == DefinitionEntity(listed[i]) {
      assert listed[i] == ds[|ds| - 1 - i];
      assert ids[i] == DefinitionId(ds[|ds| - 1 - i]);
    }
  }

  lemma DecodeStored(c: Call, e: Entity)
    requires Defines(c) && e == DefinitionEntity(c)
    ensures DecodeDefinition(c.req.kind, e) == Some(StoredDef(c))
  {
    hide DefinitionData, DefinedType;
    DefinitionRow(c);
    DefinitionRoundTrip(c.req.kind, DefinedType(c), e);
    hide DecodeDefinition, DefinitionEntity;
  }

  lemma {:induction false} DecodeRun(ds: seq<Call>, es: seq<Entity>, k: Kind)
    requires |es| == |ds| && AllDefine(ds, k)
    requires forall i :: 0 <= i < |ds| ==> es[i] == DefinitionEntity(ds[i])
    ensures Decoded(k, es) == StoredDefs(ds)
  {
    hide DefinitionEntity, StoredDef, DecodeDefinition, DefinitionData, DefinedType;
    if ds != [] {
      hide Decoded;
      var n := |ds| - 1;
      DecodeRun(ds[..n], es[..n], k);
      DecodeStored(ds[n], es[n]);
      DecodedNext(k, es, n);
      assert es[..n + 1] == es;
      assert StoredDefs(ds) == StoredDefs(ds[..n]) + [StoredDef(ds[n])];
    }
  }

  // ---- what a restart recalls, and what the resolver knows ----

  /** The newest fifty of a list in order of time. */
  function Latest(defs: seq<TypeDef>): (newest: seq<TypeDef>)
    ensures |newest| <= 50
  {
    if |defs| <= 50 then defs else defs[|defs| - 50..]
  }

  /** What a start makes of a name, given the stored definitions: the first of the newest fifty, or else the last seed. */
  function Recalled(defs: seq<TypeDef>, seeds: seq<TypeDef>, name: string): Option<TypeDef> {
    if FirstNamed(Latest(defs), name).Some? then FirstNamed(Latest(defs), name) else LastNamed(seeds, name)
  }

  function SeedsOf(s: Seeds, k: Kind): seq<TypeDef> {
    if k.EntityKind? then s.etypes else s.rtypes
  }

  function KindTypes(v: Private.View, k: Kind): map<string, TypeDef> {
    if k.EntityKind? then v.etypes else v.rtypes
  }

  /** What the resolver holds for a name: the last definition heard since the last start, stored or not, or else what
      that start recalled, which is nothing for a peer it did not serve. */
  ghost function Live(v: Private.View, calls: seq<Call>, k: Kind, name: string): Option<TypeDef> {
    if calls == [] then At(KindTypes(v, k), name)
    else
      var before, c := calls[..|calls| - 1], calls[|calls| - 1];
      if c.req.Reopen? then
        if v.peer in c.req.listed && "" !in c.req.listed then
          Recalled(StoredDefs(Definers(v, before, k)), SeedsOf(c.req.listed[v.peer], k), name)
        else None
      else if Heard(Private.Exec(v, before), c, k) && DefinedType(c).name == name then Some(DefinedType(c))
      else Live(v, before, k, name)
  }

  /** Listing the newest calls and then storing what they define, or the other way round. */
  lemma LatestStored(ds: seq<Call>)
    requires forall i :: 0 <= i < |ds| ==> Defines(ds[i])
    ensures var listed := Take(Reversed(ds), 50);
      (forall i :: 0 <= i < |listed| ==> Defines(listed[i])) && StoredDefs(listed) == Reversed(Latest(StoredDefs(ds)))
  {
    hide StoredDef;
    var listed := Take(Reversed(ds), 50);
    assert forall i :: 0 <= i < |listed| ==> listed[i] == ds[|ds| - 1 - i];
    assert forall i :: 0 <= i < |listed| ==> StoredDefs(listed)[i] == StoredDefs(ds)[|ds| - 1 - i];
  }

  lemma ListedDecode(ds: seq<Call>, es: seq<Entity>, k: Kind)
    requires AllDefine(ds, k)
    requires var listed := Take(Reversed(ds), 50);
      |es| == |listed| && forall i :: 0 <= i < |es| ==> Defines(listed[i]) && es[i] == DefinitionEntity(listed[i])
    ensures Decoded(k, es) == Reversed(Latest(StoredDefs(ds)))
  {
    hide DefinitionEntity, Decoded, StoredDef;
    var listed := Take(Reversed(ds), 50);
    forall i | 0 <= i < |listed| ensures Defines(listed[i]) && listed[i].req.kind == k && listed[i] == ds[|ds| - 1 - i] {
    }
    DecodeRun(listed, es, k);
    LatestStored(ds);
  }

  lemma RecalledFrom(es: seq<Entity>, ds: seq<Call>, k: Kind, seeds: seq<TypeDef>, name: string)
    requires AllDefine(ds, k) && Decoded(k, es) == Reversed(Latest(StoredDefs(ds)))
    ensures At(Registered(Registered(map[], seeds), Decoded(k, es)), name) == Recalled(StoredDefs(ds), seeds, name)
  {
    RegisteredAt(Registered(map[], seeds), Decoded(k, es), name);
    RegisteredAt(map[], seeds, name);
    LastOfReversed(Latest(StoredDefs(ds)), name);
  }

  lemma CoherentPeers(v: Private.View, m: Replay.Marks, peer: Did, last: Id, now: Time)
    requires Replay.Coherent(v, m, peer, last, now)
    ensures forall id :: id in v.rows ==> v.rows[id].peer == peer
  {
    hide Replay.Agrees;
  }

  /** After any run, a start recalls a name as the first among the newest fifty stored definitions that carry it, and
      otherwise as its seed. */
  lemma RunRecalls(v: Private.View, calls: seq<Call>, k: Kind, seeds: seq<TypeDef>, name: string)
    requires v.log == [] && v.rows == map[] && v.peer != ""
    requires Clocked(calls, NO_ID) && Undisturbed(v, calls, k) && forall i :: 0 <= i < |calls| ==> Concerns(calls[i], v.peer)
    ensures At(Rehydrated(Private.Exec(v, calls).rows, v.peer, k, seeds, v.jsonText), name)
         == Recalled(StoredDefs(Definers(v, calls, k)), seeds, name)
  {
    hide Private.Exec, Undisturbed, Clocked, Mirrors, Replay.Coherent, DefinitionEntity, Definers, Recalled, Decoded, QueryEntities,
      Registered, StoredDefs, Ordered;
    var u, ds := Private.Exec(v, calls), Definers(v, calls, k);
    RunMirrors(v, calls, k);
    Replay.RunCoherent(v, calls, v.peer);
    CoherentPeers(u, Replay.MarksOf(v, calls), v.peer, LastId(calls, NO_ID), LastTime(calls));
    ClockedIsOrdered(calls);
    DefinersOrdered(v, calls, k);
    assert AllDefine(ds, k);
    ListingIsReversedRun(u.rows, ds, v.peer, k, v.jsonText);
    var es := QueryEntities(u.rows, v.peer, DefinitionQuery(k), v.jsonText);
    ListedDecode(ds, es, k);
    RecalledFrom(es, ds, k, seeds, name);
  }

  lemma DefineTypes(v: Private.View, c: Call, k: Kind)
    requires Defines(c)
    ensures KindTypes(Private.Define(v, c).0, k) ==
      if c.req.kind == k then KindTypes(v, k)[DefinedType(c).name := DefinedType(c)] else KindTypes(v, k)
  {
    hide DefinitionData, DefinitionAuthor, DefinedType, DefinitionEntity, DefinitionEvent;
  }

  /** No other operation teaches the resolver anything. */
  lemma EntityOpTypes(v: Private.View, c: Call)
    ensures c.req.EntityCreate? ==> Private.Create(v, c).0.etypes == v.etypes && Private.Create(v, c).0.rtypes == v.rtypes
    ensures c.req.EntityUpdate? ==> Private.Update(v, c).0.etypes == v.etypes && Private.Update(v, c).0.rtypes == v.rtypes
    ensures c.req.EntityArchive? ==> Private.Archive(v, c).0.etypes == v.etypes && Private.Archive(v, c).0.rtypes == v.rtypes
  {
    hide Validated, CreatedEntity, CreateEvent, Merged, UpdateEvent, ArchiveEvent;
  }

  lemma RelationOpTypes(v: Private.View, c: Call)
    ensures c.req.RelationCreate? ==> Private.Relate(v, c).0.etypes == v.etypes && Private.Relate(v, c).0.rtypes == v.rtypes
    ensures c.req.RelationDissolve? ==> Private.Dissolve(v, c).0.etypes == v.etypes && Private.Dissolve(v, c).0.rtypes == v.rtypes
  {
    hide CreatedRelation, RelationEvent, DissolveEvent;
  }

  lemma StepTypes(v: Private.View, c: Call, k: Kind, name: string)
    requires !c.req.Reopen?
    ensures At(KindTypes(Private.Step(v, c).0, k), name) ==
      if Heard(v, c, k) && DefinedType(c).name == name then Some(DefinedType(c)) else At(KindTypes(v, k), name)
  {
    hide DefinitionEntity, DefinedType, Private.Read, Private.Define, Validate, Private.Create, Private.Update, Private.Archive, Private.Relate, Private.Dissolve;
    EntityOpTypes(v, c);
    RelationOpTypes(v, c);
    if Defines(c) {
      DefineTypes(v, c, k);
    }
  }

  lemma RestartTypes(v: Private.View, c: Call, k: Kind)
    requires c.req.Reopen?
    ensures KindTypes(Private.Step(v, c).0, k) ==
      if v.peer in c.req.listed && "" !in c.req.listed then Rehydrated(v.rows, v.peer, k, SeedsOf(c.req.listed[v.peer], k), v.jsonText)
      else map[]
  {
  }

  /** After any run, the resolver holds for each name what the run says. */
  lemma {:induction false} RunLive(v: Private.View, calls: seq<Call>, k: Kind, name: string)
    requires v.log == [] && v.rows == map[] && v.peer != ""
    requires Clocked(calls, NO_ID) && Undisturbed(v, calls, k) && forall i :: 0 <= i < |calls| ==> Concerns(calls[i], v.peer)
    ensures At(KindTypes(Private.Exec(v, calls), k), name) == Live(v, calls, k, name)
  {
    hide Private.Step, Undisturbed, Clocked, Definers, Recalled, StoredDefs, Rehydrated, KindTypes, DefinedType, Heard;
    if calls != [] {
      var before, c := calls[..|calls| - 1], calls[|calls| - 1];
      FirstClocked(calls);
      FirstUndisturbed(v, calls, k);
      assert forall i :: 0 <= i < |before| ==> before[i] == calls[i];
      RunLive(v, before, k, name);
      var u := Private.Exec(v, before);
      if c.req.Reopen? {
        Private.ExecKeeps(v, before);
        RestartTypes(u, c, k);
        if v.peer in c.req.listed && "" !in c.req.listed {
          RunRecalls(v, before, k, SeedsOf(c.req.listed[v.peer], k), name);
        }
      } else {
        StepTypes(u, c, k, name);
      }
    }
  }
}
