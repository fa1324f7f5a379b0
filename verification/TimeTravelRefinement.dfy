/** Time travel answers what the live query would have answered at the time. */
module TimeTravelRefinement {
  import opened Types
  import opened Requests
  import opened EventLog
  import opened Ranking
  import opened Queries
  import opened Shared
  import opened Isolation
  import opened Replay
  import opened Cache
  import Private
  import RelationReplay

  // ---- the log as of a time ----

  lemma {:induction false} BetweenAll(log: seq<Event>, asOf: Time)
    requires forall i :: 0 <= i < |log| ==> asOf == ZERO_TIME || log[i].timestamp <= asOf
    ensures Between(log, ZERO_TIME, asOf) == log
  {
    if log != [] {
      var init, last := log[..|log| - 1], log[|log| - 1];
      BetweenAll(init, asOf);
      BetweenLast(log, asOf);
      hide Between;
      assert log == init + [last];
    }
  }

  lemma BetweenLast(log: seq<Event>, asOf: Time)
    requires log != [] && (asOf == ZERO_TIME || log[|log| - 1].timestamp <= asOf)
    ensures Between(log, ZERO_TIME, asOf) == Between(log[..|log| - 1], ZERO_TIME, asOf) + [log[|log| - 1]]
  {
  }

  lemma BetweenAppend(log: seq<Event>, ev: Event, asOf: Time)
    requires asOf != ZERO_TIME && ev.timestamp > asOf
    ensures Between(log + [ev], ZERO_TIME, asOf) == Between(log, ZERO_TIME, asOf)
  {
    assert (log + [ev])[..|log|] == log;
  }

  /** Calls made after `asOf` add nothing to the log as of `asOf`. */
  lemma {:induction false} LaterCallsAreInvisible(v: Private.View, before: seq<Call>, after: seq<Call>, asOf: Time)
    requires after != [] ==> asOf != ZERO_TIME
    requires forall i :: 0 <= i < |after| ==> after[i].now > asOf
    ensures Between(Private.Exec(v, before + after).log, ZERO_TIME, asOf) == Between(Private.Exec(v, before).log, ZERO_TIME, asOf)
  {
    hide Private.Step, Between;
    if after == [] {
      assert before + after == before;
    } else {
      var c := after[|after| - 1];
      var calls := before + after;
      assert calls[..|calls| - 1] == before + after[..|after| - 1];
      LaterCallsAreInvisible(v, before, after[..|after| - 1], asOf);
      var u := Private.Exec(v, before + after[..|after| - 1]);
      var ev := Private.StepLogs(u, c);
      BetweenAppend(u.log, ev, asOf);
    }
  }

  lemma {:induction false} CallsToConcat(before: seq<Call>, after: seq<Call>, peer: Did)
    ensures CallsTo(before + after, peer) == CallsTo(before, peer) + CallsTo(after, peer)
  {
    if after == [] {
      assert before + after == before;
    } else {
      CallsToConcat(before, after[..|after| - 1], peer);
      assert (before + after)[..|before + after| - 1] == before + after[..|after| - 1];
    }
  }

  // ---- selecting replayed entities and selecting rows ----

  /** No filter looks at an array or object of a row of `peer`. */
  ghost predicate ScalarFields(rows: map<Id, Entity>, peer: Did, q: EntityQuery) {
    forall id, k :: id in rows && rows[id].peer == peer && k in q.filters && k in DataOr(rows[id].data)
      ==> DataOr(rows[id].data)[k].Scalar()
  }

  /** On scalars the two filter tests agree: SQL's comparison with a text, and equality of
      JSON texts. */
  lemma FiltersAgree(data: Data, filters: map<string, string>, jsonText: Json -> string)
    requires forall k :: k in filters && k in data ==> data[k].Scalar()
    ensures LiveMatches(data, filters, jsonText) <==> FoldMatches(data, filters)
  {
  }

  /** Rows predicted exactly by the replay of `log`, but for the stale ones. */
  ghost predicate CachesBut(rows: map<Id, Entity>, log: seq<Event>, defs: set<Id>, stale: set<Id>) {
    && (forall id :: id in Fold(log) && id !in stale ==> id in rows && rows[id] == Replayed(Fold(log)[id], ArchivedLast(log, id)))
    && (forall id :: id in rows && id !in stale ==> (id !in Fold(log) <==> id in defs))
  }

  /** The ids that a failed row write left behind the log. */
  function Stale(m: Marks): set<Id> {
    m.staleData + m.staleArchive
  }

  lemma AgreementCachesBut(v: Private.View, m: Marks, peer: Did, last: Id, now: Time)
    requires Coherent(v, m, peer, last, now)
    ensures CachesBut(v.rows, v.log, m.definitions, Stale(m))
  {
    hide Fold, LastEffective;
    forall id | id in Fold(v.log) && id !in Stale(m)
      ensures id in v.rows && v.rows[id] == Replayed(Fold(v.log)[id], ArchivedLast(v.log, id))
    {
      assert Agrees(v, m, id);
      assert ProperRow(v, id, peer);
    }
    forall id | id in v.rows && id !in Stale(m) ensures id !in Fold(v.log) <==> id in m.definitions {
      assert Agrees(v, m, id);
    }
  }

  /** Neither the replay nor the table selects a stale entity. */
  ghost predicate Spares(rows: map<Id, Entity>, log: seq<Event>, stale: set<Id>, peer: Did, q: EntityQuery, jsonText: Json -> string) {
    forall id :: id in stale ==> id !in FoldRows(Fold(log), peer, q) && id !in LiveRows(rows, peer, q, jsonText)
  }

  lemma SelectionsAgree(rows: map<Id, Entity>, log: seq<Event>, defs: set<Id>, stale: set<Id>, peer: Did, q: EntityQuery, jsonText: Json -> string)
    requires CachesBut(RowsOf(rows, peer), log, defs, stale) && peer != "" && ScalarFields(rows, peer, q)
    requires Spares(rows, log, stale, peer, q, jsonText)
    ensures FoldRows(Fold(log), peer, q).Keys == LiveRows(rows, peer, q, jsonText).Keys - defs
    ensures forall id :: id in FoldRows(Fold(log), peer, q) ==>
      rows[id] == Replayed(FoldRows(Fold(log), peer, q)[id], ArchivedLast(log, id))
  {
    hide Fold, LastEffective, LiveMatches, FoldMatches;
    var f, mine := Fold(log), RowsOf(rows, peer);
    forall id | id in f && id !in stale
      ensures id in mine && Claim(f[id], peer) == f[id] && (FoldSelects(f[id], peer, q) <==> LiveSelects(rows[id], peer, q, jsonText))
    {
      assert mine[id] == Replayed(f[id], ArchivedLast(log, id));
      FiltersAgree(DataOr(rows[id].data), q.filters, jsonText);
    }
    forall id | id in mine && id !in stale ensures id in f <==> id !in defs {
    }
  }

  /** The listing `tt` shows the same rows as `live`: every row is the one its replayed
      entity predicts, which differs at most in the update time of an archived entity and
      in a nil data map read back as empty. */
  ghost predicate SameListing(tt: seq<Entity>, live: seq<Entity>, log: seq<Event>) {
    && |tt| == |live|
    && forall i :: 0 <= i < |tt| ==> live[i] == Replayed(tt[i], ArchivedLast(log, tt[i].id))
  }

  /** Listing a part of a table: the truncated listings name the same ids exactly when
      the whole table's one names none outside the part. */
  lemma PartListing(part: map<Id, Entity>, whole: map<Id, Entity>, limit: int)
    requires part.Keys <= whole.Keys && forall id :: id in part ==> part[id].createdAt == whole[id].createdAt
    ensures NewestIds(part, limit) == NewestIds(whole, limit)
       <==> forall id :: id in NewestIds(whole, limit) ==> id in part
  {
    hide Rank, Keep, Take;
    assert Created(part) == Part(Created(whole), part.Keys);
    RankOfPart(Created(whole), part.Keys);
    TakeKeep(Rank(Created(whole)), part.Keys, EffectiveLimit(limit));
  }

  lemma LookupIds(rows: map<Id, Entity>, ids: seq<Id>, i: nat)
    requires (forall x :: x in ids ==> x in rows) && i < |ids|
    ensures ids[i] in rows && Lookup(rows, ids)[i] == rows[ids[i]]
  {
    assert ids[i] in ids;
  }

  lemma ListingsAgree(rows: map<Id, Entity>, log: seq<Event>, defs: set<Id>, stale: set<Id>, peer: Did, q: EntityQuery, jsonText: Json -> string)
    requires CachesBut(RowsOf(rows, peer), log, defs, stale) && peer != "" && ScalarFields(rows, peer, q)
    requires Spares(rows, log, stale, peer, q, jsonText)
    requires forall id :: id in rows ==> rows[id].id == id
    ensures SameListing(Newest(FoldRows(Fold(log), peer, q), q.limit), QueryEntities(rows, peer, q, jsonText), log)
       <==> forall id :: id in NewestIds(LiveRows(rows, peer, q, jsonText), q.limit) ==> id !in defs
  {
    hide Fold, LastEffective, FoldRows, NewestIds, CachesBut, Lookup, Spares;
    SelectionsAgree(rows, log, defs, stale, peer, q, jsonText);
    var live, replayed := LiveRows(rows, peer, q, jsonText), FoldRows(Fold(log), peer, q);
    PartListing(replayed, live, q.limit);
    var ids, all := NewestIds(replayed, q.limit), NewestIds(live, q.limit);
    var tt, now := Lookup(replayed, ids), Lookup(live, all);
    LookupLength(replayed, ids);
    LookupLength(live, all);
    forall i | 0 <= i < |ids| ensures ids[i] in rows && tt[i].id == ids[i] && rows[ids[i]] == Replayed(tt[i], ArchivedLast(log, ids[i])) {
      LookupIds(replayed, ids, i);
      assert ids[i] in replayed.Keys;
    }
    forall i | 0 <= i < |all| ensures all[i] in rows && now[i] == rows[all[i]] && now[i].id == all[i] {
      LookupIds(live, all, i);
    }
    if SameListing(tt, now, log) {
      forall i | 0 <= i < |ids| ensures ids[i] == all[i] {
        assert now[i] == Replayed(tt[i], ArchivedLast(log, tt[i].id));
      }
      assert ids == all;
    }
  }

  lemma LookupLength(rows: map<Id, Entity>, ids: seq<Id>)
    requires forall x :: x in ids ==> x in rows
    ensures |Lookup(rows, ids)| == |ids|
  {
  }

  /** The events time travel to `asOf` replays are the peer's whole log at that time. */
  lemma LogAsOf(w: World, before: seq<Call>, after: seq<Call>, peer: Did, asOf: Time)
    requires Fresh(w) && Clocked(before + after, NO_ID) && Addressed(before + after) && peer != ""
    requires after != [] ==> asOf != ZERO_TIME
    requires forall i :: 0 <= i < |before| ==> asOf == ZERO_TIME || before[i].now <= asOf
    requires forall i :: 0 <= i < |after| ==> after[i].now > asOf
    ensures ListEvents(Exec(w, before + after).log, peer, ZERO_TIME, asOf) == OfPeer(Exec(w, before).log, peer)
  {
    hide Step, Private.Step, Coherent, RelationReplay.RelationsCoherent, Mark;
    assert (before + after)[..|before|] == before;
    ClockedPrefix(before + after, |before|);
    RunsAgree(w, before, peer);
    RunRefines(w, before + after, peer, NO_ID);
    CallsToConcat(before, after, peer);
    var v, early, late := ViewOf(w, peer), CallsTo(before, peer), CallsTo(after, peer);
    CallsToMembers(after, peer);
    forall i | 0 <= i < |late| ensures late[i].now > asOf { assert late[i] in late; }
    LaterCallsAreInvisible(v, early, late, asOf);
    var log := Private.Exec(v, early).log;
    TimesWithin(w, before, peer, asOf);
    BetweenAll(log, asOf);
    SortEventsStable(log);
  }

  lemma TimesWithin(w: World, before: seq<Call>, peer: Did, asOf: Time)
    requires Fresh(w) && Clocked(before, NO_ID) && Addressed(before) && peer != ""
    requires forall i :: 0 <= i < |before| ==> asOf == ZERO_TIME || before[i].now <= asOf
    ensures var log := Private.Exec(ViewOf(w, peer), CallsTo(before, peer)).log;
      SortedEvents(log) && forall i :: 0 <= i < |log| ==> asOf == ZERO_TIME || log[i].timestamp <= asOf
  {
    hide Step, Private.Step, RelationReplay.RelationsCoherent, Mark, Agrees;
    RunsAgree(w, before, peer);
    var early := CallsTo(before, peer);
    CallsToMembers(before, peer);
    if early != [] { assert early[|early| - 1] in early; }
  }

  /** After `before`, no entity that a failed row write left behind the log is selected. */
  ghost predicate SparesStale(w: World, before: seq<Call>, peer: Did, q: EntityQuery) {
    var u := Exec(w, before);
    Spares(u.rows, OfPeer(u.log, peer), Stale(PeerMarks(w, before, peer)), peer, q, w.jsonText)
  }

  /** In particular none is when no write failed. */
  lemma ReliableSpares(w: World, before: seq<Call>, peer: Did, q: EntityQuery)
    requires Fresh(w) && Clocked(before, NO_ID) && Addressed(before) && peer != "" && Reliable(before)
    ensures SparesStale(w, before, peer, q)
  {
    CallsToClocked(before, peer, NO_ID);
    CallsToTarget(before, peer);
    CallsToReliable(before, peer);
    ReliableMarks(ViewOf(w, peer), CallsTo(before, peer), peer);
    hide Fold, FoldRows, LiveRows, Exec;
  }

  /** Time travel to `asOf` refines the live query, whatever storage failures there were before: where it selects no stale
      entity, it lists what the live query listed just before the first call made after `asOf`, exactly when that listing
      shows no type definition that was never updated. */
  lemma TimeTravelRefinesQuery(w: World, before: seq<Call>, after: seq<Call>, peer: Did, q: EntityQuery, asOf: Time)
    requires Fresh(w) && Clocked(before + after, NO_ID) && Addressed(before + after) && peer != ""
    requires after != [] ==> asOf != ZERO_TIME
    requires forall i :: 0 <= i < |before| ==> asOf == ZERO_TIME || before[i].now <= asOf
    requires forall i :: 0 <= i < |after| ==> after[i].now > asOf
    requires ScalarFields(Exec(w, before).rows, peer, q) && SparesStale(w, before, peer, q)
    ensures var u := Exec(w, before);
      SameListing(TimeTravel(Exec(w, before + after).log, peer, q, asOf), QueryEntities(u.rows, peer, q, w.jsonText), OfPeer(u.log, peer))
      <==> (forall id :: id in NewestIds(LiveRows(u.rows, peer, q, w.jsonText), q.limit) ==> id !in PeerMarks(w, before, peer).definitions)
  {
    hide Fold, CachesBut, Step, Private.Step, Coherent, RelationReplay.RelationsCoherent, Spares;
    var u, m := Exec(w, before), PeerMarks(w, before, peer);
    assert (before + after)[..|before|] == before;
    ClockedPrefix(before + after, |before|);
    RunsAgree(w, before, peer);
    AgreementCachesBut(ViewOf(u, peer), m, peer, LastId(CallsTo(before, peer), NO_ID), LastTime(CallsTo(before, peer)));
    RunRefines(w, before, peer, NO_ID);
    LogAsOf(w, before, after, peer, asOf);
    ListingsAgree(u.rows, OfPeer(u.log, peer), m.definitions, Stale(m), peer, q, w.jsonText);
  }

  lemma OfType(rows: map<Id, Entity>, peer: Did, q: EntityQuery, jsonText: Json -> string, id: Id)
    requires id in NewestIds(LiveRows(rows, peer, q, jsonText), q.limit) && q.etype != ""
    ensures id in RowsOf(rows, peer) && RowsOf(rows, peer)[id].etype == q.etype
  {
  }

  lemma MarkedAreDefinitions(v: Private.View, m: Marks, id: Id)
    requires Agrees(v, m, id) && id in m.definitions
    ensures id in v.rows ==> v.rows[id].etype == DefinitionType(EntityKind) || v.rows[id].etype == DefinitionType(RelationKind)
  {
    hide Fold, LastEffective;
  }

  /** So for any type but the two definition types, time travel and the live query agree for every filter over scalars,
      every limit and either archive setting. */
  lemma TimeTravelByType(w: World, before: seq<Call>, after: seq<Call>, peer: Did, q: EntityQuery, asOf: Time)
    requires Fresh(w) && Clocked(before + after, NO_ID) && Addressed(before + after) && peer != ""
    requires after != [] ==> asOf != ZERO_TIME
    requires forall i :: 0 <= i < |before| ==> asOf == ZERO_TIME || before[i].now <= asOf
    requires forall i :: 0 <= i < |after| ==> after[i].now > asOf
    requires ScalarFields(Exec(w, before).rows, peer, q) && SparesStale(w, before, peer, q)
    requires q.etype != "" && q.etype != DefinitionType(EntityKind) && q.etype != DefinitionType(RelationKind)
    ensures var u := Exec(w, before);
      SameListing(TimeTravel(Exec(w, before + after).log, peer, q, asOf), QueryEntities(u.rows, peer, q, w.jsonText), OfPeer(u.log, peer))
  {
    hide Step, Private.Step, SameListing, TimeTravel, QueryEntities, WellFormed, SparesStale, ScalarFields, Agrees,
      RelationReplay.RelationsCoherent, NewestIds, Exec, MarksOf;
    TimeTravelRefinesQuery(w, before, after, peer, q, asOf);
    assert (before + after)[..|before|] == before;
    ClockedPrefix(before + after, |before|);
    RunsAgree(w, before, peer);
    var u, m := Exec(w, before), PeerMarks(w, before, peer);
    forall id | id in NewestIds(LiveRows(u.rows, peer, q, w.jsonText), q.limit) ensures id !in m.definitions {
      OfType(u.rows, peer, q, w.jsonText, id);
      assert Agrees(ViewOf(u, peer), m, id);
      if id in m.definitions { MarkedAreDefinitions(ViewOf(u, peer), m, id); }
    }
  }
}
