/** The SQLite store as an object: the event log and the two row tables, updated in place.
    SQL statements are modelled by what they do to the tables. */
module Store {
  import opened Types
  import opened EventLog
  import opened Ranking
  import opened Queries
  import opened Shared

  /** ORDER BY created_at DESC, id DESC, and the comparison sort of time travel: repeatedly
      move the top remaining id to the output. */
  method SortNewest(created: map<Id, Time>) returns (ids: seq<Id>)
    ensures ids == Rank(created)
  {
    ids := [];
    var rest := created;
    while rest != map[]
      invariant rest.Keys <= created.Keys && forall x :: x in rest ==> rest[x] == created[x]
      invariant Ranked(created, ids)
      invariant forall x :: x in ids <==> x in created && x !in rest
      invariant forall x, y :: x in ids && y in rest ==> Above(created, x, y)
      decreases |rest|
    {
      var top := Top(rest);
      var next := rest - {top};
      assert |next.Keys| < |rest.Keys| by { assert next.Keys == rest.Keys - {top}; }
      ids := ids + [top];
      rest := next;
    }
    RankUnique(created, ids, Rank(created));
  }

  method Top(created: map<Id, Time>) returns (top: Id)
    requires created != map[]
    ensures IsTop(created, top)
  {
    var todo := created.Keys;
    assert todo != {};
    top :| top in todo;
    todo := todo - {top};
    while todo != {}
      invariant todo <= created.Keys && top in created && top !in todo
      invariant forall x :: x in created && x != top && x !in todo ==> Above(created, top, x)
      decreases |todo|
    {
      var x :| x in todo;
      todo := todo - {x};
      if Above(created, x, top) { top := x; }
    }
  }

  class Store {
    var log: seq<Event>
    var rows: map<Id, Entity>
    var rels: map<Id, Relation>
    const jsonText: Json -> string

    constructor (jsonText: Json -> string)
      ensures log == [] && rows == map[] && rels == map[] && this.jsonText == jsonText
    {
      log, rows, rels := [], map[], map[];
      this.jsonText := jsonText;
    }

    /** The part of the shared state kept here. */
    function Tables(peers: set<Did>, etypes: map<Did, map<string, TypeDef>>, rtypes: map<Did, map<string, TypeDef>>): World
      reads this
    {
      World(peers, log, rows, rels, etypes, rtypes, jsonText)
    }

    // ---- events ----

    /** `fails` is the storage engine refusing the insert. */
    method AppendEvent(ev: Event, fails: bool) returns (ok: bool)
      modifies this`log
      ensures ok <==> !fails && CanAppend(old(log), ev)
      ensures log == if ok then old(log) + [ev] else old(log)
    {
      ok := !fails && ev.peer != "";
      var i := 0;
      while ok && i < |log|
        invariant 0 <= i <= |log|
        invariant ok <==> !fails && ev.peer != "" && forall j :: 0 <= j < i ==> log[j].id != ev.id
        invariant ok || i <= |log|
        decreases |log| - i, ok
      {
        if log[i].id == ev.id {
          ok := false;
        }
        i := i + 1;
      }
      if ok {
        log := log + [ev];
      }
    }

    method ListEvents(peer: Did, since: Time, until: Time) returns (out: seq<Event>)
      ensures out == Queries.ListEvents(log, peer, since, until)
    {
      out := [];
      for i := 0 to |log|
        invariant out == Queries.ListEvents(log[..i], peer, since, until)
      {
        var ev := log[i];
        ListEventsAppend(log[..i], ev, peer, since, until);
        assert log[..i + 1] == log[..i] + [ev];
        if ev.peer == peer && InRange(ev, since, until) {
          out := InsertEvent(out, ev);
        }
      }
      assert log[..|log|] == log;
    }

    // ---- entities ----

    method UpsertEntity(e: Entity, fails: bool) returns (ok: bool)
      modifies this`rows
      ensures ok <==> !fails && e.id != NO_ID && e.peer != ""
      ensures rows == if ok then old(rows)[e.id := Row(e)] else old(rows)
    {
      ok := !fails && e.id != NO_ID && e.peer != "";
      if ok {
        var data := if e.data.None? then map[] else e.data.value;
        rows := rows[e.id := e.(data := Some(data))];
      }
    }

    method ArchiveEntity(peer: Did, id: Id, at: Time, fails: bool) returns (ok: bool)
      modifies this`rows
      ensures ok <==> !fails && peer != "" && id != NO_ID && id in old(rows) && old(rows)[id].peer == peer
      ensures rows == if ok then old(rows)[id := old(rows)[id].(archivedAt := Some(at), updatedAt := at)] else old(rows)
    {
      ok := !fails && peer != "" && id != NO_ID && id in rows && rows[id].peer == peer;
      if ok {
        rows := rows[id := rows[id].(archivedAt := Some(at), updatedAt := at)];
      }
    }

    method GetEntity(peer: Did, id: Id) returns (got: Option<Entity>)
      ensures got.Some? <==> id in rows && rows[id].peer == peer
      ensures got.Some? ==> got.value == rows[id]
    {
      got := if id in rows && rows[id].peer == peer then Some(rows[id]) else None;
    }

    method QueryEntities(peer: Did, q: EntityQuery) returns (out: seq<Entity>)
      ensures out == Queries.QueryEntities(rows, peer, q, jsonText)
    {
      var limit := if q.limit <= 0 then DEFAULT_LIMIT else q.limit;
      var chosen := LiveRows(rows, peer, q, jsonText);
      var ids := SortNewest(Created(chosen));
      if |ids| > limit { ids := ids[..limit]; }
      out := Lookup(chosen, ids);
    }

    // ---- relations ----

    method UpsertRelation(r: Relation, fails: bool) returns (ok: bool)
      modifies this`rels
      ensures ok <==> !fails && r.id != NO_ID && r.peer != "" && r.from != NO_ID && r.to != NO_ID && r.rtype != ""
      ensures rels == if ok then old(rels)[r.id := RelationRow(r)] else old(rels)
    {
      ok := !fails && r.id != NO_ID && !(r.peer == "" || r.from == NO_ID || r.to == NO_ID || r.rtype == "");
      if ok {
        var data := if r.data.None? then map[] else r.data.value;
        rels := rels[r.id := r.(data := Some(data))];
      }
    }

    method DissolveRelation(peer: Did, id: Id, fails: bool) returns (ok: bool)
      modifies this`rels
      ensures ok <==> !fails && peer != "" && id != NO_ID && id in old(rels) && old(rels)[id].peer == peer
      ensures rels == if ok then old(rels) - {id} else old(rels)
    {
      ok := !fails && peer != "" && id != NO_ID && id in rels && rels[id].peer == peer;
      if ok {
        rels := rels - {id};
      }
    }

    method QueryRelations(peer: Did, from: Id, to: Id, rtype: string, limit: int) returns (out: seq<Relation>)
      ensures out == Queries.QueryRelations(rels, peer, from, to, rtype, limit)
    {
      var most := if limit <= 0 then DEFAULT_LIMIT else limit;
      var chosen := SelectedRelations(rels, peer, from, to, rtype);
      var ids := SortNewest(map id | id in chosen :: chosen[id].createdAt);
      if |ids| > most { ids := ids[..most]; }
      out := Lookup(chosen, ids);
    }

    // ---- time travel ----

    /** Fold the log up to `asOf` into a state map, then filter, sort and truncate it. */
    method TimeTravelEntities(peer: Did, q: EntityQuery, asOf: Time) returns (out: seq<Entity>)
      ensures out == TimeTravel(log, peer, q, asOf)
    {
      var events := ListEvents(peer, ZERO_TIME, asOf);
      var state: map<Id, Entity> := map[];
      for i := 0 to |events|
        invariant state == Fold(events[..i])
      {
        var ev := events[i];
        assert events[..i + 1] == events[..i] + [ev];
        FoldAppend(events[..i], ev);
        match ev.etype
        case EntityCreated =>
          var d := DecodeEntity(ev);
          if d.Some? { state := state[d.value.id := d.value]; }
        case EntityUpdated =>
          var d := DecodeEntity(ev);
          if d.Some? {
            var ent := d.value;
            if ent.id !in state {
              state := state[ent.id := ent];
            } else {
              var cur := state[ent.id];
              if ent.data.Some? { cur := cur.(data := ent.data); }
              if ent.etype != "" { cur := cur.(etype := ent.etype); }
              if ev.timestamp != ZERO_TIME { cur := cur.(updatedAt := ev.timestamp); }
              else if ent.updatedAt != ZERO_TIME { cur := cur.(updatedAt := ent.updatedAt); }
              state := state[ent.id := cur];
            }
          }
        case EntityArchived =>
          var d := DecodeArchive(ev.payload);
          if d.Some? {
            var (id, at) := d.value;
            if id in state {
              if at == ZERO_TIME { at := ev.timestamp; }
              state := state[id := state[id].(archivedAt := Some(at))];
            }
          }
        case _ =>
      }
      assert events[..|events|] == events;
      out := SelectNewest(state, peer, q);
    }

    method SelectNewest(state: map<Id, Entity>, peer: Did, q: EntityQuery) returns (out: seq<Entity>)
      ensures out == Newest(FoldRows(state, peer, q), q.limit)
    {
      hide FoldMatches, SortEvents;
      var kept: map<Id, Entity> := map[];
      var todo := state.Keys;
      while todo != {}
        invariant todo <= state.Keys
        invariant kept == map id | id in state && id !in todo && FoldSelects(Claim(state[id], peer), peer, q) :: Claim(state[id], peer)
        decreases |todo|
      {
        var id :| id in todo;
        todo := todo - {id};
        var ent := state[id];
        if ent.peer == "" { ent := ent.(peer := peer); }
        if ent.peer == peer && (q.includeArchived || ent.archivedAt.None?) && (q.etype == "" || ent.etype == q.etype) && FoldMatches(DataOr(ent.data), q.filters) {
          kept := kept[id := ent];
        }
      }
      assert kept == FoldRows(state, peer, q);
      var ids := SortNewest(Created(kept));
      var limit := if q.limit <= 0 then DEFAULT_LIMIT else q.limit;
      if |ids| > limit { ids := ids[..limit]; }
      out := Lookup(kept, ids);
    }
  }
}
