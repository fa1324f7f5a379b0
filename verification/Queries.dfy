/** The listings a peer answers with: the live query over the entity rows, the relation
    query, and time travel over the event log. */
module Queries {
  import opened Types
  import opened Texts
  import opened EventLog
  import opened Ranking

  /** SQL's test for one string filter: strings compare as text, numbers, booleans and
      null never equal a text, and an array or object compares by its JSON text. */
  predicate LiveEqual(got: Json, want: string, jsonText: Json -> string) {
    match got
    case Str(s) => s == want
    case Arr(_) => jsonText(got) == want
    case Obj(_) => jsonText(got) == want
    case _ => false
  }

  predicate LiveMatches(data: Data, filters: map<string, string>, jsonText: Json -> string) {
    forall k :: k in filters ==> k in data && LiveEqual(data[k], filters[k], jsonText)
  }

  /** Time travel's test: the field and the wanted string have the same JSON text. */
  predicate FoldMatches(data: Data, filters: map<string, string>) {
    forall k :: k in filters ==> k in data && data[k] == Str(filters[k])
  }

  predicate LiveSelects(row: Entity, peer: Did, q: EntityQuery, jsonText: Json -> string) {
    && row.peer == peer
    && (q.etype == "" || row.etype == q.etype)
    && (q.includeArchived || row.archivedAt.None?)
    && LiveMatches(DataOr(row.data), q.filters, jsonText)
  }

  function Created(rows: map<Id, Entity>): map<Id, Time> {
    map id | id in rows :: rows[id].createdAt
  }

  function LiveRows(rows: map<Id, Entity>, peer: Did, q: EntityQuery, jsonText: Json -> string): map<Id, Entity> {
    map id | id in rows && LiveSelects(rows[id], peer, q, jsonText) :: rows[id]
  }

  /** The first `limit` entities of a table, newest first. */
  ghost function Newest(rows: map<Id, Entity>, limit: int): seq<Entity> {
    Lookup(rows, NewestIds(rows, limit))
  }

  ghost function NewestIds(rows: map<Id, Entity>, limit: int): (ids: seq<Id>)
    ensures forall x :: x in ids ==> x in rows
  {
    Take(Rank(Created(rows)), EffectiveLimit(limit))
  }

  function Lookup<T>(rows: map<Id, T>, ids: seq<Id>): seq<T>
    requires forall x :: x in ids ==> x in rows
  {
    seq(|ids|, i requires 0 <= i < |ids| => rows[ids[i]])
  }

  ghost function QueryEntities(rows: map<Id, Entity>, peer: Did, q: EntityQuery, jsonText: Json -> string): seq<Entity> {
    Newest(LiveRows(rows, peer, q, jsonText), q.limit)
  }

  predicate RelationSelects(r: Relation, peer: Did, from: Id, to: Id, rtype: string) {
    && r.peer == peer
    && (from == NO_ID || r.from == from)
    && (to == NO_ID || r.to == to)
    && (rtype == "" || r.rtype == rtype)
  }

  function SelectedRelations(rels: map<Id, Relation>, peer: Did, from: Id, to: Id, rtype: string): map<Id, Relation> {
    map id | id in rels && RelationSelects(rels[id], peer, from, to, rtype) :: rels[id]
  }

  ghost function QueryRelations(rels: map<Id, Relation>, peer: Did, from: Id, to: Id, rtype: string, limit: int): seq<Relation> {
    var chosen := SelectedRelations(rels, peer, from, to, rtype);
    Lookup(chosen, Take(Rank(map id | id in chosen :: chosen[id].createdAt), EffectiveLimit(limit)))
  }

  predicate InRange(ev: Event, since: Time, until: Time) {
    && (since == ZERO_TIME || ev.timestamp >= since)
    && (until == ZERO_TIME || ev.timestamp <= until)
  }

  function Between(log: seq<Event>, since: Time, until: Time): seq<Event> {
    if log == [] then []
    else
      var last := log[|log| - 1];
      Between(log[..|log| - 1], since, until) + if InRange(last, since, until) then [last] else []
  }

  /** The events of a peer in a closed time range, oldest first; a zero bound is no bound. */
  function ListEvents(log: seq<Event>, peer: Did, since: Time, until: Time): seq<Event> {
    SortEvents(Between(OfPeer(log, peer), since, until))
  }

  lemma ListEventsAppend(log: seq<Event>, ev: Event, peer: Did, since: Time, until: Time)
    ensures ListEvents(log + [ev], peer, since, until)
         == if ev.peer == peer && InRange(ev, since, until) then InsertEvent(ListEvents(log, peer, since, until), ev)
            else ListEvents(log, peer, since, until)
  {
    OfPeerAppend(log, ev, peer);
    var mine := OfPeer(log, peer);
    if ev.peer == peer {
      assert (mine + [ev])[..|mine|] == mine;
      var kept := Between(mine, since, until);
      if InRange(ev, since, until) { assert (kept + [ev])[..|kept|] == kept; } else { assert kept + [] == kept; }
    } else {
      assert mine + [] == mine;
    }
  }

  /** Time travel treats an entity without a peer as the asking peer's own. */
  function Claim(e: Entity, peer: Did): Entity {
    if e.peer == "" then e.(peer := peer) else e
  }

  predicate FoldSelects(e: Entity, peer: Did, q: EntityQuery) {
    && e.peer == peer
    && (q.includeArchived || e.archivedAt.None?)
    && (q.etype == "" || e.etype == q.etype)
    && FoldMatches(DataOr(e.data), q.filters)
  }

  function FoldRows(state: map<Id, Entity>, peer: Did, q: EntityQuery): map<Id, Entity> {
    map id | id in state && FoldSelects(Claim(state[id], peer), peer, q) :: Claim(state[id], peer)
  }

  ghost function TimeTravel(log: seq<Event>, peer: Did, q: EntityQuery, asOf: Time): seq<Entity> {
    Newest(FoldRows(Fold(ListEvents(log, peer, ZERO_TIME, asOf)), peer, q), q.limit)
  }

  // ---- what the listings contain ----

  /** The truncated ranking of a table: newest first, without repetition, complete unless the limit is reached. */
  lemma RankedListing(created: map<Id, Time>, n: nat)
    ensures var ids := Take(Rank(created), n);
      && |ids| <= n
      && (forall i :: 0 <= i < |ids| ==> ids[i] in created)
      && (forall i, j :: 0 <= i < j < |ids| ==> Above(created, ids[i], ids[j]))
      && (forall x, i :: x in created && x !in ids && 0 <= i < |ids| ==> |ids| == n && Above(created, ids[i], x))
      && (|ids| < n ==> forall x :: x in created ==> x in ids)
  {
    var all, ids := Rank(created), Take(Rank(created), n);
    forall x, i | x in created && x !in ids && 0 <= i < |ids| ensures |ids| == n && Above(created, ids[i], x) {
      assert x in all;
      var k :| 0 <= k < |all| && all[k] == x;
      assert k >= |ids|;
    }
  }

  /** A row of the peer that a query asks for, spelled out: of the type if one is given, not archived unless archived ones
      are asked for, and each filtered field has the wanted text, or is an array or object written as that text. */
  predicate Wanted(rows: map<Id, Entity>, peer: Did, q: EntityQuery, jsonText: Json -> string, id: Id) {
    && id in rows && rows[id].peer == peer && (q.etype != "" ==> rows[id].etype == q.etype)
    && (rows[id].archivedAt.Some? ==> q.includeArchived)
    && forall k :: k in q.filters ==>
         rows[id].data.Some? && k in rows[id].data.value &&
         var got := rows[id].data.value[k];
         got == Str(q.filters[k]) || ((got.Arr? || got.Obj?) && jsonText(got) == q.filters[k])
  }

  /** A replayed entity that a time-travel query asks for, spelled out; one without a peer counts as the asking peer's. */
  predicate WantedThen(state: map<Id, Entity>, peer: Did, q: EntityQuery, id: Id) {
    && id in state && (state[id].peer == peer || state[id].peer == "") && (q.etype != "" ==> state[id].etype == q.etype)
    && (state[id].archivedAt.Some? ==> q.includeArchived)
    && forall k :: k in q.filters ==>
         state[id].data.Some? && k in state[id].data.value && state[id].data.value[k] == Str(q.filters[k])
  }

  predicate Newer(a: Entity, b: Entity) {
    a.createdAt > b.createdAt || (a.createdAt == b.createdAt && a.id > b.id)
  }

  lemma WantedRows(rows: map<Id, Entity>, peer: Did, q: EntityQuery, jsonText: Json -> string)
    ensures forall id :: id in LiveRows(rows, peer, q, jsonText) <==> Wanted(rows, peer, q, jsonText, id)
    ensures forall id :: id in LiveRows(rows, peer, q, jsonText) ==> id in rows && LiveRows(rows, peer, q, jsonText)[id] == rows[id]
  {
  }

  /** What a truncated listing of a table leaves out: nothing, unless it is full, and then only what is older. */
  ghost predicate LeavesOut(es: seq<Entity>, n: int, e: Entity) {
    (exists i :: 0 <= i < |es| && es[i] == e) || (|es| == n && forall i :: 0 <= i < |es| ==> Newer(es[i], e))
  }

  lemma NewestOf(chosen: map<Id, Entity>, limit: int, id: Id)
    requires forall x :: x in chosen ==> chosen[x].id == x
    ensures var es := Newest(chosen, limit); var n := if limit > 0 then limit else 50;
      && |es| <= n
      && (forall i, j :: 0 <= i < j < |es| ==> Newer(es[i], es[j]))
      && (forall i :: 0 <= i < |es| && es[i].id == id ==> id in chosen && es[i] == chosen[id])
      && (id in chosen ==> LeavesOut(es, n, chosen[id]))
  {
    hide Rank;
    var ids, es := NewestIds(chosen, limit), Newest(chosen, limit);
    RankedListing(Created(chosen), EffectiveLimit(limit));
    assert forall i :: 0 <= i < |es| ==> es[i] == chosen[ids[i]] && es[i].id == ids[i] && ids[i] in ids;
    if id in ids {
      var i :| 0 <= i < |ids| && ids[i] == id;
      assert es[i] == chosen[id];
    }
  }

  /** Each id in the answer is a wanted row as it stands, and a wanted row is left out only for newer ones. */
  ghost predicate EntityAnswer(rows: map<Id, Entity>, peer: Did, q: EntityQuery, jsonText: Json -> string, es: seq<Entity>, n: int, id: Id) {
    && (forall i :: 0 <= i < |es| && es[i].id == id ==> Wanted(rows, peer, q, jsonText, id) && es[i] == rows[id])
    && (Wanted(rows, peer, q, jsonText, id) ==> LeavesOut(es, n, rows[id]))
  }

  ghost predicate PastAnswer(past: map<Id, Entity>, peer: Did, q: EntityQuery, es: seq<Entity>, n: int, id: Id) {
    && (forall i :: 0 <= i < |es| && es[i].id == id ==> WantedThen(past, peer, q, id) && es[i] == past[id].(peer := peer))
    && (WantedThen(past, peer, q, id) ==> LeavesOut(es, n, past[id].(peer := peer)))
  }

  ghost predicate RelationAnswer(rels: map<Id, Relation>, peer: Did, from: Id, to: Id, rtype: string, rs: seq<Relation>, n: int, id: Id) {
    && (forall i :: 0 <= i < |rs| && rs[i].id == id ==> WantedRelation(rels, peer, from, to, rtype, id) && rs[i] == rels[id])
    && (WantedRelation(rels, peer, from, to, rtype, id) ==> RelationLeftOut(rs, n, rels[id]))
  }

  /** The live query lists wanted rows of the peer newest first, at most as many as the query's positive limit or else
      fifty, and what it leaves out when full is older than everything it lists. */
  lemma EntityListing(rows: map<Id, Entity>, peer: Did, q: EntityQuery, jsonText: Json -> string, id: Id)
    requires forall x :: x in rows ==> rows[x].id == x
    ensures var es := QueryEntities(rows, peer, q, jsonText); var n := if q.limit > 0 then q.limit else 50;
      && |es| <= n
      && (forall i, j :: 0 <= i < j < |es| ==> Newer(es[i], es[j]))
      && EntityAnswer(rows, peer, q, jsonText, es, n, id)
  {
    var chosen := LiveRows(rows, peer, q, jsonText);
    WantedRows(rows, peer, q, jsonText);
    hide LiveRows, Wanted, Newest;
    NewestOf(chosen, q.limit, id);
  }

  /** Every replayed entity is filed under its own id. */
  lemma {:induction false} FoldKeyed(log: seq<Event>)
    ensures forall id :: id in Fold(log) ==> Fold(log)[id].id == id
  {
    if log != [] {
      FoldKeyed(log[..|log| - 1]);
      hide Fold;
      FoldEventKeyed(Fold(log[..|log| - 1]), log[|log| - 1]);
      assert log[..|log| - 1] + [log[|log| - 1]] == log;
      FoldAppend(log[..|log| - 1], log[|log| - 1]);
    }
  }

  lemma FoldEventKeyed(state: map<Id, Entity>, ev: Event)
    requires forall id :: id in state ==> state[id].id == id
    ensures forall id :: id in FoldEvent(state, ev) ==> FoldEvent(state, ev)[id].id == id
  {
  }

  lemma WantedThenRows(state: map<Id, Entity>, peer: Did, q: EntityQuery)
    ensures forall id :: id in FoldRows(state, peer, q) <==> WantedThen(state, peer, q, id)
    ensures forall id :: id in FoldRows(state, peer, q) ==> id in state && FoldRows(state, peer, q)[id] == state[id].(peer := peer)
  {
  }

  /** Time travel lists what the log up to the instant says, in the same way: newest first, at most as many as the query's
      positive limit or else fifty, leaving out only what is older when full. */
  lemma TimeTravelListing(log: seq<Event>, peer: Did, q: EntityQuery, asOf: Time, id: Id)
    ensures var es := TimeTravel(log, peer, q, asOf); var n := if q.limit > 0 then q.limit else 50;
      var past := Fold(ListEvents(log, peer, ZERO_TIME, asOf));
      && |es| <= n
      && (forall i, j :: 0 <= i < j < |es| ==> Newer(es[i], es[j]))
      && PastAnswer(past, peer, q, es, n, id)
  {
    var past := Fold(ListEvents(log, peer, ZERO_TIME, asOf));
    FoldKeyed(ListEvents(log, peer, ZERO_TIME, asOf));
    WantedThenRows(past, peer, q);
    hide FoldRows, WantedThen, Newest, Fold, ListEvents, LeavesOut;
    NewestOf(FoldRows(past, peer, q), q.limit, id);
  }

  /** The events of a range: the peer's own from the first bound to the last, both included, a zero bound being none. */
  lemma {:induction false} RangeMembers(log: seq<Event>, peer: Did, since: Time, until: Time)
    ensures forall ev :: ev in ListEvents(log, peer, since, until) <==>
      ev in log && ev.peer == peer && (since != 0 ==> since <= ev.timestamp) && (until != 0 ==> ev.timestamp <= until)
  {
    if log != [] {
      hide ListEvents, InsertEvent;
      var before, last := log[..|log| - 1], log[|log| - 1];
      assert log == before + [last];
      RangeMembers(before, peer, since, until);
      ListEventsAppend(before, last, peer, since, until);
      InsertMembers(ListEvents(before, peer, since, until), last);
    }
  }

  lemma {:induction false} InsertMembers(evs: seq<Event>, ev: Event)
    ensures forall x :: x in InsertEvent(evs, ev) <==> x in evs || x == ev
  {
    if evs != [] && !EventLeq(evs[|evs| - 1], ev) {
      InsertMembers(evs[..|evs| - 1], ev);
      assert evs == evs[..|evs| - 1] + [evs[|evs| - 1]];
    }
  }

  /** And they come by time, and by id at the same time. */
  lemma EventListing(log: seq<Event>, peer: Did, since: Time, until: Time)
    ensures var evs := ListEvents(log, peer, since, until);
      && (forall ev :: ev in evs <==>
            ev in log && ev.peer == peer && (since != 0 ==> since <= ev.timestamp) && (until != 0 ==> ev.timestamp <= until))
      && forall i, j :: 0 <= i < j < |evs| ==>
           evs[i].timestamp < evs[j].timestamp || (evs[i].timestamp == evs[j].timestamp && evs[i].id <= evs[j].id)
  {
    RangeMembers(log, peer, since, until);
    SortEventsSorts(Between(OfPeer(log, peer), since, until));
  }

  predicate WantedRelation(rels: map<Id, Relation>, peer: Did, from: Id, to: Id, rtype: string, id: Id) {
    && id in rels && rels[id].peer == peer && (from != NO_ID ==> rels[id].from == from)
    && (to != NO_ID ==> rels[id].to == to) && (rtype != "" ==> rels[id].rtype == rtype)
  }

  predicate NewerRelation(a: Relation, b: Relation) {
    a.createdAt > b.createdAt || (a.createdAt == b.createdAt && a.id > b.id)
  }

  ghost predicate RelationLeftOut(rs: seq<Relation>, n: int, r: Relation) {
    (exists i :: 0 <= i < |rs| && rs[i] == r) || (|rs| == n && forall i :: 0 <= i < |rs| ==> NewerRelation(rs[i], r))
  }

  lemma NewestRelations(chosen: map<Id, Relation>, created: map<Id, Time>, n: nat, id: Id)
    requires forall x :: x in chosen ==> chosen[x].id == x
    requires created == map x | x in chosen :: chosen[x].createdAt
    requires forall x :: x in Take(Rank(created), n) ==> x in chosen
    ensures var rs := Lookup(chosen, Take(Rank(created), n));
      && |rs| <= n
      && (forall i, j :: 0 <= i < j < |rs| ==> NewerRelation(rs[i], rs[j]))
      && (forall i :: 0 <= i < |rs| && rs[i].id == id ==> id in chosen && rs[i] == chosen[id])
      && (id in chosen ==> RelationLeftOut(rs, n, chosen[id]))
  {
    hide Rank;
    RankedListing(created, n);
    var ids := Take(Rank(created), n);
    var rs := Lookup(chosen, ids);
    assert forall i :: 0 <= i < |rs| ==> rs[i] == chosen[ids[i]] && rs[i].id == ids[i] && ids[i] in ids;
    if id in ids {
      var i :| 0 <= i < |ids| && ids[i] == id;
      assert rs[i] == chosen[id];
    }
  }

  /** Likewise the relation query, by endpoints and type. */
  lemma RelationListing(rels: map<Id, Relation>, peer: Did, from: Id, to: Id, rtype: string, limit: int, id: Id)
    requires forall x :: x in rels ==> rels[x].id == x
    ensures var rs := QueryRelations(rels, peer, from, to, rtype, limit); var n := if limit > 0 then limit else 50;
      && |rs| <= n
      && (forall i, j :: 0 <= i < j < |rs| ==> NewerRelation(rs[i], rs[j]))
      && RelationAnswer(rels, peer, from, to, rtype, rs, n, id)
  {
    var chosen := SelectedRelations(rels, peer, from, to, rtype);
    var created := map x | x in chosen :: chosen[x].createdAt;
    hide Rank, Take, Lookup;
    NewestRelations(chosen, created, EffectiveLimit(limit), id);
  }

  /** The definitions of one peer, in the order of their names. */
  ghost function ByName(types: map<string, TypeDef>): (defs: seq<TypeDef>)
    ensures |defs| == |InOrder(types.Keys)|
    ensures forall i :: 0 <= i < |defs| ==> InOrder(types.Keys)[i] in types && defs[i] == types[InOrder(types.Keys)[i]]
  {
    var names := InOrder(types.Keys);
    assert forall i :: 0 <= i < |names| ==> names[i] in names;
    seq(|names|, i requires 0 <= i < |names| => types[names[i]])
  }
}
