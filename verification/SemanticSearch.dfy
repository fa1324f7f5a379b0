/** Semantic search: the vector index returns the k nearest embeddings of every peer, and the
    store filters them afterwards. */
module SemanticSearch {
  import opened Types
  import opened Ranking
  import S = Store

  const DEFAULT_HITS := 10
  const MIN_CANDIDATES := 16

  /** An embedding and its distance from the query vector. */
  datatype Neighbour = Neighbour(id: Id, distance: real)
  datatype Hit = Hit(entity: Entity, score: real)
  datatype Outcome = Hits(hits: seq<Hit>) | DimensionMismatch

  /** How many neighbours are fetched so that filtering leaves enough of them. */
  function Candidates(limit: nat): nat {
    if limit * 4 < MIN_CANDIDATES then MIN_CANDIDATES else limit * 4
  }

  predicate Wanted(rows: map<Id, Entity>, peer: Did, typeFilter: string, n: Neighbour) {
    && n.id in rows && rows[n.id].peer == peer && rows[n.id].archivedAt.None?
    && (typeFilter == "" || rows[n.id].etype == typeFilter)
  }

  /** The hits among the given neighbours, in their order. */
  function Matches(rows: map<Id, Entity>, peer: Did, typeFilter: string, ns: seq<Neighbour>): (hits: seq<Hit>)
    ensures |hits| <= |ns|
  {
    if ns == [] then []
    else
      var n := ns[|ns| - 1];
      Matches(rows, peer, typeFilter, ns[..|ns| - 1]) +
      if Wanted(rows, peer, typeFilter, n) then [Hit(rows[n.id], 1.0 - n.distance)] else []
  }

  /** What a caller asks for: filter every embedding, then keep the nearest. */
  function Ideal(rows: map<Id, Entity>, peer: Did, typeFilter: string, limit: nat, near: seq<Neighbour>): seq<Hit> {
    Take(Matches(rows, peer, typeFilter, near), limit)
  }

  /** What the store answers with: fetch the nearest candidates, filter them, keep the nearest. */
  function Found(rows: map<Id, Entity>, peer: Did, typeFilter: string, limit: nat, near: seq<Neighbour>): seq<Hit> {
    Take(Matches(rows, peer, typeFilter, Take(near, Candidates(limit))), limit)
  }

  lemma NoMatches(rows: map<Id, Entity>, peer: Did, typeFilter: string)
    ensures forall ns: seq<Neighbour> :: ns == [] ==> Matches(rows, peer, typeFilter, ns) == []
  {
  }

  lemma NextMatch(rows: map<Id, Entity>, peer: Did, typeFilter: string, ns: seq<Neighbour>, i: nat)
    requires i < |ns|
    ensures Matches(rows, peer, typeFilter, ns[..i + 1]) == Matches(rows, peer, typeFilter, ns[..i]) +
      if Wanted(rows, peer, typeFilter, ns[i]) then [Hit(rows[ns[i].id], 1.0 - ns[i].distance)] else []
  {
    assert ns[..i + 1][..i] == ns[..i];
  }

  lemma TakeMeans<T>(s: seq<T>, n: nat)
    ensures Take(s, n) == if |s| <= n then s else s[..n]
  {
  }

  lemma TakeOfLonger<T>(s: seq<T>, longer: seq<T>, n: nat)
    requires s <= longer && |s| == n
    ensures Take(longer, n) == s
  {
  }

  /** `near` is the content of the vector index, ordered by distance from `vector`. */
  method Search(store: S.Store, peer: Did, dim: nat, vector: seq<real>, near: seq<Neighbour>, typeFilter: string, limit: int)
    returns (r: Outcome)
    ensures vector == [] ==> r == Hits([])
    ensures vector != [] ==>
      r == if |vector| != dim then DimensionMismatch else Hits(Found(store.rows, peer, typeFilter, if limit <= 0 then 10 else limit, near))
  {
    hide Matches, Take;
    if |vector| == 0 {
      return Hits([]);
    }
    if |vector| != dim {
      return DimensionMismatch;
    }
    var most := if limit <= 0 then DEFAULT_HITS else limit;
    var k := most * 4;
    if k < MIN_CANDIDATES {
      k := MIN_CANDIDATES;
    }
    var cands := if |near| <= k then near else near[..k];
    assert cands == Take(near, Candidates(most)) by { TakeMeans(near, k); }
    var out: seq<Hit> := [];
    NoMatches(store.rows, peer, typeFilter);
    for i := 0 to |cands|
      invariant |out| < most
      invariant out == Matches(store.rows, peer, typeFilter, cands[..i])
    {
      var c := cands[i];
      NextMatch(store.rows, peer, typeFilter, cands, i);
      var ent := store.GetEntity(peer, c.id);
      if ent.None? { continue; }
      if ent.value.peer != peer { continue; }
      if typeFilter != "" && ent.value.etype != typeFilter { continue; }
      if ent.value.archivedAt.Some? { continue; }
      out := out + [Hit(ent.value, 1.0 - c.distance)];
      if |out| >= most {
        MatchesGrow(store.rows, peer, typeFilter, cands, i + 1);
        TakeOfLonger(out, Matches(store.rows, peer, typeFilter, cands), most);
        return Hits(out);
      }
    }
    assert cands[..|cands|] == cands;
    TakeMeans(out, most);
    return Hits(out);
  }

  /** Looking at more neighbours only adds hits at the end. */
  lemma {:induction false} MatchesGrow(rows: map<Id, Entity>, peer: Did, typeFilter: string, ns: seq<Neighbour>, k: nat)
    requires k <= |ns|
    ensures Matches(rows, peer, typeFilter, ns[..k]) <= Matches(rows, peer, typeFilter, ns)
    ensures Matches(rows, peer, typeFilter, ns[..k]) == Matches(rows, peer, typeFilter, ns) <==>
            forall i :: k <= i < |ns| ==> !Wanted(rows, peer, typeFilter, ns[i])
    decreases |ns|
  {
    if k == |ns| {
      assert ns[..k] == ns;
    } else {
      var init := ns[..|ns| - 1];
      assert init[..k] == ns[..k];
      MatchesGrow(rows, peer, typeFilter, init, k);
      assert forall i :: 0 <= i < |init| ==> init[i] == ns[i];
    }
  }

  /** Search never returns a wrong or misplaced hit, and falls short of the ideal answer exactly when it
      comes back with fewer hits than asked while a wanted embedding lies beyond the candidates: four for each hit asked
      for, and at least sixteen. */
  lemma SearchRefinesIdeal(rows: map<Id, Entity>, peer: Did, typeFilter: string, limit: nat, near: seq<Neighbour>)
    ensures var found, ideal := Found(rows, peer, typeFilter, limit, near), Ideal(rows, peer, typeFilter, limit, near);
      && found <= ideal
      && (found == ideal <==>
          (|found| == limit || forall i :: 4 * limit <= i < |near| && 16 <= i ==> !Wanted(rows, peer, typeFilter, near[i])))
  {
    var k := Candidates(limit);
    if |near| > k {
      MatchesGrow(rows, peer, typeFilter, near, k);
    }
  }

  /** Embeddings that the filter turns away: of another peer, archived, gone or of another type. */
  function Misses(rows: map<Id, Entity>, peer: Did, typeFilter: string, ns: seq<Neighbour>): nat {
    |ns| - |Matches(rows, peer, typeFilter, ns)|
  }

  lemma {:induction false} MissesGrow(rows: map<Id, Entity>, peer: Did, typeFilter: string, ns: seq<Neighbour>, k: nat)
    requires k <= |ns|
    ensures Misses(rows, peer, typeFilter, ns[..k]) <= Misses(rows, peer, typeFilter, ns)
    decreases |ns|
  {
    if k == |ns| {
      assert ns[..k] == ns;
    } else {
      assert ns[..|ns| - 1][..k] == ns[..k];
      MissesGrow(rows, peer, typeFilter, ns[..|ns| - 1], k);
    }
  }

  /** The over-fetch absorbs three misses for each hit asked for, and never fewer than sixteen less the limit. */
  lemma OverfetchSuffices(rows: map<Id, Entity>, peer: Did, typeFilter: string, limit: nat, near: seq<Neighbour>)
    requires Misses(rows, peer, typeFilter, near) <= 3 * limit || Misses(rows, peer, typeFilter, near) + limit <= 16
    ensures Found(rows, peer, typeFilter, limit, near) == Ideal(rows, peer, typeFilter, limit, near)
  {
    var k := Candidates(limit);
    if |near| > k {
      MissesGrow(rows, peer, typeFilter, near, k);
    }
    SearchRefinesIdeal(rows, peer, typeFilter, limit, near);
  }

  predicate ByDistance(near: seq<Neighbour>) {
    forall i, j :: 0 <= i < j < |near| ==> near[i].distance <= near[j].distance
  }

  predicate HitFrom(rows: map<Id, Entity>, peer: Did, typeFilter: string, n: Neighbour, hit: Hit) {
    Wanted(rows, peer, typeFilter, n) && hit == Hit(rows[n.id], 1.0 - n.distance)
  }

  ghost predicate Genuine(rows: map<Id, Entity>, peer: Did, typeFilter: string, ns: seq<Neighbour>, hit: Hit) {
    exists j :: 0 <= j < |ns| && HitFrom(rows, peer, typeFilter, ns[j], hit)
  }

  ghost predicate AllGenuine(rows: map<Id, Entity>, peer: Did, typeFilter: string, ns: seq<Neighbour>, hits: seq<Hit>) {
    forall i :: 0 <= i < |hits| ==> Genuine(rows, peer, typeFilter, ns, hits[i])
  }

  predicate ByScore(hits: seq<Hit>) {
    forall i, j :: 0 <= i < j < |hits| ==> hits[i].score >= hits[j].score
  }

  lemma {:induction false} MatchesScored(rows: map<Id, Entity>, peer: Did, typeFilter: string, ns: seq<Neighbour>)
    requires ByDistance(ns)
    ensures ByScore(Matches(rows, peer, typeFilter, ns))
    ensures AllGenuine(rows, peer, typeFilter, ns, Matches(rows, peer, typeFilter, ns))
  {
    if ns != [] {
      var init, last := ns[..|ns| - 1], ns[|ns| - 1];
      MatchesScored(rows, peer, typeFilter, init);
      var before, hits := Matches(rows, peer, typeFilter, init), Matches(rows, peer, typeFilter, ns);
      forall i | 0 <= i < |before|
        ensures before[i].score >= 1.0 - last.distance && Genuine(rows, peer, typeFilter, ns, before[i])
      {
        assert Genuine(rows, peer, typeFilter, init, before[i]);
        var j :| 0 <= j < |init| && HitFrom(rows, peer, typeFilter, init[j], before[i]);
        assert HitFrom(rows, peer, typeFilter, ns[j], before[i]);
      }
      if Wanted(rows, peer, typeFilter, last) {
        assert HitFrom(rows, peer, typeFilter, ns[|ns| - 1], Hit(rows[last.id], 1.0 - last.distance));
      }
    }
  }

  /** The hit is the entity of an embedding, scored by its closeness. */
  ghost predicate Scored(rows: map<Id, Entity>, near: seq<Neighbour>, hit: Hit) {
    exists j :: 0 <= j < |near| && near[j].id in rows && hit.entity == rows[near[j].id] && hit.score == 1.0 - near[j].distance
  }

  /** The answer holds only the asking peer's live entities of the wanted type, best score first. */
  lemma HitsAreScopedAndRanked(rows: map<Id, Entity>, peer: Did, typeFilter: string, limit: nat, near: seq<Neighbour>)
    requires ByDistance(near)
    ensures var hits := Found(rows, peer, typeFilter, limit, near);
      && |hits| <= limit && (forall i, j :: 0 <= i < j < |hits| ==> hits[i].score >= hits[j].score)
      && (forall i :: 0 <= i < |hits| ==> Scored(rows, near, hits[i]) && var e := hits[i].entity;
            e.peer == peer && e.archivedAt.None? && (typeFilter == "" || e.etype == typeFilter))
  {
    var cands := Take(near, Candidates(limit));
    MatchesScored(rows, peer, typeFilter, cands);
    var all, hits := Matches(rows, peer, typeFilter, cands), Found(rows, peer, typeFilter, limit, near);
    assert forall i :: 0 <= i < |hits| ==> hits[i] == all[i];
    forall i | 0 <= i < |hits|
      ensures Scored(rows, near, hits[i]) && var e := hits[i].entity;
        e.peer == peer && e.archivedAt.None? && (typeFilter == "" || e.etype == typeFilter)
    {
      assert Genuine(rows, peer, typeFilter, cands, all[i]);
      var j :| 0 <= j < |cands| && HitFrom(rows, peer, typeFilter, cands[j], all[i]);
      assert near[j] == cands[j];
    }
  }
}
