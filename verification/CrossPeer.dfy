/** The tool that queries several peers in one request: each peer is authorised, queried and projected on its own. */
module CrossPeer {
  import opened Types
  import opened Requests
  import opened Shared
  import opened Queries
  import opened Projection
  import Isolation
  import F = Federation
  import R = Registry
  import T = Tokens

  datatype Why = PeerRequired | UnknownPeer | MissingToken | Unauthorized(verdict: T.Verdict) | RouteFailed(error: Error)

  datatype Authorization = Authorized(did: Did) | Denied(why: Why)

  /** One entry of the reply: the entities as JSON, or what went wrong. */
  datatype Outcome = Found(json: Json) | Refused(why: Why)
  datatype PeerResult = PeerResult(peer: string, outcome: Outcome)
  datatype ToolResult = Entries(entries: seq<PeerResult>) | BadRequest

  /** What the caller brings along: a bearer secret, a query, and the fields to show. */
  datatype Ask = Ask(secret: string, query: EntityQuery, fields: seq<string>)

  /** Who may be asked: the registry, and the token store with its hash. */
  datatype Gate = Gate(dir: R.Directory, grants: seq<T.Grant>, hash: string -> string)

  /** A key is a name or a DID; the token must cover the name of the peer it resolves to. */
  function Authorize(gate: Gate, secret: string, key: string): Authorization
    requires gate.dir.Consistent()
  {
    if key == "" then Denied(PeerRequired)
    else if gate.dir.Find(key).None? then Denied(UnknownPeer)
    else if secret == "" then Denied(MissingToken)
    else
      var did := gate.dir.Find(key).value;
      var verdict := T.Judge(gate.grants, gate.hash(secret), gate.dir.names[did]);
      if verdict.Granted? then Authorized(did) else Denied(Unauthorized(verdict))
  }

  function QueryCall(did: Did, q: EntityQuery): Call {
    Call(did, "did:mcp:client", EntityList(q), ZERO_TIME, NO_ID, NO_ID, Works)
  }

  ghost function Entry(w: World, gate: Gate, ask: Ask, render: seq<Entity> -> Json, key: string): PeerResult
    requires gate.dir.Consistent()
  {
    var auth := Authorize(gate, ask.secret, key);
    PeerResult(key,
      if auth.Denied? then Refused(auth.why)
      else
        var reply := Step(w, QueryCall(auth.did, ask.query)).1;
        if reply.Failed? then Refused(RouteFailed(reply.error))
        else if reply.EntitiesReply? then Found(ProjectedJson(render(reply.entities), ask.fields))
        else Refused(RouteFailed(BadOp)))
  }

  ghost function CrossPeer(w: World, gate: Gate, ask: Ask, render: seq<Entity> -> Json, peers: seq<Json>): ToolResult
    requires gate.dir.Consistent()
  {
    if ask.query.etype == "" || peers == [] || exists i :: 0 <= i < |peers| && !peers[i].Str? then BadRequest
    else Entries(seq(|peers|, i requires 0 <= i < |peers| => Entry(w, gate, ask, render, peers[i].s)))
  }

  method AuthorizeForPeer(reg: R.Registry, tokens: T.TokenStore, secret: string, key: string) returns (a: Authorization)
    requires reg.Valid()
    ensures reg.contents.Consistent()
    ensures a == Authorize(Gate(reg.contents, tokens.Contents(), tokens.hash), secret, key)
  {
    reg.ValidIsConsistent();
    if key == "" {
      return Denied(PeerRequired);
    }
    var p := reg.Resolve(key);
    if p == null {
      return Denied(UnknownPeer);
    }
    if secret == "" {
      return Denied(MissingToken);
    }
    var verdict := tokens.Verify(secret, p.name);
    if !verdict.Granted? {
      return Denied(Unauthorized(verdict));
    }
    return Authorized(p.did);
  }

  /** One turn of the aggregation loop. */
  method QueryPeer(reg: R.Registry, tokens: T.TokenStore, router: F.Router, ask: Ask, name: string,
                   render: seq<Entity> -> Json) returns (e: PeerResult)
    requires reg.Valid() && router.Valid()
    modifies router.store, router.resolver
    ensures reg.contents.Consistent()
    ensures router.Valid() && router.State() == old(router.State())
    ensures e == Entry(router.State(), Gate(reg.contents, tokens.Contents(), tokens.hash), ask, render, name)
  {
    hide Step, ProjectedJson, Authorize, QueryEntities, R.Directory.Consistent, R.Directory.Find;
    reg.ValidIsConsistent();
    var auth := AuthorizeForPeer(reg, tokens, ask.secret, name);
    if auth.Denied? {
      return PeerResult(name, Refused(auth.why));
    }
    QueriesReadOnly(router.State(), auth.did, ask.query);
    var reply := router.Route(QueryCall(auth.did, ask.query));
    if reply.Failed? {
      return PeerResult(name, Refused(RouteFailed(reply.error)));
    }
    if !reply.EntitiesReply? {
      return PeerResult(name, Refused(RouteFailed(BadOp)));
    }
    var shown := ProjectJson(render(reply.entities), ask.fields);
    return PeerResult(name, Found(shown));
  }

  /** `limitPerPeer`, when given, replaces the limit of the query; `render` is the JSON encoding of a listing. */
  method HandleCrossPeerQuery(reg: R.Registry, tokens: T.TokenStore, router: F.Router, ask: Ask, limitPerPeer: int,
                              peers: seq<Json>, render: seq<Entity> -> Json) returns (r: ToolResult)
    requires reg.Valid() && router.Valid()
    modifies router.store, router.resolver
    ensures reg.contents.Consistent()
    ensures router.Valid() && router.State() == old(router.State())
    ensures var limit := if limitPerPeer != 0 then limitPerPeer else ask.query.limit;
      r == CrossPeer(router.State(), Gate(reg.contents, tokens.Contents(), tokens.hash),
                     ask.(query := ask.query.(limit := limit)), render, peers)
  {
    hide Entry, R.Directory.Consistent;
    reg.ValidIsConsistent();
    if ask.query.etype == "" {
      return BadRequest;
    }
    if |peers| == 0 {
      return BadRequest;
    }
    var q := ask.query;
    if limitPerPeer != 0 {
      q := q.(limit := limitPerPeer);
    }
    var asked := ask.(query := q);
    ghost var w, gate := router.State(), Gate(reg.contents, tokens.Contents(), tokens.hash);
    var out: seq<PeerResult> := [];
    for i := 0 to |peers|
      invariant router.Valid() && router.State() == w && reg.Valid()
      invariant gate == Gate(reg.contents, tokens.Contents(), tokens.hash)
      invariant |out| == i
      invariant forall j :: 0 <= j < i ==> peers[j].Str? && out[j] == Entry(w, gate, asked, render, peers[j].s)
    {
      if !peers[i].Str? {
        return BadRequest;
      }
      var entry := QueryPeer(reg, tokens, router, asked, peers[i].s, render);
      out := out + [entry];
    }
    return Entries(out);
  }

  lemma QueriesReadOnly(w: World, did: Did, q: EntityQuery)
    ensures Step(w, QueryCall(did, q)).0 == w
    ensures Step(w, QueryCall(did, q)).1 ==
      if did in w.peers then EntitiesReply(QueryEntities(w.rows, did, q, w.jsonText)) else Failed(NoHandler)
  {
  }

  /** One entry for each requested peer, in the order of the request, each being what that peer alone would have given. */
  lemma Pointwise(w: World, gate: Gate, ask: Ask, render: seq<Entity> -> Json, peers: seq<Json>)
    requires gate.dir.Consistent()
    ensures var r := CrossPeer(w, gate, ask, render, peers);
      && (r.Entries? <==> ask.query.etype != "" && peers != [] && forall i :: 0 <= i < |peers| ==> peers[i].Str?)
      && (r.Entries? ==> |r.entries| == |peers| && forall i :: 0 <= i < |peers| ==>
            r.entries[i].peer == peers[i].s && Entries([r.entries[i]]) == CrossPeer(w, gate, ask, render, [peers[i]]))
  {
    hide Entry;
    var r := CrossPeer(w, gate, ask, render, peers);
    if r.Entries? {
      forall i | 0 <= i < |peers|
        ensures r.entries[i].peer == peers[i].s && Entries([r.entries[i]]) == CrossPeer(w, gate, ask, render, [peers[i]])
      {
        EntryNamesPeer(w, gate, ask, render, peers[i].s);
        var alone := CrossPeer(w, gate, ask, render, [peers[i]]);
        assert alone.Entries? && |alone.entries| == 1 && alone.entries[0] == r.entries[i];
        assert alone.entries == [r.entries[i]];
      }
    }
  }

  lemma EntryNamesPeer(w: World, gate: Gate, ask: Ask, render: seq<Entity> -> Json, key: string)
    requires gate.dir.Consistent()
    ensures Entry(w, gate, ask, render, key).peer == key
  {
  }

  /** Asking for several peers together gives each of them the entry that asking for it alone would have given. */
  method TogetherAndAlone(reg: R.Registry, tokens: T.TokenStore, router: F.Router, ask: Ask, limitPerPeer: int,
                          peers: seq<Json>, k: nat, render: seq<Entity> -> Json) returns (together: ToolResult, alone: ToolResult)
    requires reg.Valid() && router.Valid() && k < |peers|
    modifies router.store, router.resolver
    ensures router.Valid() && router.State() == old(router.State())
    ensures together.Entries? <==> ask.query.etype != "" && forall i :: 0 <= i < |peers| ==> peers[i].Str?
    ensures together.Entries? ==> |together.entries| == |peers| && alone == Entries([together.entries[k]])
  {
    hide CrossPeer;
    reg.ValidIsConsistent();
    together := HandleCrossPeerQuery(reg, tokens, router, ask, limitPerPeer, peers, render);
    ghost var limit := if limitPerPeer != 0 then limitPerPeer else ask.query.limit;
    Pointwise(router.State(), Gate(reg.contents, tokens.Contents(), tokens.hash), ask.(query := ask.query.(limit := limit)), render, peers);
    alone := HandleCrossPeerQuery(reg, tokens, router, ask, limitPerPeer, [peers[k]], render);
  }

  lemma {:induction false} ListedAreRows(rows: map<Id, Entity>, peer: Did, q: EntityQuery, jsonText: Json -> string)
    ensures var es := QueryEntities(rows, peer, q, jsonText);
      forall i :: 0 <= i < |es| ==> es[i] in rows.Values && es[i].peer == peer
  {
    var chosen := LiveRows(rows, peer, q, jsonText);
    var ids, es := NewestIds(chosen, q.limit), QueryEntities(rows, peer, q, jsonText);
    forall i | 0 <= i < |es| ensures es[i] in rows.Values && es[i].peer == peer {
      assert ids[i] in ids;
      assert es[i] == chosen[ids[i]];
    }
  }

  /** Entities are shown exactly for a registered peer whose name a token with the caller's hash covers, and then they
      are that peer's own listing: every one of them carries its DID, and no other peer's rows make a difference. */
  lemma EntitiesAreScoped(w: World, gate: Gate, ask: Ask, render: seq<Entity> -> Json, key: string)
    requires gate.dir.Consistent()
    ensures var e := Entry(w, gate, ask, render, key);
      && (e.outcome.Found? <==>
          && key != "" && ask.secret != "" && gate.dir.Find(key).Some? && gate.dir.Find(key).value in w.peers
          && T.Judge(gate.grants, gate.hash(ask.secret), gate.dir.names[gate.dir.Find(key).value]).Granted?)
      && (e.outcome.Found? ==> var did := gate.dir.Find(key).value; var name := gate.dir.names[did];
          && (exists g :: g in gate.grants && g.hash == gate.hash(ask.secret) && T.Covers(g, name))
          && exists es: seq<Entity> :: e.outcome.json == ProjectedJson(render(es), ask.fields) && (forall i :: 0 <= i < |es| ==> es[i].peer == did)
               && es == QueryEntities(Isolation.RowsOf(w.rows, did), did, ask.query, w.jsonText))
  {
    hide ProjectedJson, Step;
    var e := Entry(w, gate, ask, render, key);
    var found := gate.dir.Find(key);
    if found.Some? {
      QueriesReadOnly(w, found.value, ask.query);
    }
    if e.outcome.Found? {
      var did := found.value;
      T.LookupFinds(gate.grants, gate.hash(ask.secret));
      Isolation.QueryIsLocal(w, did, ask.query);
      ListedAreRows(w.rows, did, ask.query, w.jsonText);
      var es := QueryEntities(Isolation.RowsOf(w.rows, did), did, ask.query, w.jsonText);
      assert e.outcome.json == ProjectedJson(render(es), ask.fields);
    }
  }

  /** Grant `i` is the first one stored under the hash. */
  predicate FirstUnder(gs: seq<T.Grant>, hash: string, i: int) {
    0 <= i < |gs| && gs[i].hash == hash && forall j :: 0 <= j < i ==> gs[j].hash != hash
  }

  lemma {:induction false} LookupMeans(gs: seq<T.Grant>, hash: string)
    ensures match T.Lookup(gs, hash)
      case Some(g) => exists i :: FirstUnder(gs, hash, i) && gs[i] == g
      case None => forall i :: !FirstUnder(gs, hash, i)
  {
    if gs != [] {
      if gs[0].hash == hash {
        assert FirstUnder(gs, hash, 0);
      } else {
        var rest := gs[1..];
        LookupMeans(rest, hash);
        forall i | 0 < i < |gs| ensures FirstUnder(gs, hash, i) <==> FirstUnder(rest, hash, i - 1) {
          assert forall j :: 0 < j <= i ==> gs[j] == rest[j - 1];
        }
        if i :| FirstUnder(rest, hash, i) {
          assert FirstUnder(gs, hash, i + 1) && gs[i + 1] == rest[i];
        }
      }
    }
  }

  /** What the first grant under the caller's hash decides for a resolved peer: it must list the peer's name or "*", and the
      peer must be served. */
  ghost predicate Decided(w: World, gs: seq<T.Grant>, hash: string, did: Did, name: string, outcome: Outcome) {
    && ((forall i :: !FirstUnder(gs, hash, i)) ==> outcome == Refused(Unauthorized(T.UnknownToken)))
    && forall i :: FirstUnder(gs, hash, i) ==>
         if name !in gs[i].peers && "*" !in gs[i].peers then outcome == Refused(Unauthorized(T.NotCovered))
         else if did !in w.peers then outcome == Refused(RouteFailed(NoHandler))
         else outcome.Found?
  }

  /** Why an entry is refused: no key, a key that is neither a name nor a DID, no token, and then what the token decides. A
      key that is both a name and a DID means the name. */
  lemma WhyRefused(w: World, gate: Gate, ask: Ask, render: seq<Entity> -> Json, key: string)
    requires gate.dir.Consistent()
    ensures var outcome, dids, names := Entry(w, gate, ask, render, key).outcome, gate.dir.dids, gate.dir.names;
      if key == "" then outcome == Refused(PeerRequired)
      else if key !in dids && key !in names then outcome == Refused(UnknownPeer)
      else if ask.secret == "" then outcome == Refused(MissingToken)
      else
        var did := if key in dids then dids[key] else key;
        did in names && Decided(w, gate.grants, gate.hash(ask.secret), did, names[did], outcome)
  {
    hide ProjectedJson, Step, T.Lookup;
    var dids := gate.dir.dids;
    var did, hash := if key in dids then dids[key] else key, gate.hash(ask.secret);
    QueriesReadOnly(w, did, ask.query);
    LookupMeans(gate.grants, hash);
    forall i, j | FirstUnder(gate.grants, hash, i) && FirstUnder(gate.grants, hash, j) ensures i == j { }
  }
}
