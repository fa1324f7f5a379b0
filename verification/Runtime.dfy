/** Start-up, the adding of peers, and what a restart does to the types a run has defined. */
module Runtime {
  import opened Types
  import opened Sequences
  import opened Queries
  import opened Definitions
  import opened Requests
  import opened Shared
  import opened Isolation
  import opened Rehydration
  import Private
  import opened Contracts
  import F = Federation
  import S = Store

  // ---- What a restart does ----

  lemma NameIsDefined(c: Call)
    requires Defines(c)
    ensures DefinedType(c).name == NameOf(c) == StoredDef(c).name && Announced(c, DefinedType(c)) && KeptAs(c, StoredDef(c))
  {
  }

  lemma RehydrationIsLocal(w: World, peer: Did, k: Kind, seeds: seq<TypeDef>)
    ensures Rehydrated(w.rows, peer, k, seeds, w.jsonText) == Rehydrated(RowsOf(w.rows, peer), peer, k, seeds, w.jsonText)
  {
    QueryIsLocal(w, peer, DefinitionQuery(k));
  }

  /** What a start would now make of the types of a peer. */
  ghost function TypesAtStart(w: World, peer: Did, k: Kind, seeds: seq<TypeDef>): map<string, TypeDef> {
    Rehydrated(w.rows, peer, k, seeds, w.jsonText)
  }

  /** What the resolver holds of a peer. */
  function TypesNow(w: World, peer: Did, k: Kind): map<string, TypeDef> {
    KindTypes(ViewOf(w, peer), k)
  }

  /** The stored definitions of a peer's run. */
  ghost function DefsOf(w: World, calls: seq<Call>, peer: Did, k: Kind): seq<TypeDef> {
    StoredDefs(Definers(ViewOf(w, peer), CallsTo(calls, peer), k))
  }

  ghost function LiveOf(w: World, calls: seq<Call>, peer: Did, k: Kind, name: string): Option<TypeDef> {
    Live(ViewOf(w, peer), CallsTo(calls, peer), k, name)
  }

  /** A run of all peers, with peers joining, storage failures and restarts, that writes `peer`'s definition rows of the
      kind only by defining. */
  ghost predicate Proper(w: World, calls: seq<Call>, peer: Did, k: Kind) {
    Fresh(w) && Clocked(calls, NO_ID) && Addressed(calls) && peer != "" && Undisturbed(ViewOf(w, peer), CallsTo(calls, peer), k)
  }

  /** After any such run the resolver holds for each name the last definition heard since the last start, stored or not,
      or what that start recalled; the next start will recall the first of the newest fifty stored ones, or the seed. */
  lemma TypesAfterRun(w: World, calls: seq<Call>, peer: Did, k: Kind, seeds: seq<TypeDef>, name: string)
    requires Proper(w, calls, peer, k)
    ensures At(TypesNow(Exec(w, calls), peer, k), name) == LiveOf(w, calls, peer, k, name)
    ensures At(TypesAtStart(Exec(w, calls), peer, k, seeds), name) == Recalled(DefsOf(w, calls, peer, k), seeds, name)
  {
    hide Exec, Private.Exec, Undisturbed, Rehydrated, StoredDefs, Registered, Live, Definers, Recalled, Clocked;
    var mine, v, u := CallsTo(calls, peer), ViewOf(w, peer), Exec(w, calls);
    RunRefines(w, calls, peer, NO_ID);
    CallsToClocked(calls, peer, NO_ID);
    CallsToTarget(calls, peer);
    RunLive(v, mine, k, name);
    RunRecalls(v, mine, k, seeds, name);
    RehydrationIsLocal(u, peer, k, seeds);
    Private.ExecKeeps(v, mine);
  }

  /** Name by name, the run gives the resolver what a start would recall. */
  ghost predicate Recoverable(w: World, calls: seq<Call>, peer: Did, k: Kind, seeds: seq<TypeDef>) {
    forall name :: LiveOf(w, calls, peer, k, name) == Recalled(DefsOf(w, calls, peer, k), seeds, name)
  }

  /** A restart after any run restores exactly the live types if and only if each name's last definition since the last
      start is the first of the newest fifty stored ones, or its seed. */
  lemma RestartRestoresTypes(w: World, calls: seq<Call>, peer: Did, k: Kind, seeds: seq<TypeDef>)
    requires Proper(w, calls, peer, k)
    ensures TypesAtStart(Exec(w, calls), peer, k, seeds) == TypesNow(Exec(w, calls), peer, k)
       <==> Recoverable(w, calls, peer, k, seeds)
  {
    hide Proper, Exec, TypesAtStart, TypesNow, LiveOf, Recalled, DefsOf;
    var a, b := TypesAtStart(Exec(w, calls), peer, k, seeds), TypesNow(Exec(w, calls), peer, k);
    if a == b {
      forall name ensures LiveOf(w, calls, peer, k, name) == Recalled(DefsOf(w, calls, peer, k), seeds, name) {
        TypesAfterRun(w, calls, peer, k, seeds, name);
      }
    }
    if Recoverable(w, calls, peer, k, seeds) {
      forall name ensures At(a, name) == At(b, name) { TypesAfterRun(w, calls, peer, k, seeds, name); }
      SameTypes(a, b);
    }
  }

  lemma SameTypes(a: map<string, TypeDef>, b: map<string, TypeDef>)
    ensures (forall name :: At(a, name) == At(b, name)) ==> a == b
  {
    if forall name :: At(a, name) == At(b, name) {
      forall name ensures name in a <==> name in b
        ensures name in a && name in b ==> a[name] == b[name]
      {
        assert At(a, name) == At(b, name);
      }
    }
  }

  // ---- The first start after a run ----

  /** The row of a seed reads back as the seed: it names a peer, and it has a direction for relation types alone. */
  predicate SeedIsKept(k: Kind, seed: TypeDef) {
    seed.peer != "" && (seed.directional ==> k.RelationKind?)
  }

  /** No restart, and every definition of the kind stored as it was given. */
  predicate Undisrupted(calls: seq<Call>, k: Kind) {
    forall i :: 0 <= i < |calls| ==>
      !calls[i].req.Reopen? &&
      (Defines(calls[i]) && calls[i].req.kind == k ==>
         calls[i].fault.Works? && (calls[i].req.SeedType? ==> SeedIsKept(k, calls[i].req.def)))
  }

  lemma StoredAsGiven(c: Call, k: Kind)
    ensures Defines(c) && c.req.kind == k && (c.req.SeedType? ==> SeedIsKept(k, c.req.def)) ==> StoredDef(c) == DefinedType(c)
  {
  }

  lemma {:induction false} LiveIsLast(v: Private.View, calls: seq<Call>, k: Kind, name: string)
    requires KindTypes(v, k) == map[] && Undisrupted(calls, k)
    ensures Live(v, calls, k, name) == LastNamed(StoredDefs(Definers(v, calls, k)), name)
  {
    hide DefinedType, AsStored, Private.Exec, Defines;
    if calls != [] {
      var before, c := calls[..|calls| - 1], calls[|calls| - 1];
      StoredAsGiven(c, k);
      assert forall i :: 0 <= i < |before| ==> before[i] == calls[i];
      LiveIsLast(v, before, k, name);
      var ds := Definers(v, before, k);
      if Kept(Private.Exec(v, before), c, k) {
        assert StoredDefs(ds + [c]) == StoredDefs(ds) + [StoredDef(c)];
        LastNamedAppend(StoredDefs(ds), StoredDef(c), name);
      } else {
        assert ds + [] == ds;
      }
    }
  }

  predicate SeedsDefined(seeds: seq<TypeDef>, defs: seq<TypeDef>) {
    forall i :: 0 <= i < |seeds| ==> Named(defs, seeds[i].name)
  }

  /** The first definition of each name is also its last, up to equality. */
  ghost predicate NeverOverridden(defs: seq<TypeDef>) {
    forall name :: FirstNamed(defs, name) == LastNamed(defs, name)
  }

  /** What the first start needs: each name's last definition is the first of the newest fifty, or its seed. */
  ghost predicate LastRecalled(defs: seq<TypeDef>, seeds: seq<TypeDef>) {
    forall name :: LastNamed(defs, name) == Recalled(defs, seeds, name)
  }

  /** The first start after a peer joined restores its types exactly when the last definition of each name is the first
      of the newest fifty, or its seed. */
  lemma FirstRestart(w: World, calls: seq<Call>, peer: Did, k: Kind, seeds: seq<TypeDef>)
    requires Proper(w, calls, peer, k) && Undisrupted(CallsTo(calls, peer), k) && TypesNow(w, peer, k) == map[]
    ensures TypesAtStart(Exec(w, calls), peer, k, seeds) == TypesNow(Exec(w, calls), peer, k)
       <==> LastRecalled(DefsOf(w, calls, peer, k), seeds)
  {
    hide Proper, Exec, TypesAtStart, Recalled, Live, Definers, LastNamed, Undisrupted;
    RestartRestoresTypes(w, calls, peer, k, seeds);
    var defs := DefsOf(w, calls, peer, k);
    forall name ensures LiveOf(w, calls, peer, k, name) == LastNamed(defs, name) {
      LiveIsLast(ViewOf(w, peer), CallsTo(calls, peer), k, name);
    }
    if Recoverable(w, calls, peer, k, seeds) {
      forall name ensures LastNamed(defs, name) == Recalled(defs, seeds, name) {
        assert LiveOf(w, calls, peer, k, name) == Recalled(defs, seeds, name);
      }
    }
    if LastRecalled(defs, seeds) {
      forall name ensures LiveOf(w, calls, peer, k, name) == Recalled(defs, seeds, name) {
        assert LastNamed(defs, name) == Recalled(defs, seeds, name);
      }
    }
  }

  lemma FewDefinitions(defs: seq<TypeDef>, seeds: seq<TypeDef>, name: string)
    requires |defs| <= 50 && SeedsDefined(seeds, defs)
    ensures Recalled(defs, seeds, name) == FirstNamed(defs, name)
  {
    NamedIffMember(defs, name);
    NamedIffMember(seeds, name);
  }

  /** Up to fifty definitions, seeds among them, it restores the types exactly when no name was ever overridden by a
      different definition. */
  lemma FirstRestartOfFew(w: World, calls: seq<Call>, peer: Did, k: Kind, seeds: seq<TypeDef>)
    requires Proper(w, calls, peer, k) && Undisrupted(CallsTo(calls, peer), k) && TypesNow(w, peer, k) == map[]
    requires |DefsOf(w, calls, peer, k)| <= 50 && SeedsDefined(seeds, DefsOf(w, calls, peer, k))
    ensures TypesAtStart(Exec(w, calls), peer, k, seeds) == TypesNow(Exec(w, calls), peer, k)
       <==> NeverOverridden(DefsOf(w, calls, peer, k))
  {
    hide Proper, Exec, TypesAtStart, TypesNow, Recalled, FirstNamed, LastNamed, DefsOf, Undisrupted, SeedsDefined;
    FirstRestart(w, calls, peer, k, seeds);
    OverriddenIsUnrecalled(DefsOf(w, calls, peer, k), seeds);
  }

  lemma OverriddenIsUnrecalled(defs: seq<TypeDef>, seeds: seq<TypeDef>)
    requires |defs| <= 50 && SeedsDefined(seeds, defs)
    ensures LastRecalled(defs, seeds) <==> NeverOverridden(defs)
  {
    hide Recalled, FirstNamed, LastNamed, SeedsDefined;
    if LastRecalled(defs, seeds) {
      forall name ensures FirstNamed(defs, name) == LastNamed(defs, name) {
        FewDefinitions(defs, seeds, name);
        assert LastNamed(defs, name) == Recalled(defs, seeds, name);
      }
    }
    if NeverOverridden(defs) {
      forall name ensures LastNamed(defs, name) == Recalled(defs, seeds, name) {
        FewDefinitions(defs, seeds, name);
        assert FirstNamed(defs, name) == LastNamed(defs, name);
      }
    }
  }

  lemma {:induction false} FirstIsLast(defs: seq<TypeDef>, name: string)
    requires forall i, j :: 0 <= i < j < |defs| ==> defs[i].name != defs[j].name
    ensures FirstNamed(defs, name) == LastNamed(defs, name)
  {
    if defs != [] {
      hide FirstNamed, LastNamed;
      var init, last := defs[..|defs| - 1], defs[|defs| - 1];
      assert defs == init + [last];
      FirstIsLast(init, name);
      FirstNamedAppend(init, last, name);
      LastNamedAppend(init, last, name);
      NamedIffMember(init, name);
    }
  }

  // ---- What a restart loses ----

  lemma CallsToLast(before: seq<Call>, c: Call, peer: Did)
    requires c.target == peer
    ensures CallsTo(before + [c], peer) == CallsTo(before, peer) + [c]
  {
    assert (before + [c])[..|before|] == before;
  }

  lemma LastHeard(v: Private.View, before: seq<Call>, c: Call, k: Kind)
    requires Defines(c) && c.req.kind == k && Private.Exec(v, before).registered
    ensures Live(v, before + [c], k, DefinedType(c).name) == Some(DefinedType(c))
    ensures Definers(v, before + [c], k) == Definers(v, before, k) + if c.fault.Works? then [c] else []
  {
    hide Private.Exec, DefinedType;
    assert (before + [c])[..|before|] == before;
  }

  /** A definition whose storage failed lives on in the resolver alone: unless its name is stored or seeded otherwise,
      the next start has never heard of it. */
  lemma UnstoredIsForgotten(w: World, before: seq<Call>, c: Call, peer: Did, k: Kind, seeds: seq<TypeDef>)
    requires Proper(w, before + [c], peer, k)
    requires c.target == peer && Defines(c) && c.req.kind == k && !c.fault.Works?
    requires Private.Exec(ViewOf(w, peer), CallsTo(before, peer)).registered
    ensures var name, u := NameOf(c), Exec(w, before + [c]);
      && name in TypesNow(u, peer, k) && Announced(c, TypesNow(u, peer, k)[name])
      && At(TypesAtStart(u, peer, k, seeds), name) == Recalled(DefsOf(w, before, peer, k), seeds, name)
      && (!Named(Latest(DefsOf(w, before, peer, k)), name) && !Named(seeds, name) ==> name !in TypesAtStart(u, peer, k, seeds))
  {
    hide Proper, Exec, Private.Exec, TypesAtStart, TypesNow, DefinedType, Live, Definers, FirstNamed, LastNamed, Named;
    var name := NameOf(c);
    NameIsDefined(c);
    TypesAfterRun(w, before + [c], peer, k, seeds, name);
    CallsToLast(before, c, peer);
    LastHeard(ViewOf(w, peer), CallsTo(before, peer), c, k);
    assert Definers(ViewOf(w, peer), CallsTo(before, peer), k) + [] == Definers(ViewOf(w, peer), CallsTo(before, peer), k);
    NamedIffMember(Latest(DefsOf(w, before, peer, k)), name);
    NamedIffMember(seeds, name);
  }

  lemma TwoDefinitions(ds: seq<Call>, c: Call, d: Call, k: Kind, seeds: seq<TypeDef>)
    requires AllDefine(ds, k) && Defines(c) && Defines(d) && StoredDef(c).name == StoredDef(d).name
    requires |ds| + 2 <= 50 && !Named(StoredDefs(ds), StoredDef(c).name)
    ensures Recalled(StoredDefs(ds + [c] + [d]), seeds, StoredDef(c).name) == Some(StoredDef(c))
  {
    hide StoredDef, FirstNamed, Named;
    var defs := StoredDefs(ds);
    assert StoredDefs(ds + [c] + [d]) == defs + [StoredDef(c)] + [StoredDef(d)];
    NamedIffMember(defs, StoredDef(c).name);
    FirstNamedAppend(defs, StoredDef(c), StoredDef(c).name);
    FirstNamedAppend(defs + [StoredDef(c)], StoredDef(d), StoredDef(c).name);
  }

  /** A type defined for the first time and then redefined goes back to its first definition at the next start, in any run
      that has stored few enough definitions. */
  lemma RedefinitionIsForgotten(w: World, before: seq<Call>, c: Call, d: Call, peer: Did, k: Kind, seeds: seq<TypeDef>)
    requires Proper(w, before + [c] + [d], peer, k)
    requires c.req.TypeDefine? && c.req.kind == k && c.target == peer && c.fault.Works?
    requires d.req.TypeDefine? && d.req.kind == k && d.target == peer && d.fault.Works?
    requires d.req.name == c.req.name && !Named(DefsOf(w, before, peer, k), c.req.name)
    requires |DefsOf(w, before, peer, k)| + 2 <= 50
    requires Private.Exec(ViewOf(w, peer), CallsTo(before, peer)).registered
    ensures var u := Exec(w, before + [c] + [d]);
      && c.req.name in TypesNow(u, peer, k) && Declared(d, TypesNow(u, peer, k)[c.req.name])
      && c.req.name in TypesAtStart(u, peer, k, seeds) && Declared(c, TypesAtStart(u, peer, k, seeds)[c.req.name])
  {
    hide Exec, Private.Exec, Private.Step, TypesAtStart, TypesNow, Live, Definers, Named, Undisturbed, Clocked, Recalled;
    var v, mine := ViewOf(w, peer), CallsTo(before, peer);
    TypesAfterRun(w, before + [c] + [d], peer, k, seeds, c.req.name);
    CallsToLast(before, c, peer);
    CallsToLast(before + [c], d, peer);
    LastHeard(v, mine, c, k);
    StaysServed(v, mine, c);
    LastHeard(v, mine + [c], d, k);
    assert StoredDef(c) == DefinedType(c);
    TwoDefinitions(Definers(v, mine, k), c, d, k, seeds);
  }

  lemma StaysServed(v: Private.View, calls: seq<Call>, c: Call)
    requires c.req.TypeDefine? && Private.Exec(v, calls).registered
    ensures Private.Exec(v, calls + [c]).registered
  {
    hide Private.Define, Private.Create, Private.Update, Private.Archive, Private.Relate, Private.Dissolve, Private.Read, Private.Restart;
    assert (calls + [c])[..|calls|] == calls;
    DefinitionServed(Private.Exec(v, calls), c);
  }

  lemma DefinitionServed(v: Private.View, c: Call)
    requires Defines(c)
    ensures Private.Define(v, c).0.registered == v.registered
  {
    hide DefinitionEntity, DefinitionEvent, DefinedType;
  }

  // ---- Start-up ----

  function KindMap(r: F.Resolver, k: Kind): map<Did, map<string, TypeDef>>
    reads r
  {
    if k.EntityKind? then r.etypes else r.rtypes
  }

  /** The other kind of type, and the types of other peers. */
  twostate predicate OthersKept(r: F.Resolver, k: Kind, peer: Did)
    reads r
  {
    && (forall j :: j != k ==> KindMap(r, j) == old(KindMap(r, j)))
    && (forall d :: d != peer ==> TypesOf(KindMap(r, k), d) == TypesOf(old(KindMap(r, k)), d))
  }

  method Register(r: F.Resolver, peer: Did, k: Kind, def: TypeDef)
    modifies r
    ensures KindMap(r, k) == old(KindMap(r, k))[peer := TypesOf(old(KindMap(r, k)), peer)[def.name := def]]
    ensures OthersKept(r, k, peer)
  {
    if k.EntityKind? {
      r.RegisterEntityType(peer, def);
    } else {
      r.RegisterRelationType(peer, def);
    }
  }

  method RegisterSeeds(r: F.Resolver, peer: Did, k: Kind, seeds: seq<TypeDef>)
    modifies r
    ensures TypesOf(KindMap(r, k), peer) == Registered(TypesOf(old(KindMap(r, k)), peer), seeds)
    ensures OthersKept(r, k, peer)
  {
    for i := 0 to |seeds|
      invariant TypesOf(KindMap(r, k), peer) == Registered(TypesOf(old(KindMap(r, k)), peer), seeds[..i])
      invariant OthersKept(r, k, peer)
    {
      assert seeds[..i + 1][..i] == seeds[..i];
      Register(r, peer, k, seeds[i]);
    }
    assert seeds[..|seeds|] == seeds;
  }

  /** Every stored definition is registered as the listing gives it; rows that hold no definition are passed over. */
  method RegisterStored(r: F.Resolver, store: S.Store, peer: Did, k: Kind)
    modifies r
    ensures TypesOf(KindMap(r, k), peer) ==
      Registered(TypesOf(old(KindMap(r, k)), peer), Decoded(k, QueryEntities(store.rows, peer, DefinitionQuery(k), store.jsonText)))
    ensures OthersKept(r, k, peer)
  {
    hide QueryEntities, DecodeDefinition, Decoded, Registered;
    var ents := store.QueryEntities(peer, DefinitionQuery(k));
    ghost var base := TypesOf(KindMap(r, k), peer);
    NothingRegistered(base, k);
    for i := 0 to |ents|
      invariant TypesOf(KindMap(r, k), peer) == Registered(base, Decoded(k, ents[..i]))
      invariant OthersKept(r, k, peer)
    {
      DecodedNext(k, ents, i);
      var def := DecodeDefinition(k, ents[i]);
      if def.Some? {
        RegisteredAppend(base, Decoded(k, ents[..i]), def.value);
        Register(r, peer, k, def.value);
      } else {
        assert Decoded(k, ents[..i]) + [] == Decoded(k, ents[..i]);
      }
    }
    assert ents[..|ents|] == ents;
  }

  lemma NothingRegistered(base: map<string, TypeDef>, k: Kind)
    ensures forall es: seq<Entity> :: es == [] ==> Registered(base, Decoded(k, es)) == base
  {
  }

  method RehydratePeer(r: F.Resolver, store: S.Store, peer: Did, seeds: (Kind, Did) -> seq<TypeDef>)
    requires TypesOf(r.etypes, peer) == map[] && TypesOf(r.rtypes, peer) == map[]
    modifies r
    ensures forall k :: TypesOf(KindMap(r, k), peer) == Rehydrated(store.rows, peer, k, seeds(k, peer), store.jsonText)
    ensures forall k, d :: d != peer ==> TypesOf(KindMap(r, k), d) == TypesOf(old(KindMap(r, k)), d)
  {
    hide Registered, Decoded, QueryEntities;
    RegisterSeeds(r, peer, EntityKind, seeds(EntityKind, peer));
    RegisterSeeds(r, peer, RelationKind, seeds(RelationKind, peer));
    RegisterStored(r, store, peer, EntityKind);
    RegisterStored(r, store, peer, RelationKind);
    assert TypesOf(KindMap(r, EntityKind), peer) == Rehydrated(store.rows, peer, EntityKind, seeds(EntityKind, peer), store.jsonText);
    assert TypesOf(KindMap(r, RelationKind), peer) == Rehydrated(store.rows, peer, RelationKind, seeds(RelationKind, peer), store.jsonText);
  }

  predicate ProperPeers(peers: seq<Did>) {
    "" !in peers && forall i, j :: 0 <= i < j < |peers| ==> peers[i] != peers[j]
  }

  /** The listed peers with their seed types. */
  function Listed(peers: seq<Did>, seeds: (Kind, Did) -> seq<TypeDef>): map<Did, Seeds> {
    map d | d in peers :: Seeds(seeds(EntityKind, d), seeds(RelationKind, d))
  }

  /** A world with the tables of another, a handler for each listed peer and rebuilt types shows every peer a restart. */
  lemma StartedView(u: World, w: World, peers: seq<Did>, seeds: (Kind, Did) -> seq<TypeDef>, d: Did)
    requires ProperPeers(peers) && u.log == w.log && u.rows == w.rows && u.rels == w.rels && u.jsonText == w.jsonText
    requires forall p :: p in u.peers <==> p in peers
    requires TypesOf(u.etypes, d) == if d in peers then Rehydrated(w.rows, d, EntityKind, seeds(EntityKind, d), w.jsonText) else map[]
    requires TypesOf(u.rtypes, d) == if d in peers then Rehydrated(w.rows, d, RelationKind, seeds(RelationKind, d), w.jsonText) else map[]
    ensures ViewOf(u, d) == ViewOf(Restart(w, Listed(peers, seeds)).0, d)
  {
    hide Rehydrated, RowsOf, RelsOf;
    var r := Restart(w, Listed(peers, seeds)).0;
    assert TypesOf(r.etypes, d) == TypesOf(u.etypes, d);
    assert TypesOf(r.rtypes, d) == TypesOf(u.rtypes, d);
  }

  /** Open the data directory: a resolver rebuilt from the store, and a handler for every listed peer. For every peer this is
      a restart on the tables as they are. */
  method Setup(peers: seq<Did>, store: S.Store, seeds: (Kind, Did) -> seq<TypeDef>)
    returns (ok: bool, router: F.Router, resolver: F.Resolver)
    ensures fresh(router) && fresh(resolver) && router.Valid() && router.store == store && router.resolver == resolver
    ensures ok <==> ProperPeers(peers)
    ensures ok ==> forall d :: d in router.handlers <==> d in peers
    ensures ok ==> forall d, k :: d in peers ==> TypesOf(KindMap(resolver, k), d) == Rehydrated(store.rows, d, k, seeds(k, d), store.jsonText)
    ensures ok ==> forall w: World, d ::
      w.log == store.log && w.rows == store.rows && w.rels == store.rels && w.jsonText == store.jsonText ==>
        ViewOf(router.State(), d) == ViewOf(Restart(w, Listed(peers, seeds)).0, d)
  {
    hide Rehydrated;
    resolver := new F.Resolver();
    router := new F.Router(store, resolver);
    for i := 0 to |peers|
      invariant router.Valid() && fresh(router) && fresh(resolver) && router.store == store && router.resolver == resolver
      invariant ProperPeers(peers[..i])
      invariant forall d :: d in router.handlers <==> d in peers[..i]
      invariant forall d, k :: d in peers[..i] ==> TypesOf(KindMap(resolver, k), d) == Rehydrated(store.rows, d, k, seeds(k, d), store.jsonText)
      invariant forall d, k :: d !in peers[..i] ==> TypesOf(KindMap(resolver, k), d) == map[]
    {
      var p := peers[i];
      assert peers[..i + 1] == peers[..i] + [p];
      if p in peers[..i] || p == "" {
        return false, router, resolver;
      }
      assert TypesOf(KindMap(resolver, EntityKind), p) == map[] && TypesOf(KindMap(resolver, RelationKind), p) == map[];
      RehydratePeer(resolver, store, p, seeds);
      var h := new F.StoreHandler(p, store, resolver);
      var registered := router.RegisterPeer(p, h);
      assert registered;
    }
    assert peers[..|peers|] == peers;
    ghost var u := router.State();
    forall w: World, d | w.log == store.log && w.rows == store.rows && w.rels == store.rels && w.jsonText == store.jsonText
      ensures ViewOf(u, d) == ViewOf(Restart(w, Listed(peers, seeds)).0, d)
    {
      assert TypesOf(KindMap(resolver, EntityKind), d) == if d in peers then Rehydrated(w.rows, d, EntityKind, seeds(EntityKind, d), w.jsonText) else map[];
      assert TypesOf(KindMap(resolver, RelationKind), d) == if d in peers then Rehydrated(w.rows, d, RelationKind, seeds(RelationKind, d), w.jsonText) else map[];
      StartedView(u, w, peers, seeds, d);
    }
    return true, router, resolver;
  }

  /** Adding a peer is the run of its seeding calls, one for each seed type, and then of its registration; it fails at the
      first of them that fails, and what was done until then stays. */
  method AddPeer(router: F.Router, did: Did, seeding: seq<Call>, join: Call) returns (ok: bool)
    requires router.Valid() && join.req.Join? && join.target == did
    requires forall i :: 0 <= i < |seeding| ==> seeding[i].req.SeedType? && seeding[i].target == did
    modifies router, router.store, router.resolver
    ensures router.Valid()
    ensures ok <==> var w := old(router.State()); var calls := seeding + [join];
      forall i :: 0 <= i < |calls| ==> !Step(Exec(w, calls[..i]), calls[i]).1.Failed?
    ensures var w := old(router.State()); var calls := seeding + [join];
      if ok then router.State() == Exec(w, calls)
      else exists n :: 0 <= n < |calls| && Step(Exec(w, calls[..n]), calls[n]).1.Failed? && router.State() == Exec(w, calls[..n + 1])
  {
    hide OpTypeDefine, QueryEntities, Exec, Step;
    ghost var w, calls := router.State(), seeding + [join];
    var h := new F.StoreHandler(did, router.store, router.resolver);
    assert router.State() == Exec(w, calls[..0]) by { ExecNothing(w, calls); }
    for i := 0 to |seeding|
      invariant router.Valid() && router.handlers == old(router.handlers)
      invariant router.State() == Exec(w, calls[..i])
      invariant forall j :: 0 <= j < i ==> !Step(Exec(w, calls[..j]), calls[j]).1.Failed?
    {
      assert calls[i] == seeding[i];
      ExecNext(w, calls, i);
      SeedingStep(Exec(w, calls[..i]), calls[i]);
      var reply := h.OpTypeDefine(seeding[i], router.handlers.Keys);
      if reply.Failed? {
        return false;
      }
    }
    ghost var n := |seeding|;
    assert calls[n] == join && calls[..n + 1] == calls;
    ExecNext(w, calls, n);
    JoiningStep(Exec(w, calls[..n]), join);
    ok := router.RegisterPeer(did, h);
  }

  lemma ExecNothing(w: World, calls: seq<Call>)
    ensures Exec(w, calls[..0]) == w
  {
  }

  lemma ExecNext(w: World, calls: seq<Call>, i: nat)
    requires i < |calls|
    ensures Exec(w, calls[..i + 1]) == Step(Exec(w, calls[..i]), calls[i]).0
  {
    assert calls[..i + 1][..i] == calls[..i];
  }

  lemma SeedingStep(w: World, c: Call)
    requires c.req.SeedType?
    ensures Step(w, c) == OpTypeDefine(w, c)
  {
    hide OpTypeDefine;
  }

  lemma JoiningStep(w: World, c: Call)
    requires c.req.Join?
    ensures Step(w, c) == Shared.Register(w, c.target)
  {
  }
}
