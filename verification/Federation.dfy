/** The handler and router objects: each operation appends to the log and then overwrites a
    row, in the order the code does, and is proved to be a step of the shared machine. */
module Federation {
  import opened Types
  import opened Requests
  import opened EventLog
  import opened Shared
  import opened Texts
  import Queries
  import S = Store

  /** The in-memory registry of type definitions, keyed by peer and then by name. */
  class Resolver {
    var etypes: map<Did, map<string, TypeDef>>
    var rtypes: map<Did, map<string, TypeDef>>

    constructor ()
      ensures etypes == map[] && rtypes == map[]
    {
      etypes, rtypes := map[], map[];
    }

    method RegisterEntityType(peer: Did, def: TypeDef)
      modifies this`etypes
      ensures etypes == old(etypes)[peer := TypesOf(old(etypes), peer)[def.name := def]]
    {
      if peer !in etypes { etypes := etypes[peer := map[]]; }
      etypes := etypes[peer := etypes[peer][def.name := def]];
    }

    method RegisterRelationType(peer: Did, def: TypeDef)
      modifies this`rtypes
      ensures rtypes == old(rtypes)[peer := TypesOf(old(rtypes), peer)[def.name := def]]
    {
      if peer !in rtypes { rtypes := rtypes[peer := map[]]; }
      rtypes := rtypes[peer := rtypes[peer][def.name := def]];
    }

    method EntityType(peer: Did, name: string) returns (def: Option<TypeDef>)
      ensures def == if name in TypesOf(etypes, peer) then Some(TypesOf(etypes, peer)[name]) else None
    {
      def := if peer in etypes && name in etypes[peer] then Some(etypes[peer][name]) else None;
    }

    method RelationType(peer: Did, name: string) returns (def: Option<TypeDef>)
      ensures def == if name in TypesOf(rtypes, peer) then Some(TypesOf(rtypes, peer)[name]) else None
    {
      def := if peer in rtypes && name in rtypes[peer] then Some(rtypes[peer][name]) else None;
    }

    method EntityTypes(peer: Did) returns (out: seq<TypeDef>)
      ensures out == Queries.ByName(TypesOf(etypes, peer))
    {
      out := SortByName(TypesOf(etypes, peer));
    }

    method RelationTypes(peer: Did) returns (out: seq<TypeDef>)
      ensures out == Queries.ByName(TypesOf(rtypes, peer))
    {
      out := SortByName(TypesOf(rtypes, peer));
    }
  }

  /** Collect the definitions of a map, ordered by name. */
  method SortByName(types: map<string, TypeDef>) returns (out: seq<TypeDef>)
    ensures out == Queries.ByName(types)
  {
    var names := SortTexts(types.Keys);
    out := [];
    for i := 0 to |names|
      invariant |out| == i && forall j :: 0 <= j < i ==> out[j] == types[names[j]]
    {
      out := out + [types[names[i]]];
    }
  }

  /** Defaults are written into the caller's map as the fields are visited; a nil map is
      replaced by a local one, so its defaults are lost. */
  method ValidateEntity(def: TypeDef, fields: Option<Data>) returns (filled: Option<Data>, ok: bool)
    ensures (filled, ok) == Validated(def, fields)
  {
    var data := DataOr(fields);
    ok := true;
    for i := 0 to |def.fields|
      invariant Validate(def.fields, DataOr(fields)).0 == Validate(def.fields[i..], data).0
      invariant Validate(def.fields, DataOr(fields)).1 <==> ok && Validate(def.fields[i..], data).1
    {
      var f := def.fields[i];
      assert def.fields[i..][1..] == def.fields[i + 1..];
      if f.name !in data {
        if !f.default.Null? {
          data := data[f.name := f.default];
        } else if f.required {
          ok := false;
        }
      }
    }
    filled := if fields.None? then None else Some(data);
  }

  /** Copy the changed fields over the current ones, in any order. */
  method MergeFields(current: Data, changes: Data) returns (data: Data)
    ensures data == current + changes
  {
    data := current;
    var todo := changes.Keys;
    while todo != {}
      invariant todo <= changes.Keys
      invariant data == current + map k | k in changes && k !in todo :: changes[k]
      decreases |todo|
    {
      var k :| k in todo;
      data := data[k := changes[k]];
      todo := todo - {k};
    }
  }

  class StoreHandler {
    const peer: Did
    const store: S.Store
    const resolver: Resolver

    constructor (peer: Did, store: S.Store, resolver: Resolver)
      ensures this.peer == peer && this.store == store && this.resolver == resolver
    {
      this.peer, this.store, this.resolver := peer, store, resolver;
    }

    /** The shared state this handler works on, among the given registered peers. */
    ghost function State(peers: set<Did>): World
      reads store, resolver
    {
      store.Tables(peers, resolver.etypes, resolver.rtypes)
    }

    method OpEntityCreate(c: Call, ghost peers: set<Did>) returns (reply: Reply)
      requires c.req.EntityCreate? && c.target == peer
      modifies store, resolver
      ensures (State(peers), reply) == Shared.OpEntityCreate(old(State(peers)), c)
    {
      var def := resolver.EntityType(peer, c.req.etype);
      if def.None? { return Failed(UnknownType); }
      var data, valid := ValidateEntity(def.value, c.req.fields);
      if !valid { return Failed(Invalid); }
      var author, client := Fallback(c.req.author, c.source, peer), Fallback(c.req.client, "federation", "");
      var e := Entity(c.id1, c.req.etype, peer, c.now, author, client, c.now, None, data);
      var ev := Event(c.id2, peer, EntityCreated, EntityPayload(e), c.now, author, client);
      var ok := store.AppendEvent(ev, c.fault.AppendFails?);
      if !ok { return Failed(AppendError); }
      ok := store.UpsertEntity(e, c.fault.WriteFails?);
      if !ok { return Failed(WriteError); }
      return EntityReply(e);
    }

    method OpEntityUpdate(c: Call, ghost peers: set<Did>) returns (reply: Reply)
      requires c.req.EntityUpdate? && c.target == peer
      modifies store, resolver
      ensures (State(peers), reply) == Shared.OpEntityUpdate(old(State(peers)), c)
    {
      var got := store.GetEntity(peer, c.req.id);
      if got.None? { return Panicked; }  // the missing row is dereferenced
      var cur := got.value;
      if cur.data.None? { cur := cur.(data := Some(map[])); }
      var data := MergeFields(cur.data.value, c.req.changes);
      cur := cur.(data := Some(data), updatedAt := c.now);
      var author, client := Fallback(c.req.author, c.source, peer), Fallback(c.req.client, "federation", "");
      var ev := Event(c.id1, peer, EntityUpdated, EntityPayload(cur), c.now, author, client);
      var ok := store.AppendEvent(ev, c.fault.AppendFails?);
      if !ok { return Failed(AppendError); }
      ok := store.UpsertEntity(cur, c.fault.WriteFails?);
      if !ok { return Failed(WriteError); }
      return EntityReply(cur);
    }

    method OpEntityArchive(c: Call, ghost peers: set<Did>) returns (reply: Reply)
      requires c.req.EntityArchive? && c.target == peer
      modifies store, resolver
      ensures (State(peers), reply) == Shared.OpEntityArchive(old(State(peers)), c)
    {
      var author, client := Fallback(c.req.author, c.source, peer), Fallback(c.req.client, "federation", "");
      var ev := Event(c.id1, peer, EntityArchived, ArchivePayload(c.req.id, c.now), c.now, author, client);
      var ok := store.AppendEvent(ev, c.fault.AppendFails?);
      if !ok { return Failed(AppendError); }
      ok := store.ArchiveEntity(peer, c.req.id, c.now, c.fault.WriteFails?);
      if !ok { return Failed(WriteError); }
      return StampReply(c.req.id, c.now);
    }

    method OpRelationCreate(c: Call, ghost peers: set<Did>) returns (reply: Reply)
      requires c.req.RelationCreate? && c.target == peer
      modifies store, resolver
      ensures (State(peers), reply) == Shared.OpRelationCreate(old(State(peers)), c)
    {
      var def := resolver.RelationType(peer, c.req.rtype);
      if def.None? { return Failed(UnknownType); }
      var author, client := Fallback(c.req.author, c.source, peer), Fallback(c.req.client, "federation", "");
      var r := Relation(c.id1, c.req.from, c.req.to, c.req.rtype, peer, c.now, author, client, c.req.rdata);
      var ev := Event(c.id2, peer, RelationCreated, RelationPayload(r), c.now, author, client);
      var ok := store.AppendEvent(ev, c.fault.AppendFails?);
      if !ok { return Failed(AppendError); }
      ok := store.UpsertRelation(r, c.fault.WriteFails?);
      if !ok { return Failed(WriteError); }
      return RelationReply(r);
    }

    method OpRelationDissolve(c: Call, ghost peers: set<Did>) returns (reply: Reply)
      requires c.req.RelationDissolve? && c.target == peer
      modifies store, resolver
      ensures (State(peers), reply) == Shared.OpRelationDissolve(old(State(peers)), c)
    {
      var author, client := Fallback(c.req.author, c.source, peer), Fallback(c.req.client, "federation", "");
      var ev := Event(c.id1, peer, RelationDissolved, DissolvePayload(c.req.id, c.now), c.now, author, client);
      var ok := store.AppendEvent(ev, c.fault.AppendFails?);
      if !ok { return Failed(AppendError); }
      ok := store.DissolveRelation(peer, c.req.id, c.fault.WriteFails?);
      if !ok { return Failed(WriteError); }
      return StampReply(c.req.id, c.now);
    }

    /** type.define, and the seeding of a new peer's types: the resolver learns the type
        before anything is stored. */
    method OpTypeDefine(c: Call, ghost peers: set<Did>) returns (reply: Reply)
      requires Defines(c) && c.target == peer
      modifies store, resolver
      ensures (State(peers), reply) == Shared.OpTypeDefine(old(State(peers)), c)
    {
      var kind, def := c.req.kind, DefinedType(c);
      if kind.RelationKind? {
        resolver.RegisterRelationType(peer, def);
      } else {
        resolver.RegisterEntityType(peer, def);
      }
      var e, ev := DefinitionEntity(c), DefinitionEvent(c);
      var ok := store.AppendEvent(ev, c.fault.AppendFails?);
      if !ok { return Failed(AppendError); }
      ok := store.UpsertEntity(e, c.fault.WriteFails?);
      if !ok { return Failed(WriteError); }
      return TypeReply(def);
    }

    method OpEntityGet(id: Id, ghost peers: set<Did>) returns (reply: Reply)
      ensures var got := Shared.GetEntity(State(peers), peer, id);
        reply == if got.Some? then EntityReply(got.value) else NoEntity
    {
      var got := store.GetEntity(peer, id);
      reply := if got.Some? then EntityReply(got.value) else NoEntity;
    }

    /** Both lists are ordered by name. */
    method OpTypeList() returns (reply: Reply)
      ensures reply == TypesReply(Queries.ByName(TypesOf(resolver.etypes, peer)), Queries.ByName(TypesOf(resolver.rtypes, peer)))
    {
      var etypes := resolver.EntityTypes(peer);
      var rtypes := resolver.RelationTypes(peer);
      reply := TypesReply(etypes, rtypes);
    }

    method OpTypeDescribe(c: Call, ghost peers: set<Did>) returns (reply: Reply)
      requires c.target == peer && c.req.TypeDescribe?
      ensures reply == Shared.OpTypeDescribe(State(peers), c)
    {
      var def;
      if c.req.kind.RelationKind? {
        def := resolver.RelationType(peer, c.req.name);
      } else {
        def := resolver.EntityType(peer, c.req.name);
      }
      reply := if def.Some? then TypeReply(def.value) else Failed(UnknownType);
    }

    method OpQueries(c: Call, ghost peers: set<Did>) returns (reply: Reply)
      requires c.target == peer && (c.req.EntityList? || c.req.RelationList? || c.req.TimeTravelTo?)
      ensures reply == Shared.Read(State(peers), c)
    {
      hide Queries.TimeTravel, Queries.QueryEntities, Queries.QueryRelations;
      match c.req
      case EntityList(q) =>
        var es := store.QueryEntities(peer, q);
        return EntitiesReply(es);
      case RelationList(from, to, rtype, limit) =>
        var rs := store.QueryRelations(peer, from, to, rtype, limit);
        return RelationsReply(rs);
      case TimeTravelTo(q, asOf) =>
        var es := store.TimeTravelEntities(peer, q, asOf);
        return EntitiesReply(es);
    }

    method OpRead(c: Call, ghost peers: set<Did>) returns (reply: Reply)
      requires c.target == peer
      ensures reply == Shared.Read(State(peers), c)
    {
      hide Queries.TimeTravel, Queries.QueryEntities, Queries.QueryRelations, Queries.ByName, Shared.OpTypeDescribe, Shared.GetEntity;
      match c.req
      case EntityGet(id) => reply := OpEntityGet(id, peers);
      case TypeList => reply := OpTypeList();
      case TypeDescribe(_, _) => reply := OpTypeDescribe(c, peers);
      case EntityList(_) => reply := OpQueries(c, peers);
      case RelationList(_, _, _, _) => reply := OpQueries(c, peers);
      case TimeTravelTo(_, _) => reply := OpQueries(c, peers);
      case _ => reply := Failed(BadOp);
    }

    method Dispatch(c: Call, ghost peers: set<Did>) returns (reply: Reply)
      requires c.target == peer
      modifies store, resolver
      ensures (State(peers), reply) == Shared.Dispatch(old(State(peers)), c)
    {
      match c.req
      case EntityCreate(_, _, _, _) => reply := OpEntityCreate(c, peers);
      case EntityUpdate(_, _, _, _) => reply := OpEntityUpdate(c, peers);
      case EntityArchive(_, _, _) => reply := OpEntityArchive(c, peers);
      case RelationCreate(_, _, _, _, _, _) => reply := OpRelationCreate(c, peers);
      case RelationDissolve(_, _, _) => reply := OpRelationDissolve(c, peers);
      case TypeDefine(_, _, _, _, _, _, _) => reply := OpTypeDefine(c, peers);
      case SeedType(_, _, _) => reply := OpTypeDefine(c, peers);
      case _ => reply := OpRead(c, peers);
    }
  }

  /** The in-process router: one handler per registered DID, all on one store and resolver. */
  class Router {
    var handlers: map<Did, StoreHandler>
    const store: S.Store
    const resolver: Resolver

    constructor (store: S.Store, resolver: Resolver)
      ensures Valid() && handlers == map[] && this.store == store && this.resolver == resolver
    {
      handlers := map[];
      this.store, this.resolver := store, resolver;
    }

    ghost predicate Valid()
      reads this
    {
      "" !in handlers &&
      forall d :: d in handlers ==> handlers[d].peer == d && handlers[d].store == store && handlers[d].resolver == resolver
    }

    ghost function State(): World
      reads this, store, resolver
    {
      store.Tables(handlers.Keys, resolver.etypes, resolver.rtypes)
    }

    /** Registering succeeds once per non-empty DID, and is one step of the shared machine. */
    method RegisterPeer(did: Did, h: StoreHandler) returns (ok: bool)
      requires Valid() && h.peer == did && h.store == store && h.resolver == resolver
      modifies this`handlers
      ensures Valid()
      ensures ok <==> did != "" && did !in old(handlers)
      ensures handlers == if ok then old(handlers)[did := h] else old(handlers)
      ensures (State(), if ok then Joined else Failed(BadPeer)) == Shared.Register(old(State()), did)
    {
      ok := did != "" && did !in handlers;
      if ok {
        handlers := handlers[did := h];
        assert handlers.Keys == old(handlers.Keys) + {did};
      }
    }

    /** Routing a message is one step of the shared machine. */
    method Route(c: Call) returns (reply: Reply)
      requires Valid() && !c.req.SeedType? && !c.req.Join? && !c.req.Reopen?
      modifies store, resolver
      ensures Valid() && handlers == old(handlers)
      ensures (State(), reply) == Shared.Step(old(State()), c)
    {
      if c.target !in handlers {
        return Failed(NoHandler);
      }
      reply := handlers[c.target].Dispatch(c, handlers.Keys);
    }
  }
}
