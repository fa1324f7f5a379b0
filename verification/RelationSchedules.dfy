/** Which interleavings keep the relation table and the replay of relations in agreement. */
module RelationSchedules {
  import opened Types
  import opened Requests
  import opened EventLog
  import opened Ranking
  import opened Queries
  import opened Shared
  import opened Interleaving
  import opened Adequacy
  import opened Schedules
  import opened LostWrites
  import opened RelationReplay

  // ---- what replay shows ----

  predicate Relates(ev: Event, id: Id) {
    ev.etype.RelationCreated? && ev.payload.RelationPayload? && ev.payload.relation.id == id
  }

  predicate Dissolves(ev: Event, id: Id) {
    ev.etype.RelationDissolved? && ev.payload.DissolvePayload? && ev.payload.dissolvedId == id
  }

  predicate Regards(ev: Event, id: Id) {
    Relates(ev, id) || Dissolves(ev, id)
  }

  /** The last creation or dissolution of a relation in a listing. */
  function LastRegarding(evs: seq<Event>, id: Id): Option<Event> {
    if evs == [] then None
    else if Regards(evs[|evs| - 1], id) then Some(evs[|evs| - 1])
    else LastRegarding(evs[..|evs| - 1], id)
  }

  function LatestRegarding(s: System, peer: Did, id: Id): Option<Event> {
    LastRegarding(Listing(s, peer), id)
  }

  /** What the last event leaves: the created relation, if the store can take it, and nothing after a dissolution. */
  function Left(last: Option<Event>): Option<Relation> {
    if last.Some? && last.value.payload.RelationPayload? && Storable(last.value.payload.relation)
    then Some(RelationRow(last.value.payload.relation)) else None
  }

  lemma {:induction false} FoldRelationsLast(evs: seq<Event>, id: Id)
    ensures var f, last := FoldRelations(evs), LastRegarding(evs, id);
      && (id in f <==> last.Some? && Relates(last.value, id))
      && (id in f ==> f[id] == last.value.payload.relation)
  {
    if evs != [] {
      FoldRelationsLast(evs[..|evs| - 1], id);
      hide FoldRelations, LastRegarding;
      assert evs[..|evs| - 1] + [evs[|evs| - 1]] == evs;
      FoldRelationsAppend(evs[..|evs| - 1], evs[|evs| - 1]);
      LastRegardingAppend(evs[..|evs| - 1], evs[|evs| - 1], id);
    }
  }

  lemma LastRegardingAppend(evs: seq<Event>, ev: Event, id: Id)
    ensures LastRegarding(evs + [ev], id) == if Regards(ev, id) then Some(ev) else LastRegarding(evs, id)
  {
    assert (evs + [ev])[..|evs|] == evs;
  }

  lemma {:induction false} LastRegards(evs: seq<Event>, id: Id)
    ensures LastRegarding(evs, id).Some? ==> Regards(LastRegarding(evs, id).value, id) && LastRegarding(evs, id).value in evs
  {
    if evs != [] {
      LastRegards(evs[..|evs| - 1], id);
      assert forall x :: x in evs[..|evs| - 1] ==> x in evs;
    }
  }

  lemma ReplayedIsLeft(evs: seq<Event>, id: Id)
    ensures ReplayedRelation(evs, id) == Left(LastRegarding(evs, id))
  {
    hide FoldRelations, LastRegarding;
    FoldRelationsLast(evs, id);
    LastRegards(evs, id);
  }

  // ---- what the schedule wrote ----

  /** The action finishes a write or a deletion of the relation that the table takes. */
  predicate TurnsRelation(s: System, a: Action, id: Id) {
    a.Finish? && !a.fails && OwesRelation(PendingOf(s, a.client), id) && Takes(s, PendingOf(s, a.client).owed)
  }

  predicate OwesRelation(p: Pending, id: Id) {
    p.ToWrite? && ((p.owed.PutRelation? && p.owed.r.id == id) || (p.owed.DropRelation? && p.owed.id == id))
  }

  /** The relation that the schedule leaves in the table: that of the last finished write, unless a deletion finished since. */
  function RelationBySchedule(init: System, actions: seq<Action>, id: Id): Option<Relation> {
    if actions == [] then None
    else
      var before, a := actions[..|actions| - 1], actions[|actions| - 1];
      var s := Run(init, before);
      if !TurnsRelation(s, a, id) then RelationBySchedule(init, before, id)
      else if PendingOf(s, a.client).owed.PutRelation? then Some(RelationRow(PendingOf(s, a.client).owed.r))
      else None
  }

  function RelationAt(s: System, id: Id): Option<Relation> {
    if id in s.rels then Some(s.rels[id]) else None
  }

  lemma WrittenRelation(s: System, ev: Event, write: Write, id: Id)
    requires Takes(s, write)
    ensures RelationAt(Written(s, ev, write), id) ==
      if write.PutRelation? && write.r.id == id then Some(RelationRow(write.r))
      else if write.DropRelation? && write.id == id then None
      else RelationAt(s, id)
  {
  }

  lemma FinishRelation(s: System, k: nat, fails: bool, id: Id)
    ensures RelationAt(FinishPending(s, k, fails), id) ==
      if !TurnsRelation(s, Finish(k, fails), id) then RelationAt(s, id)
      else if PendingOf(s, k).owed.PutRelation? then Some(RelationRow(PendingOf(s, k).owed.r))
      else None
  {
    hide Takes, Written, RelationRow;
    match PendingOf(s, k)
    case ToWrite(ev, write) => if Takes(s, write) { WrittenRelation(s, ev, write, id); }
    case _ =>
  }

  lemma StartRelations(s: System, k: nat, c: Call)
    ensures StartCall(s, k, c).rels == s.rels
  {
    hide StartCreate, StartDefine, ArchiveEvent, RelationEvent, CreatedRelation, DissolveEvent, UpdateEvent, Merged;
    if c.req.EntityCreate? { CreateRelations(s, k, c); }
    if Defines(c) { DefineRelations(s, k, c); }
  }

  lemma CreateRelations(s: System, k: nat, c: Call)
    requires c.req.EntityCreate?
    ensures StartCreate(s, k, c).rels == s.rels
  {
    hide Validated, CreatedEntity, CreateEvent;
  }

  lemma DefineRelations(s: System, k: nat, c: Call)
    requires Defines(c)
    ensures StartDefine(s, k, c).rels == s.rels
  {
    hide DefinitionEntity, DefinitionEvent, DefinedType;
    LearntKeepsTables(s, c);
    hide Learnt;
  }

  lemma StepRelation(s: System, a: Action, id: Id)
    ensures RelationAt(Next(s, a), id) ==
      if !TurnsRelation(s, a, id) then RelationAt(s, id)
      else if PendingOf(s, a.client).owed.PutRelation? then Some(RelationRow(PendingOf(s, a.client).owed.r))
      else None
  {
    hide StartCall, FinishPending, CanAppend, RelationRow;
    match a
    case Start(k, c) => if s.lastId < c.id1 < c.id2 { StartRelations(s, k, c); }
    case Append(_, _) =>
    case Finish(k, fails) => FinishRelation(s, k, fails, id);
    case Stop(_) =>
  }

  /** The table holds what the schedule says. */
  lemma {:induction false} RelationMeaning(init: System, actions: seq<Action>, id: Id)
    requires Initial(init)
    ensures RelationBySchedule(init, actions, id) == RelationAt(Run(init, actions), id)
  {
    hide Next, TurnsRelation, RelationRow;
    if actions != [] {
      var before := actions[..|actions| - 1];
      RelationMeaning(init, before, id);
      StepRelation(Run(init, before), actions[|actions| - 1], id);
    }
  }

  // ---- the exact condition ----

  function OfPeerOnly(r: Option<Relation>, peer: Did): Option<Relation> {
    if r.Some? && r.value.peer == peer then r else None
  }

  /** The peer's relation in the table. */
  function RelationOf(s: System, peer: Did, id: Id): Option<Relation> {
    OfPeerOnly(RelationAt(s, id), peer)
  }

  /** In every state of every interleaved run, table and replay agree on a relation if and only if the last finished write or
      deletion of it left what the last listed creation or dissolution of it leaves. */
  lemma RelationsBySchedule(init: System, actions: seq<Action>, peer: Did, id: Id)
    requires Initial(init)
    ensures var s := Run(init, actions);
      RelationOf(s, peer, id) == ReplayedRelation(Listing(s, peer), id)
      <==> OfPeerOnly(RelationBySchedule(init, actions, id), peer) == Left(LatestRegarding(s, peer, id))
  {
    hide Run, Listing, FoldRelations, LastRegarding, RelationBySchedule;
    RelationMeaning(init, actions, id);
    ReplayedIsLeft(Listing(Run(init, actions), peer), id);
  }

  // ---- calls at work on different relations ----

  /** The client's call writes or deletes the relation. */
  predicate Holds(p: Pending, id: Id) {
    OwesRelation(p, id) ||
    (p.ToAppend? && ((p.write.PutRelation? && p.write.r.id == id) || (p.write.DropRelation? && p.write.id == id)))
  }

  ghost predicate Held(s: System, id: Id) {
    exists k :: k in s.clients && Holds(s.clients[k], id)
  }

  /** The relation a call is about, if it is about one. */
  function TargetRelation(c: Call): Option<Id> {
    match c.req
    case RelationCreate(_, _, _, _, _, _) => Some(c.id1)
    case RelationDissolve(id, _, _) => Some(id)
    case _ => None
  }

  /** Calls begin in time and one after the other at each client, none begins while another is at work on its relation, and no
      logged change of a relation is lost or abandoned. */
  ghost predicate Disjoint(s: System, a: Action) {
    match a
    case Start(k, c) =>
      PendingOf(s, k).Idle? && s.clock <= c.now && (TargetRelation(c).Some? ==> !Held(s, TargetRelation(c).value))
    case Append(_, _) => true
    case Finish(k, fails) => fails ==> forall id :: !OwesRelation(PendingOf(s, k), id)
    case Stop(k) => forall id :: !OwesRelation(PendingOf(s, k), id)
  }

  ghost predicate DisjointRun(init: System, actions: seq<Action>) {
    forall i :: 0 <= i < |actions| ==> Disjoint(Run(init, actions[..i]), actions[i])
  }

  /** The call has logged its event and is to change the peer's relation next. */
  predicate Expects(p: Pending, peer: Did, id: Id) {
    OwesRelation(p, id) && (if p.owed.PutRelation? then p.owed.r.peer else p.owed.peer) == peer
  }

  ghost predicate Expected(s: System, peer: Did, id: Id) {
    exists k :: k in s.clients && Expects(s.clients[k], peer, id)
  }

  // ---- the invariant ----

  /** One call at a time is at work on a relation. */
  ghost predicate OneEach(s: System) {
    forall j, k, id :: j in s.clients && k in s.clients && Holds(s.clients[j], id) && Holds(s.clients[k], id) ==> j == k
  }

  ghost predicate Succeeds(log: seq<Event>, ev: Event, id: Id) {
    forall i :: 0 <= i < |log| && Regards(log[i], id) ==> EventLeq(log[i], ev)
  }

  ghost predicate Succeeding(s: System) {
    forall k, id :: k in s.clients && s.clients[k].ToAppend? && Holds(s.clients[k], id) ==> Succeeds(s.log, s.clients[k].ev, id)
  }

  /** What a call has logged or will log is what it writes. */
  predicate Frank(p: Pending) {
    match p
    case ToAppend(ev, PutRelation(r)) => ev.peer == r.peer && ev.etype.RelationCreated? && ev.payload == RelationPayload(r)
    case ToAppend(ev, DropRelation(peer, id)) => ev.peer == peer && Dissolves(ev, id)
    case ToAppend(ev, _) => !ev.etype.RelationCreated? && !ev.etype.RelationDissolved?
    case _ => true
  }

  ghost predicate AllFrank(s: System) {
    forall k :: k in s.clients ==> Frank(s.clients[k])
  }

  /** A relation in the table, or about to be created, has an id drawn before. */
  ghost predicate Drawn(s: System) {
    && (forall id :: id in s.rels ==> id <= s.lastId)
    && (forall k, id: Id :: k in s.clients && Holds(s.clients[k], id) ==> DrawnFor(s, s.clients[k], id))
  }

  predicate DrawnFor(s: System, p: Pending, id: Id) {
    Creates(p) ==> id <= s.lastId && id !in s.rels
  }

  predicate Creates(p: Pending) {
    (p.ToAppend? && p.write.PutRelation?) || (p.ToWrite? && p.owed.PutRelation?)
  }

  /** A logged change of a relation is the latest that replay shows, until it is written. */
  ghost predicate Latest(s: System) {
    forall k, id :: k in s.clients && OwesRelation(s.clients[k], id) ==> LatestFor(s, s.clients[k], id)
  }

  ghost predicate LatestFor(s: System, p: Pending, id: Id)
    requires OwesRelation(p, id)
  {
    match p.owed
    case PutRelation(r) => r.peer != "" && Left(LatestRegarding(s, r.peer, id)) == if Storable(r) then Some(RelationRow(r)) else None
    case DropRelation(peer, _) => peer != "" && Left(LatestRegarding(s, peer, id)) == None
  }

  /** Otherwise the table has what replay shows. */
  ghost predicate Level(s: System) {
    forall peer, id :: id != NO_ID && !Expected(s, peer, id) ==> LevelAt(s, peer, id)
  }

  ghost predicate LevelAt(s: System, peer: Did, id: Id) {
    RelationOf(s, peer, id) == Left(LatestRegarding(s, peer, id))
  }

  ghost predicate Balanced(s: System) {
    OneEach(s) && Succeeding(s) && AllFrank(s) && Drawn(s) && Latest(s) && Level(s)
  }

  // ---- what a logged event does to the latest changes ----

  lemma {:induction false} InsertRegarding(evs: seq<Event>, ev: Event, id: Id)
    requires Regards(ev, id) ==> Succeeds(evs, ev, id)
    ensures LastRegarding(InsertEvent(evs, ev), id) == if Regards(ev, id) then Some(ev) else LastRegarding(evs, id)
  {
    hide Relates, Dissolves;
    if evs != [] && !EventLeq(evs[|evs| - 1], ev) {
      var init, last := evs[..|evs| - 1], evs[|evs| - 1];
      assert Succeeds(evs, ev, id) ==> Succeeds(init, ev, id);
      InsertRegarding(init, ev, id);
      LastRegardingAppend(InsertEvent(init, ev), last, id);
    } else {
      LastRegardingAppend(evs, ev, id);
    }
  }

  lemma LogRegarding(s: System, u: System, ev: Event, peer: Did, id: Id)
    requires u.log == s.log + [ev] && (Regards(ev, id) ==> Succeeds(s.log, ev, id))
    ensures LatestRegarding(u, peer, id) == if ev.peer == peer && Regards(ev, id) then Some(ev) else LatestRegarding(s, peer, id)
  {
    ListEventsAppend(s.log, ev, peer, ZERO_TIME, ZERO_TIME);
    ListingMembers(s.log, peer);
    hide ListEvents, LastRegarding, Regards;
    if ev.peer == peer {
      var evs := Listing(s, peer);
      if Regards(ev, id) {
        forall i | 0 <= i < |evs| && Regards(evs[i], id) ensures EventLeq(evs[i], ev) {
          assert evs[i] in evs;
          var j :| 0 <= j < |s.log| && s.log[j] == evs[i];
        }
      }
      InsertRegarding(evs, ev, id);
    }
  }

  lemma SameLogSameRegarding(s: System, u: System)
    requires u.log == s.log
    ensures forall peer, id :: LatestRegarding(u, peer, id) == LatestRegarding(s, peer, id)
  {
  }

  lemma ExpectedByOthers(s: System, u: System, k: nat, peer: Did, id: Id)
    requires u.clients.Keys == s.clients.Keys + {k} && forall j :: j in s.clients && j != k ==> u.clients[j] == s.clients[j]
    requires Expects(PendingOf(s, k), peer, id) ==> Expects(PendingOf(u, k), peer, id)
    ensures Expected(s, peer, id) ==> Expected(u, peer, id)
  {
    if Expected(s, peer, id) {
      var j :| j in s.clients && Expects(s.clients[j], peer, id);
      assert Expects(u.clients[j], peer, id);
    }
  }

  lemma LevelStays(s: System, u: System, k: nat)
    requires Level(s) && u.log == s.log && u.rels == s.rels
    requires u.clients.Keys == s.clients.Keys + {k} && forall j :: j in s.clients && j != k ==> u.clients[j] == s.clients[j]
    requires forall peer, id :: Expects(PendingOf(s, k), peer, id) ==> Expects(PendingOf(u, k), peer, id)
    ensures Level(u)
  {
    SameLogSameRegarding(s, u);
    hide LatestRegarding, Expected, Expects, Left;
    forall peer, id | id != NO_ID && !Expected(u, peer, id) ensures LevelAt(u, peer, id) {
      ExpectedByOthers(s, u, k, peer, id);
      assert LevelAt(s, peer, id);
    }
  }

  // ---- every step of calls at work on different relations ----

  lemma DropBalanced(s: System, u: System, k: nat)
    requires Balanced(s) && forall id :: !OwesRelation(PendingOf(s, k), id)
    requires u.log == s.log && u.rels == s.rels && u.lastId == s.lastId && u.clients == s.clients[k := Idle]
    ensures Balanced(u)
  {
    SameLogSameRegarding(s, u);
    LevelStays(s, u, k);
    hide LatestRegarding, Left, Level, Regards;
    forall j, id: Id | j in u.clients && Holds(u.clients[j], id) ensures DrawnFor(u, u.clients[j], id) {
      assert j != k && DrawnFor(s, s.clients[j], id);
    }
    forall j, id | j in u.clients && OwesRelation(u.clients[j], id) ensures LatestFor(u, u.clients[j], id) {
      assert LatestFor(s, s.clients[j], id);
    }
  }

  /** The new call is frank, at work on the relation it is about and on no other, and creates only under a fresh id. */
  predicate Aimed(s: System, p: Pending, c: Call, id: Id) {
    Frank(p) && (Holds(p, id) ==> TargetRelation(c) == Some(id) && (Creates(p) ==> s.lastId < id <= c.id2))
  }

  lemma StartAimed(s: System, k: nat, c: Call, id: Id)
    requires s.lastId < c.id1 < c.id2 && StartCall(s, k, c) != s
    ensures k in StartCall(s, k, c).clients && Aimed(s, StartCall(s, k, c).clients[k], c, id)
  {
    hide StartCreate, StartDefine, Begin, Merged, CreatedRelation, Aimed;
    if c.req.EntityCreate? {
      CreateAimed(s, k, c, id);
    } else if c.req.EntityUpdate? {
      BeginAimed(s, s, k, c, UpdateEvent(c, s.rows[c.req.id]), PutRow(Merged(s.rows[c.req.id], c.req.changes, c.now)), s.births, id);
    } else if Defines(c) {
      DefineAimed(s, k, c, id);
    } else if c.req.EntityArchive? {
      BeginAimed(s, s, k, c, ArchiveEvent(c), StampRow(c.target, c.req.id, c.now), s.births, id);
    } else if c.req.RelationCreate? {
      RelationAimed(s, c, id);
      BeginAimed(s, s, k, c, RelationEvent(c), PutRelation(CreatedRelation(c)), s.births, id);
    } else if c.req.RelationDissolve? {
      RelationAimed(s, c, id);
      BeginAimed(s, s, k, c, DissolveEvent(c), DropRelation(c.target, c.req.id), s.births, id);
    }
  }

  lemma BeginAimed(s: System, base: System, k: nat, c: Call, ev: Event, write: Write, births: map<Id, Birth>, id: Id)
    requires (!write.PutRelation? && !write.DropRelation? && !ev.etype.RelationCreated? && !ev.etype.RelationDissolved?)
          || Aimed(s, ToAppend(ev, write), c, id)
    ensures var u := Begin(base, k, c, ev, write, births); k in u.clients && Aimed(s, u.clients[k], c, id)
  {
  }

  lemma RelationAimed(s: System, c: Call, id: Id)
    requires s.lastId < c.id1 < c.id2
    ensures c.req.RelationCreate? ==> Aimed(s, ToAppend(RelationEvent(c), PutRelation(CreatedRelation(c))), c, id)
    ensures c.req.RelationDissolve? ==> Aimed(s, ToAppend(DissolveEvent(c), DropRelation(c.target, c.req.id)), c, id)
  {
  }

  lemma CreateAimed(s: System, k: nat, c: Call, id: Id)
    requires c.req.EntityCreate? && StartCreate(s, k, c) != s
    ensures k in StartCreate(s, k, c).clients && Aimed(s, StartCreate(s, k, c).clients[k], c, id)
  {
    hide Validated, CreatedEntity, Aimed, Begin;
    var data := Validated(TypesOf(s.etypes, c.target)[c.req.etype], c.req.fields).0;
    var e := CreatedEntity(c, data);
    BeginAimed(s, s, k, c, CreateEvent(c, data), PutRow(e), s.births[e.id := BirthOf(e)], id);
  }

  lemma DefineAimed(s: System, k: nat, c: Call, id: Id)
    requires Defines(c)
    ensures k in StartDefine(s, k, c).clients && Aimed(s, StartDefine(s, k, c).clients[k], c, id)
  {
    hide DefinitionEntity, DefinedType, Learnt, Aimed, Begin;
    var e := DefinitionEntity(c);
    BeginAimed(s, Learnt(s, c), k, c, DefinitionEvent(c), PutRow(e), s.births[e.id := BirthOf(e)], id);
  }

  lemma BegunSucceeds(s: System, u: System, k: nat, c: Call, id: Id)
    requires Stamped(s) && Begun(s, u, k, c) && s.clock <= c.now
    ensures Succeeds(u.log, u.clients[k].ev, id)
  {
    forall i | 0 <= i < |u.log| && Regards(u.log[i], id) ensures EventLeq(u.log[i], u.clients[k].ev) { assert Before(s.log[i], s); }
  }

  lemma BegunBalanced(s: System, u: System, k: nat, c: Call)
    requires Balanced(s) && Stamped(s) && Begun(s, u, k, c) && s.clock <= c.now && PendingOf(s, k).Idle? && u.rels == s.rels
    requires s.lastId < c.id2 && (TargetRelation(c).Some? ==> !Held(s, TargetRelation(c).value))
    requires forall id :: Aimed(s, u.clients[k], c, id)
    ensures Balanced(u)
  {
    SameLogSameRegarding(s, u);
    LevelStays(s, u, k);
    forall id ensures Succeeds(u.log, u.clients[k].ev, id) { BegunSucceeds(s, u, k, c, id); }
    hide LatestRegarding, Left, Level, Regards, Succeeds, Frank, Stamped;
    assert Aimed(s, u.clients[k], c, NO_ID);
    forall j, id: Id | j in u.clients && Holds(u.clients[j], id) ensures DrawnFor(u, u.clients[j], id) {
      if j == k { assert Aimed(s, u.clients[k], c, id); } else { assert DrawnFor(s, s.clients[j], id); }
    }
    forall id: Id | Holds(u.clients[k], id) ensures !Held(s, id) && (Creates(u.clients[k]) ==> s.lastId < id <= c.id2) { assert Aimed(s, u.clients[k], c, id); }
    forall j, id | j in u.clients && OwesRelation(u.clients[j], id) ensures LatestFor(u, u.clients[j], id) {
      assert LatestFor(s, s.clients[j], id);
    }
  }

  lemma BalancedStart(s: System, k: nat, c: Call)
    requires Balanced(s) && Stamped(s) && s.lastId < c.id1 < c.id2 && Disjoint(s, Start(k, c))
    ensures Balanced(StartCall(s, k, c))
  {
    hide StartCall, Balanced, Stamped, Held, Aimed;
    var u := StartCall(s, k, c);
    StartBegins(s, k, c);
    StartRelations(s, k, c);
    if u != s {
      forall id ensures Aimed(s, u.clients[k], c, id) { StartAimed(s, k, c, id); }
      BegunBalanced(s, u, k, c);
    }
  }

  /** An event about to be logged regards only the relation its call is at work on. */
  lemma FrankRegards(p: Pending, id: Id)
    requires Frank(p) && p.ToAppend? && Regards(p.ev, id)
    ensures Holds(p, id) && (if p.write.PutRelation? then p.write.r.peer else p.write.peer) == p.ev.peer
    ensures Left(Some(p.ev)) == if p.write.PutRelation? && Storable(p.write.r) then Some(RelationRow(p.write.r)) else None
  {
  }

  lemma HeldRegards(p: Pending, id: Id)
    requires Frank(p) && p.ToAppend? && Holds(p, id)
    ensures Regards(p.ev, id)
  {
  }

  lemma LoggedRegarding(s: System, u: System, k: nat, peer: Did, id: Id)
    requires Balanced(s) && k in s.clients && s.clients[k].ToAppend? && u.log == s.log + [s.clients[k].ev]
    ensures var ev := s.clients[k].ev;
      LatestRegarding(u, peer, id) == if ev.peer == peer && Regards(ev, id) then Some(ev) else LatestRegarding(s, peer, id)
  {
    if Regards(s.clients[k].ev, id) { FrankRegards(s.clients[k], id); }
    hide LatestRegarding, Level, Latest;
    LogRegarding(s, u, s.clients[k].ev, peer, id);
  }

  lemma FrankExpects(ev: Event, write: Write, id: Id)
    requires Frank(ToAppend(ev, write))
    ensures Regards(ev, id) ==> Expects(ToWrite(ev, write), ev.peer, id)
  {
  }

  lemma AwaitingNothing(s: System, k: nat, peer: Did, id: Id)
    requires k in s.clients && s.clients[k].ToAppend?
    ensures !Expects(PendingOf(s, k), peer, id)
  {
  }

  lemma NotExpected(u: System, k: nat, peer: Did, id: Id)
    requires !Expected(u, peer, id) && k in u.clients
    ensures !Expects(u.clients[k], peer, id)
  {
  }

  lemma LoggedLevel(s: System, u: System, k: nat, ev: Event, write: Write)
    requires Balanced(s) && k in s.clients && s.clients[k] == ToAppend(ev, write)
    requires u == s.(log := s.log + [ev], clients := s.clients[k := ToWrite(ev, write)])
    ensures Level(u)
  {
    assert Frank(s.clients[k]);
    hide LatestRegarding, Left, Expected, Expects, Frank, Regards;
    forall peer, id | id != NO_ID && !Expected(u, peer, id) ensures LevelAt(u, peer, id) {
      AwaitingNothing(s, k, peer, id);
      LoggedRegarding(s, u, k, peer, id);
      ExpectedByOthers(s, u, k, peer, id);
      FrankExpects(ev, write, id);
      NotExpected(u, k, peer, id);
      assert LevelAt(s, peer, id);
    }
  }

  lemma LoggedLatest(s: System, u: System, k: nat, ev: Event, write: Write)
    requires Balanced(s) && k in s.clients && s.clients[k] == ToAppend(ev, write) && ev.peer != ""
    requires u == s.(log := s.log + [ev], clients := s.clients[k := ToWrite(ev, write)])
    ensures Latest(u)
  {
    hide LatestRegarding, Left, Level, Succeeds, Regards;
    forall j, id | j in u.clients && OwesRelation(u.clients[j], id) ensures LatestFor(u, u.clients[j], id) {
      forall peer ensures LatestRegarding(u, peer, id) == if ev.peer == peer && Regards(ev, id) then Some(ev) else LatestRegarding(s, peer, id) {
        LoggedRegarding(s, u, k, peer, id);
      }
      if j == k {
        HeldRegards(s.clients[k], id);
        FrankRegards(s.clients[k], id);
      } else {
        assert LatestFor(s, s.clients[j], id);
        if Regards(ev, id) { FrankRegards(s.clients[k], id); }
      }
    }
  }

  lemma BalancedLog(s: System, u: System, k: nat, ev: Event, write: Write)
    requires Balanced(s) && k in s.clients && s.clients[k] == ToAppend(ev, write) && ev.peer != ""
    requires u == s.(log := s.log + [ev], clients := s.clients[k := ToWrite(ev, write)])
    ensures Balanced(u)
  {
    LoggedLevel(s, u, k, ev, write);
    LoggedLatest(s, u, k, ev, write);
    hide LatestRegarding, Left, Level, Latest, Regards;
    forall j, id: Id | j in u.clients && Holds(u.clients[j], id) ensures DrawnFor(u, u.clients[j], id) {
      assert Holds(s.clients[j], id) && DrawnFor(s, s.clients[j], id);
    }
    forall j, id | j in u.clients && u.clients[j].ToAppend? && Holds(u.clients[j], id) ensures Succeeds(u.log, u.clients[j].ev, id) {
      assert Succeeds(s.log, s.clients[j].ev, id);
      assert !Holds(s.clients[k], id);
      if Regards(ev, id) { FrankRegards(s.clients[k], id); }
    }
  }

  lemma BalancedAppend(s: System, k: nat, fails: bool)
    requires Balanced(s)
    ensures Balanced(AppendPending(s, k, fails))
  {
    hide Balanced, CanAppend;
    match PendingOf(s, k)
    case ToAppend(ev, write) =>
      if fails || !CanAppend(s.log, ev) {
        DropBalanced(s, AppendPending(s, k, fails), k);
      } else {
        AppendedPeer(s.log, ev);
        BalancedLog(s, AppendPending(s, k, fails), k, ev, write);
      }
    case _ =>
  }

  /** The relations after a finished write. */
  lemma FinishRelations(s: System, k: nat, ev: Event, write: Write, fails: bool)
    requires k in s.clients && s.clients[k] == ToWrite(ev, write)
    ensures var u := FinishPending(s, k, fails);
      u.rels == match write
        case PutRelation(r) => if !fails && Takes(s, write) then s.rels[r.id := RelationRow(r)] else s.rels
        case DropRelation(_, id) => if !fails && Takes(s, write) then s.rels - {id} else s.rels
        case _ => s.rels
  {
  }

  lemma TurnedLevel(s: System, u: System, k: nat, id: Id)
    requires Level(s) && k in s.clients && OwesRelation(s.clients[k], id)
    requires u.log == s.log && u.clients == s.clients[k := Idle] && forall i :: i != id ==> RelationAt(u, i) == RelationAt(s, i)
    requires id != NO_ID ==> forall peer :: LevelAt(u, peer, id)
    ensures Level(u)
  {
    SameLogSameRegarding(s, u);
    hide LatestRegarding, Left, Expected, RelationAt;
    forall peer, i | i != NO_ID && !Expected(u, peer, i) ensures LevelAt(u, peer, i) {
      if i != id {
        ExpectedByOthers(s, u, k, peer, i);
        assert LevelAt(s, peer, i);
        assert RelationAt(u, i) == RelationAt(s, i);
      }
    }
  }

  lemma TurnedLatest(s: System, u: System, k: nat)
    requires Latest(s) && u.log == s.log && u.clients == s.clients[k := Idle]
    ensures Latest(u)
  {
    hide LatestFor;
    forall j, i | j in u.clients && OwesRelation(u.clients[j], i) ensures LatestFor(u, u.clients[j], i) {
      assert LatestFor(s, s.clients[j], i);
      SameLatestFor(s, u, s.clients[j], i);
    }
  }

  lemma TurnedDrawn(s: System, u: System, k: nat, id: Id)
    requires OneEach(s) && Drawn(s) && k in s.clients && Holds(s.clients[k], id) && u.lastId == s.lastId
    requires u.clients == s.clients[k := Idle] && forall i :: i != id ==> RelationAt(u, i) == RelationAt(s, i)
    requires id in u.rels ==> id <= s.lastId
    ensures Drawn(u)
  {
    forall i | i in u.rels && i != id ensures i in s.rels { assert RelationAt(u, i) == RelationAt(s, i); }
    hide Holds;
    forall j, i: Id | j in u.clients && Holds(u.clients[j], i) ensures DrawnFor(u, u.clients[j], i) {
      if j == k { IdleHolds(i); }
      assert i != id && DrawnFor(s, s.clients[j], i);
      assert RelationAt(u, i) == RelationAt(s, i);
    }
  }

  lemma IdleHolds(id: Id)
    ensures !Holds(Idle, id)
  {
  }

  lemma TurnedOthers(s: System, u: System, k: nat)
    requires OneEach(s) && Succeeding(s) && AllFrank(s) && u.log == s.log && u.clients == s.clients[k := Idle]
    ensures OneEach(u) && Succeeding(u) && AllFrank(u)
  {
    hide Regards;
  }

  lemma TurnedBalanced(s: System, u: System, k: nat, id: Id)
    requires Balanced(s) && k in s.clients && OwesRelation(s.clients[k], id) && u.lastId == s.lastId
    requires u.log == s.log && u.clients == s.clients[k := Idle] && forall i :: i != id ==> RelationAt(u, i) == RelationAt(s, i)
    requires id != NO_ID ==> forall peer :: LevelAt(u, peer, id)
    requires id in u.rels ==> id <= s.lastId
    ensures Balanced(u)
  {
    assert Holds(s.clients[k], id);
    hide OneEach, Succeeding, AllFrank, Drawn, Latest, Level, LevelAt, RelationAt;
    TurnedLevel(s, u, k, id);
    TurnedLatest(s, u, k);
    TurnedDrawn(s, u, k, id);
    TurnedOthers(s, u, k);
  }

  lemma SameLatestFor(s: System, u: System, p: Pending, id: Id)
    requires u.log == s.log && OwesRelation(p, id) && LatestFor(s, p, id)
    ensures LatestFor(u, p, id)
  {
    SameLogSameRegarding(s, u);
    hide LatestRegarding;
  }

  lemma OnlyExpects(s: System, k: nat, peer: Did, id: Id)
    requires OneEach(s) && k in s.clients && OwesRelation(s.clients[k], id) && !Expects(s.clients[k], peer, id)
    ensures !Expected(s, peer, id)
  {
    forall j | j in s.clients ensures !Expects(s.clients[j], peer, id) {
      assert Holds(s.clients[k], id);
    }
  }

  /** A written relation is what replay shows of it; one that the table refuses, replay does not show either. */
  lemma PutBalanced(s: System, u: System, k: nat, ev: Event, r: Relation)
    requires Balanced(s) && k in s.clients && s.clients[k] == ToWrite(ev, PutRelation(r)) && u.lastId == s.lastId
    requires u.log == s.log && u.clients == s.clients[k := Idle]
    requires u.rels == if Takes(s, PutRelation(r)) then s.rels[r.id := RelationRow(r)] else s.rels
    ensures Balanced(u)
  {
    SameLogSameRegarding(s, u);
    assert Holds(s.clients[k], r.id) && LatestFor(s, s.clients[k], r.id) && DrawnFor(s, s.clients[k], r.id);
    hide LatestRegarding, Left;
    if r.id != NO_ID {
      forall peer ensures LevelAt(u, peer, r.id) {
        if peer != r.peer {
          OnlyExpects(s, k, peer, r.id);
          assert LevelAt(s, peer, r.id);
        }
      }
    }
    hide Balanced, LatestFor, LevelAt;
    TurnedBalanced(s, u, k, r.id);
  }

  lemma DropsBalanced(s: System, u: System, k: nat, ev: Event, owner: Did, id: Id)
    requires Balanced(s) && k in s.clients && s.clients[k] == ToWrite(ev, DropRelation(owner, id)) && u.lastId == s.lastId
    requires u.log == s.log && u.clients == s.clients[k := Idle]
    requires u.rels == if Takes(s, DropRelation(owner, id)) then s.rels - {id} else s.rels
    ensures Balanced(u)
  {
    SameLogSameRegarding(s, u);
    assert Holds(s.clients[k], id) && LatestFor(s, s.clients[k], id);
    hide LatestRegarding, Left;
    if id != NO_ID {
      forall peer ensures LevelAt(u, peer, id) {
        if peer != owner {
          OnlyExpects(s, k, peer, id);
          assert LevelAt(s, peer, id);
        }
      }
    }
    assert id in u.rels ==> id <= s.lastId;
    hide Balanced, LatestFor, LevelAt;
    TurnedBalanced(s, u, k, id);
  }

  lemma BalancedFinish(s: System, k: nat, fails: bool)
    requires Balanced(s) && Disjoint(s, Finish(k, fails))
    ensures Balanced(FinishPending(s, k, fails))
  {
    hide Balanced, Takes;
    match PendingOf(s, k)
    case ToWrite(ev, write) =>
      var u := FinishPending(s, k, fails);
      if write.PutRelation? { assert OwesRelation(PendingOf(s, k), write.r.id); }
      if write.DropRelation? { assert OwesRelation(PendingOf(s, k), write.id); }
      WrittenFinish(s, k, fails);
      FinishRelations(s, k, ev, write, fails);
      hide FinishPending, Disjoint;
      match write {
        case PutRelation(r) => PutBalanced(s, u, k, ev, r);
        case DropRelation(peer, id) => DropsBalanced(s, u, k, ev, peer, id);
        case _ => DropBalanced(s, u, k);
      }
    case _ =>
  }

  lemma BalancedNext(s: System, a: Action)
    requires Balanced(s) && Stamped(s) && Disjoint(s, a)
    ensures Balanced(Next(s, a))
  {
    hide Balanced, Stamped, StartCall, AppendPending, FinishPending;
    match a
    case Start(k, c) => if s.lastId < c.id1 < c.id2 { BalancedStart(s, k, c); }
    case Append(k, fails) => BalancedAppend(s, k, fails);
    case Finish(k, fails) => BalancedFinish(s, k, fails);
    case Stop(k) => DropBalanced(s, Next(s, a), k);
  }

  lemma InitialBalanced(s: System)
    requires Initial(s)
    ensures Balanced(s)
  {
    forall peer, id ensures LatestRegarding(s, peer, id).None? { }
  }

  lemma FirstDisjoint(init: System, actions: seq<Action>)
    requires actions != [] && DisjointRun(init, actions)
    ensures var before := actions[..|actions| - 1];
      DisjointRun(init, before) && Disjoint(Run(init, before), actions[|actions| - 1])
  {
    hide Disjoint, Run;
    var before := actions[..|actions| - 1];
    forall i | 0 <= i < |before| ensures Disjoint(Run(init, before[..i]), before[i]) {
      assert before[..i] == actions[..i];
    }
  }

  lemma DisjointIsInTime(init: System, actions: seq<Action>)
    requires DisjointRun(init, actions)
    ensures InTime(init, actions)
  {
    hide Run, Held;
    forall i | 0 <= i < |actions| && actions[i].Start? ensures Run(init, actions[..i]).clock <= actions[i].call.now {
      assert Disjoint(Run(init, actions[..i]), actions[i]);
    }
  }

  lemma {:induction false} DisjointRunsBalance(init: System, actions: seq<Action>)
    requires Initial(init) && DisjointRun(init, actions)
    ensures Balanced(Run(init, actions))
  {
    hide Balanced, Next, DisjointRun, Disjoint, Stamped, Inv, InTime;
    if actions == [] {
      InitialBalanced(init);
    } else {
      var before := actions[..|actions| - 1];
      FirstDisjoint(init, actions);
      DisjointRunsBalance(init, before);
      DisjointIsInTime(init, before);
      RunsStayCurrent(init, before);
      BalancedNext(Run(init, before), actions[|actions| - 1]);
    }
  }

  /** When the calls at work on one relation never overlap, the table holds of every relation that no call is about to change
      exactly what replay shows. */
  lemma DisjointRunsAgree(init: System, actions: seq<Action>, peer: Did, id: Id)
    requires Initial(init) && DisjointRun(init, actions) && id != NO_ID
    ensures var s := Run(init, actions);
      !Expected(s, peer, id) ==> RelationOf(s, peer, id) == ReplayedRelation(Listing(s, peer), id)
  {
    hide Run, Listing, FoldRelations, LastRegarding, DisjointRun, Left, Expected;
    var s := Run(init, actions);
    DisjointRunsBalance(init, actions);
    ReplayedIsLeft(Listing(s, peer), id);
    if !Expected(s, peer, id) { assert LevelAt(s, peer, id); }
  }

  // ---- a dissolution that comes too early ----

  /** A relation is dissolved after its creation is logged and before its row is written. */
  function Hasty(j: nat, k: nat, a: Call, b: Call): seq<Action> {
    [Start(j, a), Append(j, false), Start(k, b), Append(k, false), Finish(k, false), Finish(j, false)]
  }

  /** The creation of a storable relation, and a later call to dissolve it. */
  ghost predicate Meets(s: System, j: nat, k: nat, a: Call, b: Call) {
    && Current(s) && j != k && PendingOf(s, k).Idle? && a.target != "" && b.target == a.target
    && s.lastId < a.id1 < a.id2 < b.id1 < b.id2 && s.clock <= a.now <= b.now
    && a.req.RelationCreate? && a.req.rtype in TypesOf(s.rtypes, a.target) && Storable(CreatedRelation(a))
    && b.req.RelationDissolve? && b.req.id == a.id1
  }

  lemma StartRelate(s: System, j: nat, c: Call)
    requires c.req.RelationCreate? && c.req.rtype in TypesOf(s.rtypes, c.target) && s.lastId < c.id1 < c.id2
    ensures Next(s, Start(j, c)) == Begin(s, j, c, RelationEvent(c), PutRelation(CreatedRelation(c)), s.births)
  {
    hide RelationEvent, CreatedRelation;
  }

  lemma StartDissolve(s: System, k: nat, c: Call)
    requires c.req.RelationDissolve? && s.lastId < c.id1 < c.id2
    ensures Next(s, Start(k, c)) == Begin(s, k, c, DissolveEvent(c), DropRelation(c.target, c.req.id), s.births)
  {
    hide DissolveEvent;
  }

  lemma FinishRelate(s: System, j: nat, ev: Event, r: Relation)
    requires PendingOf(s, j) == ToWrite(ev, PutRelation(r)) && Storable(r) && r.id != NO_ID && r.peer != ""
    ensures var u := Next(s, Finish(j, false)); u.log == s.log && RelationAt(u, r.id) == Some(RelationRow(r))
  {
    hide RelationRow;
  }

  lemma FinishOther(s: System, k: nat, ev: Event, write: Write)
    requires PendingOf(s, k) == ToWrite(ev, write)
    ensures var u := Next(s, Finish(k, false)); u.log == s.log && u.clients == s.clients[k := Idle]
  {
    hide Takes, Written;
    if Takes(s, write) {
      WrittenFrame(s, s.clients, ev, write);
      WrittenLog(s, ev, write);
    }
  }

  lemma HastyEnds(s: System, j: nat, k: nat, a: Call, b: Call)
    requires Meets(s, j, k, a, b)
    ensures var u := Run(s, Hasty(j, k, a, b));
      u.log == s.log + [RelationEvent(a)] + [DissolveEvent(b)] && RelationAt(u, a.id1) == Some(RelationRow(CreatedRelation(a)))
  {
    var x, y, r := RelationEvent(a), DissolveEvent(b), CreatedRelation(a);
    assert x.peer == a.target && x.id == a.id2 && y.peer == a.target && y.id == b.id1 && r.id == a.id1 && r.peer == a.target;
    BothAppend(s, x, y);
    hide RelationEvent, DissolveEvent, CreatedRelation, Current, Next, Run, CanAppend, RelationRow, RelationAt;
    RunSix(s, Start(j, a), Append(j, false), Start(k, b), Append(k, false), Finish(k, false), Finish(j, false));
    StartRelate(s, j, a);
    var s1 := Next(s, Start(j, a));
    AppendOne(s1, j, x, PutRelation(r));
    var s2 := Next(s1, Append(j, false));
    StartDissolve(s2, k, b);
    var s3 := Next(s2, Start(k, b));
    AppendOne(s3, k, y, DropRelation(b.target, b.req.id));
    var s4 := Next(s3, Append(k, false));
    FinishOther(s4, k, y, DropRelation(b.target, b.req.id));
    FinishRelate(Next(s4, Finish(k, false)), j, x, r);
  }

  /** From every state of every run in time, a hasty dissolution leaves the row it was to delete: its event is the last one
      logged of the relation, the creation succeeds, and the table keeps what replay no longer shows. */
  lemma HastyDissolutionIsLost(s: System, j: nat, k: nat, a: Call, b: Call)
    requires Meets(s, j, k, a, b)
    ensures var u := Run(s, Hasty(j, k, a, b));
      && RelationOf(u, a.target, a.id1) == Some(RelationRow(CreatedRelation(a)))
      && ReplayedRelation(Listing(u, a.target), a.id1) == None
  {
    var u, x, y := Run(s, Hasty(j, k, a, b)), RelationEvent(a), DissolveEvent(b);
    HastyEnds(s, j, k, a, b);
    assert y.peer == a.target && Dissolves(y, a.id1) && Left(Some(y)) == None;
    assert Succeeds(s.log + [x], y, a.id1) by {
      forall i | 0 <= i < |s.log| ensures EventLeq(s.log[i], y) { assert Before(s.log[i], s); }
      assert EventLeq(x, y);
    }
    hide Run, Current, Listing, FoldRelations, LastRegarding, Succeeds, RelationEvent, DissolveEvent;
    LogRegarding(u.(log := s.log + [x]), u, y, a.target, a.id1);
    ReplayedIsLeft(Listing(u, a.target), a.id1);
  }
}
