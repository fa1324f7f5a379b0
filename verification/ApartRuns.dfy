/** Runs in which the calls at work on one row never overlap, an archive among them: there every row is exactly the one that
    replay predicts, data and times. */
module ApartRuns {
  import opened Types
  import opened Requests
  import opened EventLog
  import opened Ranking
  import opened Queries
  import opened Shared
  import opened Interleaving
  import opened Adequacy
  import opened Schedules
  import opened WholeRows
  import Replay

  /** The client's call writes or stamps the row of the id. */
  predicate Handles(p: Pending, id: Id) {
    id != NO_ID && (WritesRow(p, id) || OwesStamp(p, id) || (p.ToAppend? && p.write.StampRow? && p.write.id == id))
  }

  ghost predicate Handled(s: System, id: Id) {
    exists k :: k in s.clients && Handles(s.clients[k], id)
  }

  /** The row a call is about, if it is about one. */
  function TargetRow(c: Call): Id {
    match c.req
    case EntityCreate(_, _, _, _) => c.id1
    case EntityUpdate(id, _, _, _) => id
    case EntityArchive(id, _, _) => id
    case TypeDefine(_, _, _, _, _, _, _) => DefinitionId(c)
    case SeedType(_, _, _) => DefinitionId(c)
    case _ => NO_ID
  }

  /** Orderly, and moreover no call begins while another is at work on its row, and no logged stamp is lost or abandoned. */
  ghost predicate Apart(s: System, a: Action) {
    && Orderly(s, a)
    && match a
       case Start(_, c) => c.now > ZERO_TIME && !Handled(s, TargetRow(c))
       case Append(_, _) => true
       case Finish(k, fails) => fails ==> forall id :: !OwesStamp(PendingOf(s, k), id)
       case Stop(k) => forall id :: !OwesStamp(PendingOf(s, k), id)
  }

  ghost predicate ApartRun(init: System, actions: seq<Action>) {
    forall i :: 0 <= i < |actions| ==> Apart(Run(init, actions[..i]), actions[i])
  }

  /** Some call has logged an event that concerns the peer's entity and has yet to change its row. */
  ghost predicate Awaited(s: System, peer: Did, id: Id) {
    exists k :: k in s.clients && Awaits(s.clients[k], peer, id)
  }

  predicate Awaits(p: Pending, peer: Did, id: Id) {
    OwesRow(p, id) || (OwesStamp(p, id) && p.owed.peer == peer)
  }

  // ---- the invariant ----

  /** One call at a time is at work on a row. */
  ghost predicate Lone(s: System) {
    forall j, k, id :: j in s.clients && k in s.clients && Handles(s.clients[j], id) && Handles(s.clients[k], id) ==> j == k
  }

  ghost predicate Follows(log: seq<Event>, ev: Event, id: Id) {
    forall i :: 0 <= i < |log| && Concerning(log[i], id) ==> EventLeq(log[i], ev)
  }

  /** A call about to log comes after every logged event that concerns its row. */
  ghost predicate InTurn(s: System) {
    forall k, id :: k in s.clients && s.clients[k].ToAppend? && Handles(s.clients[k], id) ==> Follows(s.log, s.clients[k].ev, id)
  }

  /** What a call at work on a row knows of the entity's trace. */
  ghost predicate Informed(s: System, p: Pending, id: Id) {
    match p
    case Idle => true
    case ToAppend(ev, PutRow(e)) =>
      forall peer :: TraceOf(s, peer, id).Some? ==> SnapshotOf(ev, id) && TraceOf(s, peer, id).value.archivedAt == e.archivedAt
    case ToWrite(ev, PutRow(e)) =>
      if SnapshotOf(ev, id) then TraceOf(s, ev.peer, id) == Some(Trace(e.archivedAt, e.updatedAt))
      else forall peer :: TraceOf(s, peer, id).None?
    case ToWrite(ev, StampRow(peer, _, at)) =>
      TraceOf(s, peer, id).Some? ==>
        TraceOf(s, peer, id) == Some(Trace(Some(at), at)) && id in s.rows && s.rows[id].peer == peer && peer != ""
    case _ => true
  }

  ghost predicate AllInformed(s: System) {
    forall k, id :: k in s.clients && Handles(s.clients[k], id) ==> Informed(s, s.clients[k], id)
  }

  ghost predicate EvenAt(s: System, peer: Did, id: Id) {
    id in s.rows && s.rows[id].peer == peer && TraceOf(s, peer, id) == RowTrace(s, id)
  }

  /** A replayed entity that no call is about to change has a row with its trace. */
  ghost predicate Even(s: System) {
    forall peer, id :: id != NO_ID && TraceOf(s, peer, id).Some? && !Awaited(s, peer, id) ==> EvenAt(s, peer, id)
  }

  ghost predicate Settled(s: System) {
    Lone(s) && InTurn(s) && AllInformed(s) && Even(s)
  }

  // ---- what a logged event does to the traces ----

  lemma {:induction false} InsertTrace(evs: seq<Event>, ev: Event, id: Id)
    requires Concerning(ev, id) ==> Follows(evs, ev, id)
    ensures ListedTrace(InsertEvent(evs, ev), id) == Traced(ListedTrace(evs, id), ev, id)
  {
    hide SnapshotOf, NoticeOf;
    if evs != [] && !EventLeq(evs[|evs| - 1], ev) {
      var init, last := evs[..|evs| - 1], evs[|evs| - 1];
      assert Follows(evs, ev, id) ==> Follows(init, ev, id);
      InsertTrace(init, ev, id);
      assert InsertEvent(evs, ev) == InsertEvent(init, ev) + [last];
      assert InsertEvent(evs, ev)[..|InsertEvent(init, ev)|] == InsertEvent(init, ev);
    } else {
      assert (evs + [ev])[..|evs|] == evs;
    }
  }

  /** Logging an event that comes after everything concerning the id. */
  lemma LogTrace(s: System, u: System, ev: Event, peer: Did, id: Id)
    requires u.log == s.log + [ev] && (Concerning(ev, id) ==> Follows(s.log, ev, id))
    ensures TraceOf(u, peer, id) == if ev.peer == peer then Traced(TraceOf(s, peer, id), ev, id) else TraceOf(s, peer, id)
  {
    ListEventsAppend(s.log, ev, peer, ZERO_TIME, ZERO_TIME);
    ListingMembers(s.log, peer);
    hide ListEvents, ListedTrace, Traced, Concerning;
    if ev.peer == peer {
      var evs := Listing(s, peer);
      if Concerning(ev, id) {
        forall i | 0 <= i < |evs| && Concerning(evs[i], id) ensures EventLeq(evs[i], ev) {
          assert evs[i] in evs;
          var j :| 0 <= j < |s.log| && s.log[j] == evs[i];
        }
      }
      InsertTrace(evs, ev, id);
    }
  }

  lemma SameLogSameTraces(s: System, u: System)
    requires u.log == s.log
    ensures forall peer, id :: TraceOf(u, peer, id) == TraceOf(s, peer, id)
  {
  }

  lemma {:induction false} TracedSnapshot(evs: seq<Event>, id: Id)
    ensures ListedTrace(evs, id).Some? <==> LastSnapshot(evs, id).Some?
  {
    hide SnapshotOf, NoticeOf;
    if evs != [] { TracedSnapshot(evs[..|evs| - 1], id); }
  }

  /** A traced entity was born to the peer. */
  lemma TracedIsBorn(s: System, peer: Did, id: Id)
    requires Inv(s) && TraceOf(s, peer, id).Some?
    ensures id in s.births && s.births[id].peer == peer && id <= s.lastId
    ensures id in s.rows ==> s.rows[id].peer == peer
  {
    TracedSnapshot(Listing(s, peer), id);
    hide ListedTrace, Listing, LastSnapshot;
    SnapshotPeer(s, peer, id);
    if id in s.rows { assert ProperRow(s, id); }
  }

  lemma TracedPeer(s: System, peer: Did, id: Id)
    requires Stamped(s) && TraceOf(s, peer, id).Some?
    ensures peer != ""
  {
    TracedSnapshot(Listing(s, peer), id);
    LatestIsGreatest(s, peer, id);
    var ev := LatestSnapshot(s, peer, id).value;
    var i :| 0 <= i < |s.log| && s.log[i] == ev;
  }

  // ---- every step of calls that stay apart ----

  lemma AwaitedByOthers(s: System, u: System, k: nat, peer: Did, id: Id)
    requires u.clients.Keys == s.clients.Keys + {k} && forall j :: j in s.clients && j != k ==> u.clients[j] == s.clients[j]
    requires Awaits(PendingOf(s, k), peer, id) ==> Awaits(PendingOf(u, k), peer, id)
    ensures Awaited(s, peer, id) ==> Awaited(u, peer, id)
  {
    if Awaited(s, peer, id) {
      var j :| j in s.clients && Awaits(s.clients[j], peer, id);
      assert Awaits(u.clients[j], peer, id);
    }
  }

  /** Rows, log and the other clients unchanged, evenness stays. */
  lemma EvenStays(s: System, u: System, k: nat)
    requires Even(s) && u.log == s.log && u.rows == s.rows
    requires u.clients.Keys == s.clients.Keys + {k} && forall j :: j in s.clients && j != k ==> u.clients[j] == s.clients[j]
    requires forall peer, id :: Awaits(PendingOf(s, k), peer, id) ==> Awaits(PendingOf(u, k), peer, id)
    ensures Even(u)
  {
    SameLogSameTraces(s, u);
    hide TraceOf, Awaited, Awaits;
    forall peer, id | id != NO_ID && TraceOf(u, peer, id).Some? && !Awaited(u, peer, id) ensures EvenAt(u, peer, id) {
      AwaitedByOthers(s, u, k, peer, id);
      assert EvenAt(s, peer, id);
    }
  }

  /** A call at work on another row, or on unchanged tables, is informed as before. */
  lemma InformedStays(s: System, u: System, p: Pending, id: Id)
    requires Informed(s, p, id) && (id in s.rows ==> id in u.rows && u.rows[id].peer == s.rows[id].peer)
    requires forall peer :: TraceOf(u, peer, id) == TraceOf(s, peer, id)
    ensures Informed(u, p, id)
  {
    hide TraceOf;
  }

  lemma DropSettled(s: System, u: System, k: nat)
    requires Settled(s) && forall id :: !OwesRow(PendingOf(s, k), id) && !OwesStamp(PendingOf(s, k), id)
    requires u.log == s.log && u.rows == s.rows && u.clients == s.clients[k := Idle]
    ensures Settled(u)
  {
    SameLogSameTraces(s, u);
    EvenStays(s, u, k);
    hide TraceOf, Concerning, Even, Informed;
    forall j, id | j in u.clients && Handles(u.clients[j], id) ensures Informed(u, u.clients[j], id) {
      assert j != k && Informed(s, s.clients[j], id);
      InformedStays(s, u, s.clients[j], id);
    }
  }

  // ---- beginning ----

  /** The new call is at work on the row it is about and on no other, and is informed about it. */
  ghost predicate OnTarget(s: System, u: System, k: nat, c: Call, id: Id) {
    k in u.clients && (Handles(u.clients[k], id) ==> id == TargetRow(c) && Informed(s, u.clients[k], id))
  }

  lemma CreateTargets(s: System, k: nat, c: Call, id: Id)
    requires s.lastId < c.id1 < c.id2 && c.req.EntityCreate? && Inv(s) && StartCreate(s, k, c) != s
    ensures OnTarget(s, StartCreate(s, k, c), k, c, id)
  {
    hide Validated, Begin, Inv;
    var defs := TypesOf(s.etypes, c.target);
    var data := Validated(defs[c.req.etype], c.req.fields).0;
    var e := CreatedEntity(c, data);
    BeginBegins(s, s, k, c, CreateEvent(c, data), PutRow(e), s.births[e.id := BirthOf(e)]);
    FreshIsUntraced(s, c.id1);
  }

  /** An id not yet drawn is in no log. */
  lemma FreshIsUntraced(s: System, id: Id)
    requires Inv(s) && s.lastId < id
    ensures forall peer :: TraceOf(s, peer, id).None?
  {
    hide TraceOf, Inv;
    forall peer ensures TraceOf(s, peer, id).None? {
      if TraceOf(s, peer, id).Some? { TracedIsBorn(s, peer, id); }
    }
  }

  lemma DefineTargets(s: System, k: nat, c: Call, id: Id)
    requires s.lastId < c.id1 < c.id2 && Defines(c) && Inv(s)
    ensures OnTarget(s, StartDefine(s, k, c), k, c, id)
  {
    DefinitionRow(c);
    hide DefinedType, DefinitionEntity, DefinitionEvent, Learnt, Begin, Inv;
    LearntKeepsTables(s, c);
    var e := DefinitionEntity(c);
    assert DefinitionEvent(c).timestamp == c.now && s.lastId < DefinitionEvent(c).id <= c.id2 by { DefinitionStamp(c); }
    BeginBegins(s, Learnt(s, c), k, c, DefinitionEvent(c), PutRow(e), s.births[e.id := BirthOf(e)]);
    FreshIsUntraced(s, DefinitionId(c));
  }

  lemma DefinitionStamp(c: Call)
    requires Defines(c) && c.id1 < c.id2
    ensures DefinitionEvent(c).timestamp == c.now && c.id1 <= DefinitionEvent(c).id <= c.id2
  {
    hide DefinedType;
  }

  lemma UpdateCarries(c: Call, row: Entity)
    requires c.req.EntityUpdate? && row.id == c.req.id
    ensures var ev, e := UpdateEvent(c, row), Merged(row, c.req.changes, c.now);
      SnapshotOf(ev, row.id) && e.archivedAt == row.archivedAt && e.id == row.id && ev.timestamp == c.now && ev.id == c.id1
  {
  }

  /** An update begun while nobody is at work on its row carries the archive time that replay shows. */
  lemma UpdateTargets(s: System, k: nat, c: Call, id: Id)
    requires s.lastId < c.id1 < c.id2 && c.req.EntityUpdate? && Inv(s) && Even(s) && !Handled(s, c.req.id)
    requires c.req.id in s.rows && s.rows[c.req.id].peer == c.target
    ensures OnTarget(s, StartCall(s, k, c), k, c, id)
  {
    hide Begin, Inv, TraceOf, UpdateEvent, Merged, SnapshotOf, Handled;
    var row := s.rows[c.req.id];
    assert row.id == c.req.id by { RowIsBornAs(s, c.req.id); }
    UpdateCarries(c, row);
    var ev, e := UpdateEvent(c, row), Merged(row, c.req.changes, c.now);
    BeginBegins(s, s, k, c, ev, PutRow(e), s.births);
    forall peer | c.req.id != NO_ID && TraceOf(s, peer, c.req.id).Some? ensures TraceOf(s, peer, c.req.id).value.archivedAt == e.archivedAt {
      UnhandledIsUnawaited(s, peer, c.req.id);
      assert EvenAt(s, peer, c.req.id);
    }
  }

  lemma RowIsBornAs(s: System, id: Id)
    requires Inv(s) && id in s.rows
    ensures s.rows[id].id == id
  {
    assert ProperRow(s, id);
  }

  lemma UnhandledIsUnawaited(s: System, peer: Did, id: Id)
    requires !Handled(s, id) && id != NO_ID
    ensures !Awaited(s, peer, id)
  {
  }

  lemma OtherTargets(s: System, k: nat, c: Call, id: Id)
    requires s.lastId < c.id1 < c.id2 && !c.req.EntityCreate? && !c.req.EntityUpdate? && !Defines(c) && StartCall(s, k, c) != s
    ensures OnTarget(s, StartCall(s, k, c), k, c, id)
  {
    hide Begin, TraceOf, CreatedRelation, Informed;
    if c.req.EntityArchive? {
      BeginBegins(s, s, k, c, ArchiveEvent(c), StampRow(c.target, c.req.id, c.now), s.births);
      ArchiveIsInformed(s, ArchiveEvent(c), c.target, c.req.id, c.now, id);
    } else if c.req.RelationCreate? {
      BeginBegins(s, s, k, c, RelationEvent(c), PutRelation(CreatedRelation(c)), s.births);
    } else if c.req.RelationDissolve? {
      BeginBegins(s, s, k, c, DissolveEvent(c), DropRelation(c.target, c.req.id), s.births);
    }
  }

  lemma ArchiveIsInformed(s: System, ev: Event, peer: Did, rid: Id, at: Time, id: Id)
    ensures Informed(s, ToAppend(ev, StampRow(peer, rid, at)), id)
  {
  }

  lemma StartTargets(s: System, k: nat, c: Call, id: Id)
    requires s.lastId < c.id1 < c.id2 && Inv(s) && Even(s) && !Handled(s, TargetRow(c)) && StartCall(s, k, c) != s
    ensures OnTarget(s, StartCall(s, k, c), k, c, id)
  {
    hide StartCreate, StartDefine, Inv, Even, Handled, Begin, OnTarget;
    if c.req.EntityCreate? {
      CreateTargets(s, k, c, id);
    } else if c.req.EntityUpdate? {
      UpdateTargets(s, k, c, id);
    } else if Defines(c) {
      DefineTargets(s, k, c, id);
    } else {
      OtherTargets(s, k, c, id);
    }
  }

  lemma BegunFollows(s: System, u: System, k: nat, c: Call, id: Id)
    requires Stamped(s) && Begun(s, u, k, c) && s.clock <= c.now
    ensures Follows(u.log, u.clients[k].ev, id)
  {
    forall i | 0 <= i < |u.log| && Concerning(u.log[i], id) ensures EventLeq(u.log[i], u.clients[k].ev) { assert Before(s.log[i], s); }
  }

  lemma BegunSettled(s: System, u: System, k: nat, c: Call)
    requires Settled(s) && Stamped(s) && Begun(s, u, k, c) && s.clock <= c.now && PendingOf(s, k).Idle? && u.rows == s.rows
    requires forall id :: Handles(u.clients[k], id) ==> !Handled(s, id) && Informed(s, u.clients[k], id)
    ensures Settled(u)
  {
    SameLogSameTraces(s, u);
    EvenStays(s, u, k);
    hide TraceOf, Concerning, Even, Informed, Stamped;
    forall id ensures Follows(u.log, u.clients[k].ev, id) { BegunFollows(s, u, k, c, id); }
    hide Follows;
    forall j, id | j in u.clients && Handles(u.clients[j], id) ensures Informed(u, u.clients[j], id) {
      if j != k { assert Informed(s, s.clients[j], id); }
      InformedStays(s, u, u.clients[j], id);
    }
  }

  lemma SettledStart(s: System, k: nat, c: Call)
    requires Settled(s) && Tidy(s) && s.lastId < c.id1 < c.id2 && Apart(s, Start(k, c))
    ensures Settled(StartCall(s, k, c))
  {
    hide StartCall, Lone, InTurn, AllInformed, Handles, Handled, Informed;
    var u := StartCall(s, k, c);
    StartBegins(s, k, c);
    StartRows(s, k, c);
    if u != s {
      assert k in u.clients;
      forall id | Handles(u.clients[k], id) ensures !Handled(s, id) && Informed(s, u.clients[k], id) { StartTargets(s, k, c, id); }
      BegunSettled(s, u, k, c);
    }
  }

  // ---- logging ----

  /** An event about to be logged concerns only the row its call is at work on, and says of it what the call will write. */
  ghost predicate Announces(ev: Event, write: Write, id: Id) {
    match write
    case PutRow(e) =>
      !NoticeOf(ev, id) &&
      (SnapshotOf(ev, id) ==> e.id == id && ev.payload.entity == e && ev.timestamp == e.updatedAt)
    case StampRow(peer, rid, at) =>
      !SnapshotOf(ev, id) && (NoticeOf(ev, id) <==> rid == id) && (NoticeOf(ev, id) ==> NoticeTime(ev) == at && ev.peer == peer)
    case _ => !Concerning(ev, id)
  }

  lemma PendingAnnounces(s: System, k: nat, id: Id)
    requires Inv(s) && Dated(s) && k in s.clients && s.clients[k].ToAppend? && id != NO_ID
    ensures Announces(s.clients[k].ev, s.clients[k].write, id)
    ensures Concerning(s.clients[k].ev, id) ==> Handles(s.clients[k], id)
  {
    assert ProperPending(s, s.clients[k]) && DatedPending(s.clients[k]);
  }

  lemma LoggedTrace(s: System, u: System, k: nat, ev: Event, write: Write, peer: Did, id: Id)
    requires Inv(s) && Dated(s) && InTurn(s) && k in s.clients && s.clients[k] == ToAppend(ev, write) && id != NO_ID
    requires u.log == s.log + [ev]
    ensures TraceOf(u, peer, id) == if ev.peer == peer then Traced(TraceOf(s, peer, id), ev, id) else TraceOf(s, peer, id)
    ensures !Handles(s.clients[k], id) ==> TraceOf(u, peer, id) == TraceOf(s, peer, id)
  {
    PendingAnnounces(s, k, id);
    hide TraceOf, Inv, Dated;
    LogTrace(s, u, ev, peer, id);
  }

  lemma HandledAlone(s: System, k: nat, peer: Did, id: Id)
    requires Lone(s) && k in s.clients && s.clients[k].ToAppend? && Handles(s.clients[k], id)
    ensures !Awaited(s, peer, id)
  {
  }

  /** Having logged its event, a call is informed about what replay now shows. */
  lemma LoggerInformed(s: System, u: System, k: nat, ev: Event, write: Write, id: Id)
    requires Inv(s) && Dated(s) && Stamped(s) && Settled(s) && k in s.clients && s.clients[k] == ToAppend(ev, write)
    requires u == s.(log := s.log + [ev], clients := s.clients[k := ToWrite(ev, write)]) && Handles(ToWrite(ev, write), id)
    ensures Informed(u, ToWrite(ev, write), id)
  {
    PendingAnnounces(s, k, id);
    assert Handles(s.clients[k], id);
    assert Informed(s, s.clients[k], id);
    forall peer ensures TraceOf(u, peer, id) == if ev.peer == peer then Traced(TraceOf(s, peer, id), ev, id) else TraceOf(s, peer, id) {
      LoggedTrace(s, u, k, ev, write, peer, id);
    }
    if write.StampRow? {
      var peer := write.peer;
      HandledAlone(s, k, peer, id);
      if TraceOf(s, peer, id).Some? {
        TracedPeer(s, peer, id);
        assert EvenAt(s, peer, id);
      }
    }
    hide TraceOf, Inv, Dated, Stamped, Settled;
  }

  lemma LoggedEven(s: System, u: System, k: nat, ev: Event, write: Write)
    requires Inv(s) && Dated(s) && Settled(s) && k in s.clients && s.clients[k] == ToAppend(ev, write)
    requires u == s.(log := s.log + [ev], clients := s.clients[k := ToWrite(ev, write)])
    ensures Even(u)
  {
    hide TraceOf, Inv, Dated, Lone, AllInformed, Traced, Awaited;
    forall peer, id | id != NO_ID && TraceOf(u, peer, id).Some? && !Awaited(u, peer, id) ensures EvenAt(u, peer, id) {
      LoggedTrace(s, u, k, ev, write, peer, id);
      PendingAnnounces(s, k, id);
      NotAwaited(u, k, peer, id);
      AwaitedByOthers(s, u, k, peer, id);
      UnconcernedTrace(TraceOf(s, peer, id), ev, id);
      assert EvenAt(s, peer, id);
    }
  }

  lemma NotAwaited(u: System, k: nat, peer: Did, id: Id)
    requires !Awaited(u, peer, id) && k in u.clients
    ensures !Awaits(u.clients[k], peer, id)
  {
  }

  lemma UnconcernedTrace(t: Option<Trace>, ev: Event, id: Id)
    ensures !Concerning(ev, id) ==> Traced(t, ev, id) == t
  {
  }

  lemma SettledLog(s: System, u: System, k: nat, ev: Event, write: Write)
    requires Inv(s) && Dated(s) && Stamped(s) && Settled(s) && k in s.clients && s.clients[k] == ToAppend(ev, write)
    requires u == s.(log := s.log + [ev], clients := s.clients[k := ToWrite(ev, write)])
    ensures Settled(u)
  {
    LoggedEven(s, u, k, ev, write);
    hide TraceOf, Inv, Dated, Stamped, Even, Informed, Concerning;
    assert Lone(u);
    forall j, id | j in u.clients && u.clients[j].ToAppend? && Handles(u.clients[j], id) ensures Follows(u.log, u.clients[j].ev, id) {
      assert Follows(s.log, s.clients[j].ev, id);
      PendingAnnounces(s, k, id);
      assert !Handles(s.clients[k], id);
      assert !Concerning(ev, id);
    }
    forall j, id | j in u.clients && Handles(u.clients[j], id) ensures Informed(u, u.clients[j], id) {
      if j == k {
        assert Settled(s);
        LoggerInformed(s, u, k, ev, write, id);
      } else {
        assert Informed(s, s.clients[j], id) && !Handles(s.clients[k], id);
        forall peer ensures TraceOf(u, peer, id) == TraceOf(s, peer, id) { LoggedTrace(s, u, k, ev, write, peer, id); }
        InformedStays(s, u, s.clients[j], id);
      }
    }
  }

  lemma SettledAppend(s: System, k: nat, fails: bool)
    requires Settled(s) && Dated(s) && Tidy(s)
    ensures Settled(AppendPending(s, k, fails))
  {
    hide Settled, CanAppend;
    match PendingOf(s, k)
    case ToAppend(ev, write) =>
      if fails || !CanAppend(s.log, ev) {
        DropSettled(s, AppendPending(s, k, fails), k);
      } else {
        SettledLog(s, AppendPending(s, k, fails), k, ev, write);
      }
    case _ =>
  }

  // ---- writing ----

  /** The rows after a finished write. */
  lemma FinishRows(s: System, k: nat, ev: Event, write: Write, fails: bool)
    requires k in s.clients && s.clients[k] == ToWrite(ev, write) && (write.PutRow? ==> !fails && Takes(s, write))
    ensures var u := FinishPending(s, k, fails);
      u.rows == match write
        case PutRow(e) => s.rows[e.id := Row(e)]
        case StampRow(peer, id, at) =>
          if !fails && Takes(s, write) then s.rows[id := s.rows[id].(archivedAt := Some(at), updatedAt := at)] else s.rows
        case _ => s.rows
  {
  }

  /** Rows of other ids unchanged and the finished call gone, the other calls are informed as before. */
  lemma FinishedInformed(s: System, u: System, k: nat, id: Id)
    requires Settled(s) && k in s.clients && (id != NO_ID ==> Handles(s.clients[k], id))
    requires u.log == s.log && u.clients == s.clients[k := Idle]
    requires forall i :: i != id && i in s.rows ==> i in u.rows && u.rows[i] == s.rows[i]
    ensures Lone(u) && InTurn(u) && AllInformed(u)
  {
    SameLogSameTraces(s, u);
    hide TraceOf, Concerning, Follows, Even, Informed;
    forall j, i | j in u.clients && Handles(u.clients[j], i) ensures Informed(u, u.clients[j], i) {
      assert j != k && Informed(s, s.clients[j], i);
      assert i != id;
      InformedStays(s, u, s.clients[j], i);
    }
  }

  lemma KnownInformed(s: System, k: nat, id: Id)
    requires AllInformed(s) && k in s.clients && Handles(s.clients[k], id)
    ensures Informed(s, s.clients[k], id)
  {
  }

  /** A stamp is refused only for a peer that has no such entity replayed; what it stamps is what replay shows. */
  lemma StampEven(s: System, u: System, k: nat, ev: Event, peer: Did, id: Id, at: Time)
    requires Inv(s) && Settled(s) && k in s.clients && s.clients[k] == ToWrite(ev, StampRow(peer, id, at))
    requires u.log == s.log && u.clients == s.clients[k := Idle]
    requires u.rows == if Takes(s, StampRow(peer, id, at)) then s.rows[id := s.rows[id].(archivedAt := Some(at), updatedAt := at)] else s.rows
    ensures Even(u)
  {
    hide Inv, TraceOf, Lone, InTurn, AllInformed, Awaited;
    SameLogSameTraces(s, u);
    if id != NO_ID { KnownInformed(s, k, id); }
    forall p, i | i != NO_ID && TraceOf(u, p, i).Some? && !Awaited(u, p, i) ensures EvenAt(u, p, i) {
      TracedIsBorn(s, p, i);
      if i != id || p != peer {
        AwaitedByOthers(s, u, k, p, i);
        assert EvenAt(s, p, i);
      }
    }
  }

  lemma StampSettled(s: System, u: System, k: nat, ev: Event, peer: Did, id: Id, at: Time)
    requires Inv(s) && Settled(s) && k in s.clients && s.clients[k] == ToWrite(ev, StampRow(peer, id, at))
    requires u.log == s.log && u.clients == s.clients[k := Idle]
    requires u.rows == if Takes(s, StampRow(peer, id, at)) then s.rows[id := s.rows[id].(archivedAt := Some(at), updatedAt := at)] else s.rows
    ensures Settled(u)
  {
    hide Inv, Lone, InTurn, AllInformed, Even;
    StampEven(s, u, k, ev, peer, id, at);
    FinishedInformed(s, u, k, id);
  }

  lemma PutEven(s: System, u: System, k: nat, ev: Event, e: Entity)
    requires Inv(s) && Settled(s) && k in s.clients && s.clients[k] == ToWrite(ev, PutRow(e))
    requires u.log == s.log && u.clients == s.clients[k := Idle] && u.rows == s.rows[e.id := Row(e)]
    ensures Even(u)
  {
    hide Inv, TraceOf, Lone, InTurn, AllInformed, Awaited, SnapshotOf, Records;
    SameLogSameTraces(s, u);
    PendingWrites(s, k, e.id);
    if e.id != NO_ID { KnownInformed(s, k, e.id); }
    forall p, i | i != NO_ID && TraceOf(u, p, i).Some? && !Awaited(u, p, i) ensures EvenAt(u, p, i) {
      TracedIsBorn(s, p, i);
      if i != e.id {
        AwaitedByOthers(s, u, k, p, i);
        assert EvenAt(s, p, i);
      }
    }
  }

  lemma PutSettled(s: System, u: System, k: nat, ev: Event, e: Entity)
    requires Inv(s) && Settled(s) && k in s.clients && s.clients[k] == ToWrite(ev, PutRow(e))
    requires u.log == s.log && u.clients == s.clients[k := Idle] && u.rows == s.rows[e.id := Row(e)]
    ensures Settled(u)
  {
    hide Inv, Lone, InTurn, AllInformed, Even;
    PutEven(s, u, k, ev, e);
    FinishedInformed(s, u, k, e.id);
  }

  lemma SettledFinish(s: System, k: nat, fails: bool)
    requires Settled(s) && Tidy(s) && Apart(s, Finish(k, fails))
    ensures Settled(FinishPending(s, k, fails))
  {
    hide Settled, Inv, Takes;
    match PendingOf(s, k)
    case ToWrite(ev, write) =>
      var u := FinishPending(s, k, fails);
      if write.PutRow? {
        assert OwesRow(PendingOf(s, k), write.e.id);
        RowIsTaken(s, k, write.e.id);
      }
      if write.StampRow? { assert OwesStamp(PendingOf(s, k), write.id); }
      WrittenFinish(s, k, fails);
      FinishRows(s, k, ev, write, fails);
      hide FinishPending, Tidy, Apart;
      match write {
        case PutRow(e) => PutSettled(s, u, k, ev, e);
        case StampRow(peer, id, at) => StampSettled(s, u, k, ev, peer, id, at);
        case _ => DropSettled(s, u, k);
      }
    case _ =>
  }

  lemma SettledNext(s: System, a: Action)
    requires Settled(s) && Dated(s) && Tidy(s) && Apart(s, a)
    ensures Settled(Next(s, a))
  {
    hide Settled, StartCall, AppendPending, FinishPending;
    match a
    case Start(k, c) => if s.lastId < c.id1 < c.id2 { SettledStart(s, k, c); }
    case Append(k, fails) => SettledAppend(s, k, fails);
    case Finish(k, fails) => SettledFinish(s, k, fails);
    case Stop(k) => DropSettled(s, Next(s, a), k);
  }

  lemma InitialSettled(s: System)
    requires Initial(s)
    ensures Settled(s)
  {
    forall peer, id ensures TraceOf(s, peer, id).None? { }
  }

  lemma FirstApart(init: System, actions: seq<Action>)
    requires actions != [] && ApartRun(init, actions)
    ensures var before := actions[..|actions| - 1];
      ApartRun(init, before) && Apart(Run(init, before), actions[|actions| - 1])
  {
    hide Apart, Run;
    var before := actions[..|actions| - 1];
    forall i | 0 <= i < |before| ensures Apart(Run(init, before[..i]), before[i]) {
      assert before[..i] == actions[..i];
    }
  }

  /** Calls that stay apart are orderly and begin after the zero time. */
  lemma ApartIsOrderly(init: System, actions: seq<Action>)
    requires ApartRun(init, actions)
    ensures OrderlyRun(init, actions) && Dates(actions)
  {
    hide Run, Orderly, Handled;
    forall i | 0 <= i < |actions| ensures Orderly(Run(init, actions[..i]), actions[i]) && (actions[i].Start? ==> actions[i].call.now > ZERO_TIME) {
      assert Apart(Run(init, actions[..i]), actions[i]);
    }
  }

  lemma {:induction false} ApartRunsSettle(init: System, actions: seq<Action>)
    requires Initial(init) && ApartRun(init, actions)
    ensures Settled(Run(init, actions))
  {
    hide Settled, Next, ApartRun, Apart, Tidy, Dated, OrderlyRun;
    if actions == [] {
      InitialSettled(init);
    } else {
      var before := actions[..|actions| - 1];
      FirstApart(init, actions);
      ApartRunsSettle(init, before);
      ApartIsOrderly(init, before);
      OrderlyRunsAreTidy(init, before);
      RunDated(init, before);
      SettledNext(Run(init, before), actions[|actions| - 1]);
    }
  }

  /** When the calls at work on one row never overlap, every replayed entity that no call is about to change has a row, and
      it is exactly the one that replay predicts: origin, data, archive and update time. */
  lemma ApartRunsAgree(init: System, actions: seq<Action>, peer: Did, id: Id)
    requires Initial(init) && ApartRun(init, actions) && id != NO_ID
    ensures var s := Run(init, actions); var f := Fold(Listing(s, peer));
      id in f && !Awaited(s, peer, id) ==>
        id in s.rows && s.rows[id] == Replay.Replayed(f[id], ArchivedLast(Listing(s, peer), id))
  {
    hide Run, Listing, Fold, LastEffective, LastSnapshot, ListedTrace, DataIn, WriterBySchedule, TraceBySchedule, Dated, Tidy,
      ApartRun, OrderlyRun, WellFormed, Inv;
    var s := Run(init, actions);
    ApartIsOrderly(init, actions);
    ApartRunsSettle(init, actions);
    OrderlyRunsAgree(init, actions, peer, id);
    RowsBySchedule(init, actions, peer, id);
    AgreementBySchedule(init, actions, peer, id);
    ArchivesBySchedule(init, actions, peer, id);
    TraceMeaning(init, actions, id);
    if id in Fold(Listing(s, peer)) && !Awaited(s, peer, id) {
      assert EvenAt(s, peer, id);
      OwedIsAwaited(s, peer, id);
    }
  }

  lemma OwedIsAwaited(s: System, peer: Did, id: Id)
    ensures Owed(s, id) ==> Awaited(s, peer, id)
  {
    if Owed(s, id) {
      var k :| k in s.clients && OwesRow(s.clients[k], id);
      assert Awaits(s.clients[k], peer, id);
    }
  }
}
