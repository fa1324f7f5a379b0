/** Which interleavings keep rows and replay in agreement.  Replay takes an entity's data from the latest of its logged
    snapshots by timestamp and id; its row has the data of whichever call last finished writing it. */
module Schedules {
  import opened Types
  import opened Requests
  import opened EventLog
  import opened Ranking
  import opened Queries
  import opened Shared
  import opened Interleaving
  import opened Adequacy

  // ---- what replay shows ----

  /** The last snapshot of an entity in a listing. */
  function LastSnapshot(evs: seq<Event>, id: Id): Option<Event> {
    if evs == [] then None
    else if SnapshotOf(evs[|evs| - 1], id) then Some(evs[|evs| - 1])
    else LastSnapshot(evs[..|evs| - 1], id)
  }

  ghost predicate AllWellFormed(evs: seq<Event>) {
    forall i :: 0 <= i < |evs| ==> WellFormed(evs[i])
  }

  lemma FoldEventData(state: map<Id, Entity>, ev: Event, id: Id)
    requires WellFormed(ev) && id != NO_ID
    ensures var next := FoldEvent(state, ev);
      && (id in next <==> id in state || SnapshotOf(ev, id))
      && (id in next ==> DataOr(next[id].data) == if SnapshotOf(ev, id) then DataIn(ev) else DataOr(state[id].data))
  {
  }

  /** Replaying a listing gives an entity the data of its last snapshot. */
  lemma {:induction false} FoldData(evs: seq<Event>, id: Id)
    requires AllWellFormed(evs) && id != NO_ID
    ensures id in Fold(evs) <==> LastSnapshot(evs, id).Some?
    ensures id in Fold(evs) ==> DataOr(Fold(evs)[id].data) == DataIn(LastSnapshot(evs, id).value)
  {
    if evs != [] {
      hide WellFormed, SnapshotOf, DataIn, FoldEvent;
      FoldData(evs[..|evs| - 1], id);
      FoldEventData(Fold(evs[..|evs| - 1]), evs[|evs| - 1], id);
    }
  }

  /** The listing that time travel replays. */
  function Listing(s: System, peer: Did): seq<Event> {
    ListEvents(s.log, peer, ZERO_TIME, ZERO_TIME)
  }

  function LatestSnapshot(s: System, peer: Did, id: Id): Option<Event> {
    LastSnapshot(Listing(s, peer), id)
  }

  function ReplayedData(s: System, peer: Did, id: Id): Option<Data> {
    var f := Fold(Listing(s, peer));
    if id in f then Some(DataOr(f[id].data)) else None
  }

  function RowData(s: System, peer: Did, id: Id): Option<Data> {
    if id in s.rows && s.rows[id].peer == peer then Some(DataOr(s.rows[id].data)) else None
  }

  lemma ListingMembers(log: seq<Event>, peer: Did)
    ensures forall x :: x in ListEvents(log, peer, ZERO_TIME, ZERO_TIME) <==> x in log && x.peer == peer
  {
    RangeMembers(log, peer, ZERO_TIME, ZERO_TIME);
  }

  lemma ListingWellFormed(s: System, peer: Did)
    requires Inv(s)
    ensures AllWellFormed(Listing(s, peer))
  {
    ListingMembers(s.log, peer);
    hide WellFormed, ListEvents;
    var evs := Listing(s, peer);
    forall i | 0 <= i < |evs| ensures WellFormed(evs[i]) {
      assert evs[i] in evs;
      var j :| 0 <= j < |s.log| && s.log[j] == evs[i];
    }
  }

  lemma {:induction false} LastSnapshotIs(evs: seq<Event>, id: Id)
    ensures LastSnapshot(evs, id).Some? <==> exists ev :: ev in evs && SnapshotOf(ev, id)
    ensures LastSnapshot(evs, id).Some? ==> LastSnapshot(evs, id).value in evs && SnapshotOf(LastSnapshot(evs, id).value, id)
    ensures SortedEvents(evs) && LastSnapshot(evs, id).Some? ==>
      forall ev :: ev in evs && SnapshotOf(ev, id) ==> EventLeq(ev, LastSnapshot(evs, id).value)
  {
    if evs != [] {
      hide SnapshotOf;
      var init, last := evs[..|evs| - 1], evs[|evs| - 1];
      LastSnapshotIs(init, id);
      assert evs == init + [last];
      assert forall ev :: ev in evs <==> ev in init || ev == last;
      if SortedEvents(evs) {
        assert SortedEvents(init);
        forall ev | ev in init ensures EventLeq(ev, last) {
          var i :| 0 <= i < |init| && init[i] == ev;
          assert evs[i] == ev;
        }
      }
    }
  }

  /** The snapshot replay goes by is the greatest by timestamp and id among the peer's logged snapshots of the entity. */
  lemma LatestIsGreatest(s: System, peer: Did, id: Id)
    ensures LatestSnapshot(s, peer, id).Some? <==> exists ev :: ev in s.log && ev.peer == peer && SnapshotOf(ev, id)
    ensures LatestSnapshot(s, peer, id).Some? ==> var latest := LatestSnapshot(s, peer, id).value;
      && latest in s.log && latest.peer == peer && SnapshotOf(latest, id)
      && forall ev :: ev in s.log && ev.peer == peer && SnapshotOf(ev, id) ==> EventLeq(ev, latest)
  {
    ListingMembers(s.log, peer);
    SortEventsSorts(Between(OfPeer(s.log, peer), ZERO_TIME, ZERO_TIME));
    LastSnapshotIs(Listing(s, peer), id);
  }

  // ---- the exact condition ----

  /** The writer of a row, read off the schedule: the event of the client that last finished, successfully, a write of
      the row. */
  function WriterBySchedule(init: System, actions: seq<Action>, id: Id): Option<Event> {
    if actions == [] then None
    else
      var before, a := actions[..|actions| - 1], actions[|actions| - 1];
      if PutsRow(Run(init, before), a, id) then Some(PendingOf(Run(init, before), a.client).logged)
      else WriterBySchedule(init, before, id)
  }

  /** The action finishes a write of the row that the table takes. */
  predicate PutsRow(s: System, a: Action, id: Id) {
    a.Finish? && !a.fails && OwesRow(PendingOf(s, a.client), id) && Takes(s, PendingOf(s, a.client).owed)
  }

  /** The client has logged its event and is to write the row next. */
  predicate OwesRow(p: Pending, id: Id) {
    p.ToWrite? && p.owed.PutRow? && p.owed.e.id == id
  }

  lemma WrittenWriters(s: System, ev: Event, write: Write)
    requires Takes(s, write)
    ensures Written(s, ev, write).writers == if write.PutRow? then s.writers[write.e.id := ev] else s.writers
  {
  }

  lemma FinishWriters(s: System, k: nat, fails: bool, id: Id)
    ensures var u := FinishPending(s, k, fails);
      if PutsRow(s, Finish(k, fails), id) then id in u.writers && u.writers[id] == PendingOf(s, k).logged
      else (id in u.writers <==> id in s.writers) && (id in s.writers ==> u.writers[id] == s.writers[id])
  {
    hide Takes, Written;
    match PendingOf(s, k)
    case ToWrite(ev, write) => if Takes(s, write) { WrittenWriters(s, ev, write); }
    case _ =>
  }

  lemma StepWriters(s: System, a: Action, id: Id)
    ensures var u := Next(s, a);
      if PutsRow(s, a, id) then id in u.writers && u.writers[id] == PendingOf(s, a.client).logged
      else (id in u.writers <==> id in s.writers) && (id in s.writers ==> u.writers[id] == s.writers[id])
  {
    hide StartCall, FinishPending, PutsRow, CanAppend;
    match a
    case Start(k, c) =>
      if s.lastId < c.id1 < c.id2 { StartBegins(s, k, c); }
      OnlyFinishPuts(s, a, id);
    case Append(_, _) => OnlyFinishPuts(s, a, id);
    case Finish(k, fails) => FinishWriters(s, k, fails, id);
    case Stop(_) => OnlyFinishPuts(s, a, id);
  }

  lemma OnlyFinishPuts(s: System, a: Action, id: Id)
    ensures PutsRow(s, a, id) ==> a.Finish?
  {
  }

  /** The history variable says what the schedule says. */
  lemma {:induction false} WritersMeaning(init: System, actions: seq<Action>, id: Id)
    requires Initial(init)
    ensures var s := Run(init, actions);
      WriterBySchedule(init, actions, id) == if id in s.writers then Some(s.writers[id]) else None
  {
    hide Next, PutsRow;
    if actions != [] {
      var before := actions[..|actions| - 1];
      WritersMeaning(init, before, id);
      StepWriters(Run(init, before), actions[|actions| - 1], id);
    }
  }

  /** The last writer of a peer's row. */
  function LastWriter(init: System, actions: seq<Action>, peer: Did, id: Id): Option<Event> {
    var wr := WriterBySchedule(init, actions, id);
    if wr.Some? && wr.value.peer == peer then wr else None
  }

  /** There is neither a logged snapshot nor a written row, or the latest snapshot and the last row write belong to one
      call, or to two calls that carried equal data. */
  predicate SameCallOrData(latest: Option<Event>, writer: Option<Event>) {
    match (latest, writer)
    case (None, None) => true
    case (Some(ev), Some(wr)) => ev == wr || DataIn(ev) == DataIn(wr)
    case _ => false
  }

  /** In every state of every interleaved run, replayed data and row data of an id agree if and only if the latest logged
      snapshot of the id and the last finished write of its row belong to the same call or carried equal data. */
  lemma AgreementBySchedule(init: System, actions: seq<Action>, peer: Did, id: Id)
    requires Initial(init) && id != NO_ID
    ensures var s := Run(init, actions);
      ReplayedData(s, peer, id) == RowData(s, peer, id)
      <==> SameCallOrData(LatestSnapshot(s, peer, id), LastWriter(init, actions, peer, id))
  {
    hide Run, Listing, Fold, LastSnapshot, DataIn, WellFormed, WriterBySchedule;
    InitialInv(init);
    RunKeeps(init, actions);
    WritersMeaning(init, actions, id);
    var s := Run(init, actions);
    ListingWellFormed(s, peer);
    FoldData(Listing(s, peer), id);
    if id in s.rows { assert ProperRow(s, id); }
  }

  // ---- runs whose writes to one id never overlap ----

  /** The client's call writes the row of the id. */
  predicate WritesRow(p: Pending, id: Id) {
    OwesRow(p, id) || (p.ToAppend? && p.write.PutRow? && p.write.e.id == id)
  }

  ghost predicate Busy(s: System, id: Id) {
    exists k :: k in s.clients && WritesRow(s.clients[k], id)
  }

  /** Some call has logged a snapshot of the id and not yet written its row. */
  ghost predicate Owed(s: System, id: Id) {
    exists k :: k in s.clients && OwesRow(s.clients[k], id)
  }

  /** The clock does not go back, a client finishes one call before it begins the next, no update begins while another
      call writes the same row, and a logged row write is neither lost nor abandoned. */
  ghost predicate Orderly(s: System, a: Action) {
    match a
    case Start(k, c) => PendingOf(s, k).Idle? && s.clock <= c.now && (c.req.EntityUpdate? ==> !Busy(s, c.req.id))
    case Append(_, _) => true
    case Finish(k, fails) => fails ==> forall id :: !OwesRow(PendingOf(s, k), id)
    case Stop(k) => forall id :: !OwesRow(PendingOf(s, k), id)
  }

  ghost predicate OrderlyRun(init: System, actions: seq<Action>) {
    forall i :: 0 <= i < |actions| ==> Orderly(Run(init, actions[..i]), actions[i])
  }

  predicate Before(ev: Event, s: System) {
    ev.timestamp <= s.clock && ev.id <= s.lastId
  }

  /** Everything logged or about to be was stamped by now. */
  ghost predicate Stamped(s: System) {
    && (forall i :: 0 <= i < |s.log| ==> Before(s.log[i], s) && s.log[i].peer != "")
    && (forall k :: k in s.clients && s.clients[k].ToAppend? ==> Before(s.clients[k].ev, s))
  }

  /** One call at a time writes a row. */
  ghost predicate Alone(s: System) {
    forall j, k, id :: j in s.clients && k in s.clients && WritesRow(s.clients[j], id) && WritesRow(s.clients[k], id) ==> j == k
  }

  /** A call about to log the event of a row write comes after every logged snapshot of the row; if the event is itself
      no snapshot, there is none yet. */
  ghost predicate Ahead(s: System) {
    forall k, id :: k in s.clients && s.clients[k].ToAppend? && WritesRow(s.clients[k], id) ==> AheadOf(s.log, s.clients[k].ev, id)
  }

  ghost predicate AheadOf(log: seq<Event>, ev: Event, id: Id) {
    forall i :: 0 <= i < |log| && SnapshotOf(log[i], id) ==> SnapshotOf(ev, id) && EventLeq(log[i], ev)
  }

  /** A call about to write a row holds the latest snapshot, or a definition of an id without snapshots. */
  ghost predicate Shown(s: System) {
    forall k, id :: k in s.clients && OwesRow(s.clients[k], id) ==> ShownBy(s, s.clients[k].logged, id)
  }

  ghost predicate ShownBy(s: System, ev: Event, id: Id) {
    if SnapshotOf(ev, id) then LatestSnapshot(s, ev.peer, id) == Some(ev)
    else forall peer :: LatestSnapshot(s, peer, id).None?
  }

  /** A row nobody is about to write was last written by the call of its latest snapshot. */
  ghost predicate Matched(s: System) {
    forall peer, id :: LatestSnapshot(s, peer, id).Some? && !Owed(s, id) ==> MatchedBy(s, peer, id)
  }

  ghost predicate MatchedBy(s: System, peer: Did, id: Id) {
    id in s.writers && LatestSnapshot(s, peer, id) == Some(s.writers[id])
  }

  ghost predicate Tidy(s: System) {
    Inv(s) && Stamped(s) && Alone(s) && Ahead(s) && Shown(s) && Matched(s)
  }

  // ---- what a logged event does to the latest snapshots ----

  lemma {:induction false} InsertLast(evs: seq<Event>, ev: Event, id: Id)
    requires SnapshotOf(ev, id) && forall i :: 0 <= i < |evs| && SnapshotOf(evs[i], id) ==> EventLeq(evs[i], ev)
    ensures LastSnapshot(InsertEvent(evs, ev), id) == Some(ev)
  {
    hide SnapshotOf;
    if evs != [] && !EventLeq(evs[|evs| - 1], ev) {
      InsertLast(evs[..|evs| - 1], ev, id);
    }
  }

  lemma {:induction false} InsertOther(evs: seq<Event>, ev: Event, id: Id)
    requires !SnapshotOf(ev, id)
    ensures LastSnapshot(InsertEvent(evs, ev), id) == LastSnapshot(evs, id)
  {
    hide SnapshotOf;
    if evs != [] && !EventLeq(evs[|evs| - 1], ev) {
      InsertOther(evs[..|evs| - 1], ev, id);
    }
  }

  lemma LogOther(s: System, u: System, ev: Event, peer: Did, id: Id)
    requires u.log == s.log + [ev] && (ev.peer != peer || !SnapshotOf(ev, id))
    ensures LatestSnapshot(u, peer, id) == LatestSnapshot(s, peer, id)
  {
    ListEventsAppend(s.log, ev, peer, ZERO_TIME, ZERO_TIME);
    hide ListEvents, LastSnapshot, SnapshotOf;
    if ev.peer == peer { InsertOther(Listing(s, peer), ev, id); }
  }

  lemma LogLatest(s: System, u: System, ev: Event, id: Id)
    requires u.log == s.log + [ev] && SnapshotOf(ev, id) && AheadOf(s.log, ev, id)
    ensures LatestSnapshot(u, ev.peer, id) == Some(ev)
  {
    ListEventsAppend(s.log, ev, ev.peer, ZERO_TIME, ZERO_TIME);
    ListingMembers(s.log, ev.peer);
    hide ListEvents, LastSnapshot, SnapshotOf;
    var evs := Listing(s, ev.peer);
    forall i | 0 <= i < |evs| && SnapshotOf(evs[i], id) ensures EventLeq(evs[i], ev) {
      assert evs[i] in evs;
      var j :| 0 <= j < |s.log| && s.log[j] == evs[i];
    }
    InsertLast(evs, ev, id);
  }

  /** A snapshot in the log belongs to the one peer its entity was born to. */
  lemma SnapshotPeer(s: System, peer: Did, id: Id)
    requires Inv(s) && LatestSnapshot(s, peer, id).Some?
    ensures id in s.births && s.births[id].peer == peer
  {
    LatestIsGreatest(s, peer, id);
    var ev := LatestSnapshot(s, peer, id).value;
    var i :| 0 <= i < |s.log| && s.log[i] == ev;
    hide LatestSnapshot;
    assert WellFormed(s.log[i]) && ProperCopy(s, s.log[i].payload.entity);
  }

  lemma SameLogSameSnapshots(s: System, u: System)
    requires u.log == s.log
    ensures forall peer, id :: LatestSnapshot(u, peer, id) == LatestSnapshot(s, peer, id)
  {
  }

  lemma NoSnapshots(s: System, ev: Event, id: Id)
    requires AheadOf(s.log, ev, id) && !SnapshotOf(ev, id)
    ensures forall peer :: LatestSnapshot(s, peer, id).None?
  {
    assert forall x :: x in s.log ==> !SnapshotOf(x, id);
    forall peer ensures LatestSnapshot(s, peer, id).None? { LatestIsGreatest(s, peer, id); }
  }

  // ---- what pending calls carry ----

  /** A call about to log a snapshot writes that row; the row it writes is born. */
  lemma PendingWrites(s: System, k: nat, id: Id)
    requires Inv(s) && k in s.clients
    ensures var p := s.clients[k];
      && (p.ToAppend? && SnapshotOf(p.ev, id) ==> WritesRow(p, id))
      && (WritesRow(p, id) ==> NO_ID < id <= s.lastId && id in s.births)
      && (OwesRow(p, id) ==> Records(p.logged, p.owed.e) && p.logged in s.log && s.births[id].peer == p.owed.e.peer)
  {
    assert ProperPending(s, s.clients[k]);
  }

  lemma LoggedSnapshotIsBorn(s: System, i: int, id: Id)
    requires Inv(s) && 0 <= i < |s.log| && SnapshotOf(s.log[i], id)
    ensures id <= s.lastId
  {
    assert ProperCopy(s, s.log[i].payload.entity);
  }

  // ---- every orderly step keeps a tidy state tidy ----

  /** A client dropping out of a state changes nothing for the others. */
  lemma DropClient(s: System, u: System, k: nat)
    requires Stamped(s) && Alone(s) && Ahead(s) && Shown(s)
    requires u.log == s.log && u.lastId == s.lastId && u.clock == s.clock && u.clients == s.clients[k := Idle]
    ensures Stamped(u) && Alone(u) && Ahead(u) && Shown(u)
  {
    SameLogSameSnapshots(s, u);
    hide LatestSnapshot, SnapshotOf, AheadOf;
  }

  lemma OwedByOthers(s: System, u: System, k: nat, id: Id)
    requires u.clients.Keys == s.clients.Keys + {k} && forall j :: j in s.clients && j != k ==> u.clients[j] == s.clients[j]
    requires !OwesRow(PendingOf(s, k), id) || OwesRow(PendingOf(u, k), id)
    ensures Owed(s, id) ==> Owed(u, id)
  {
    if Owed(s, id) {
      var j :| j in s.clients && OwesRow(s.clients[j], id);
      assert OwesRow(u.clients[j], id);
    }
  }

  lemma MatchedStays(s: System, u: System, k: nat)
    requires Matched(s) && u.log == s.log && u.writers == s.writers
    requires u.clients.Keys == s.clients.Keys + {k} && forall j :: j in s.clients && j != k ==> u.clients[j] == s.clients[j]
    requires forall id :: !OwesRow(PendingOf(s, k), id)
    ensures Matched(u)
  {
    SameLogSameSnapshots(s, u);
    hide LatestSnapshot, OwesRow, Owed;
    forall peer, id | LatestSnapshot(u, peer, id).Some? && !Owed(u, id) ensures MatchedBy(u, peer, id) {
      OwedByOthers(s, u, k, id);
      assert MatchedBy(s, peer, id);
    }
  }

  lemma TidyStop(s: System, k: nat)
    requires Tidy(s) && forall id :: !OwesRow(PendingOf(s, k), id)
    ensures Tidy(s.(clients := s.clients[k := Idle]))
  {
    var u := s.(clients := s.clients[k := Idle]);
    hide Inv, Stamped, Alone, Ahead, Shown, Matched, OwesRow;
    StopKeeps(s, k);
    DropClient(s, u, k);
    MatchedStays(s, u, k);
  }

  /** The new call of a client: stamped now, and writing no row that another call writes. */
  predicate Begun(s: System, u: System, k: nat, c: Call) {
    && u.log == s.log && u.writers == s.writers && u.lastId == c.id2 && u.clock == c.now
    && k in u.clients && u.clients[k].ToAppend? && u.clients == s.clients[k := u.clients[k]]
    && u.clients[k].ev.timestamp == c.now && s.lastId < u.clients[k].ev.id <= c.id2
  }

  lemma BeginBegins(s: System, base: System, k: nat, c: Call, ev: Event, write: Write, births: map<Id, Birth>)
    requires base == s.(etypes := base.etypes, rtypes := base.rtypes)
    requires ev.timestamp == c.now && s.lastId < ev.id <= c.id2
    ensures Begun(s, Begin(base, k, c, ev, write, births), k, c)
    ensures Begin(base, k, c, ev, write, births).clients[k] == ToAppend(ev, write)
  {
  }

  lemma CreateBegins(s: System, k: nat, c: Call)
    requires s.lastId < c.id1 < c.id2 && c.req.EntityCreate?
    ensures var u := StartCreate(s, k, c);
      u == s || (Begun(s, u, k, c) && forall id :: WritesRow(u.clients[k], id) ==> s.lastId < id)
  {
    hide Validated, Begun, Begin;
    var defs := TypesOf(s.etypes, c.target);
    if c.req.etype in defs && Validated(defs[c.req.etype], c.req.fields).1 {
      var data := Validated(defs[c.req.etype], c.req.fields).0;
      var e := CreatedEntity(c, data);
      BeginBegins(s, s, k, c, CreateEvent(c, data), PutRow(e), s.births[e.id := BirthOf(e)]);
    }
  }

  lemma DefineBegins(s: System, k: nat, c: Call)
    requires s.lastId < c.id1 < c.id2 && Defines(c)
    ensures var u := StartDefine(s, k, c);
      Begun(s, u, k, c) && forall id :: WritesRow(u.clients[k], id) ==> s.lastId < id
  {
    hide DefinedType, DefinitionEntity, Learnt, Begun, Begin;
    LearntKeepsTables(s, c);
    DefinitionRow(c);
    var e := DefinitionEntity(c);
    BeginBegins(s, Learnt(s, c), k, c, DefinitionEvent(c), PutRow(e), s.births[e.id := BirthOf(e)]);
  }

  lemma UpdateBegins(s: System, k: nat, c: Call)
    requires s.lastId < c.id1 < c.id2 && c.req.EntityUpdate? && c.req.id in s.rows && s.rows[c.req.id].peer == c.target
    ensures Begun(s, StartCall(s, k, c), k, c)
    ensures s.rows[c.req.id].id == c.req.id ==>
      forall id :: WritesRow(StartCall(s, k, c).clients[k], id) ==> id == c.req.id && SnapshotOf(StartCall(s, k, c).clients[k].ev, id)
  {
    hide Begun, Begin;
    BeginBegins(s, s, k, c, UpdateEvent(c, s.rows[c.req.id]), PutRow(Merged(s.rows[c.req.id], c.req.changes, c.now)), s.births);
  }

  lemma OtherBegins(s: System, k: nat, c: Call)
    requires s.lastId < c.id1 < c.id2 && !c.req.EntityCreate? && !c.req.EntityUpdate? && !Defines(c)
    ensures var u := StartCall(s, k, c);
      u == s || (Begun(s, u, k, c) && forall id :: !WritesRow(u.clients[k], id))
  {
    hide Begun, Begin;
    if c.req.EntityArchive? {
      BeginBegins(s, s, k, c, ArchiveEvent(c), StampRow(c.target, c.req.id, c.now), s.births);
    } else if c.req.RelationCreate? {
      BeginBegins(s, s, k, c, RelationEvent(c), PutRelation(CreatedRelation(c)), s.births);
    } else if c.req.RelationDissolve? {
      BeginBegins(s, s, k, c, DissolveEvent(c), DropRelation(c.target, c.req.id), s.births);
    }
  }

  lemma StartBegins(s: System, k: nat, c: Call)
    requires s.lastId < c.id1 < c.id2
    ensures StartCall(s, k, c) == s || Begun(s, StartCall(s, k, c), k, c)
  {
    hide StartCreate, StartDefine, Begun, Begin;
    if c.req.EntityCreate? {
      CreateBegins(s, k, c);
    } else if c.req.EntityUpdate? {
      if c.req.id in s.rows && s.rows[c.req.id].peer == c.target { UpdateBegins(s, k, c); }
    } else if Defines(c) {
      DefineBegins(s, k, c);
    } else {
      OtherBegins(s, k, c);
    }
  }

  lemma BegunWrites(s: System, k: nat, c: Call, id: Id)
    requires s.lastId < c.id1 < c.id2 && StartCall(s, k, c) != s && k in StartCall(s, k, c).clients
    requires WritesRow(StartCall(s, k, c).clients[k], id) && forall x :: x in s.rows ==> s.rows[x].id == x
    ensures s.lastId < id || (c.req.EntityUpdate? && c.req.id == id && SnapshotOf(StartCall(s, k, c).clients[k].ev, id))
  {
    hide StartCreate, StartDefine, Begun, Begin, WritesRow;
    if c.req.EntityCreate? {
      CreateBegins(s, k, c);
    } else if c.req.EntityUpdate? {
      if c.req.id in s.rows && s.rows[c.req.id].peer == c.target { UpdateBegins(s, k, c); }
    } else if Defines(c) {
      DefineBegins(s, k, c);
    } else {
      OtherBegins(s, k, c);
    }
  }

  lemma BegunAlone(s: System, u: System, k: nat, c: Call)
    requires Inv(s) && Alone(s) && Begun(s, u, k, c) && PendingOf(s, k).Idle?
    requires forall id :: WritesRow(u.clients[k], id) ==> s.lastId < id || !Busy(s, id)
    ensures Alone(u)
  {
    forall j, i, id | j in u.clients && i in u.clients && WritesRow(u.clients[j], id) && WritesRow(u.clients[i], id) ensures j == i {
      if j != k { PendingWrites(s, j, id); }
      if i != k { PendingWrites(s, i, id); }
    }
  }

  lemma BegunAhead(s: System, u: System, k: nat, c: Call)
    requires Inv(s) && Stamped(s) && Ahead(s) && Begun(s, u, k, c) && s.clock <= c.now
    requires forall id :: WritesRow(u.clients[k], id) ==> s.lastId < id || SnapshotOf(u.clients[k].ev, id)
    ensures Ahead(u) && Stamped(u)
  {
    hide SnapshotOf, Inv;
    forall id | WritesRow(u.clients[k], id) ensures AheadOf(u.log, u.clients[k].ev, id) {
      forall i | 0 <= i < |u.log| && SnapshotOf(u.log[i], id)
        ensures SnapshotOf(u.clients[k].ev, id) && EventLeq(u.log[i], u.clients[k].ev)
      {
        LoggedSnapshotIsBorn(s, i, id);
        assert Before(s.log[i], s);
      }
    }
  }

  lemma BegunShown(s: System, u: System, k: nat, c: Call)
    requires Shown(s) && Begun(s, u, k, c)
    ensures Shown(u)
  {
    SameLogSameSnapshots(s, u);
    hide LatestSnapshot, SnapshotOf;
  }

  lemma BegunRow(s: System, k: nat, c: Call)
    requires Inv(s) && s.lastId < c.id1 < c.id2 && StartCall(s, k, c) != s && Begun(s, StartCall(s, k, c), k, c)
    requires c.req.EntityUpdate? ==> !Busy(s, c.req.id)
    ensures var u := StartCall(s, k, c);
      forall id :: WritesRow(u.clients[k], id) ==> s.lastId < id || (!Busy(s, id) && SnapshotOf(u.clients[k].ev, id))
  {
    hide StartCall, Busy, WritesRow;
    assert forall x :: x in s.rows ==> s.rows[x].id == x by { forall x | x in s.rows ensures s.rows[x].id == x { assert ProperRow(s, x); } }
    forall id | WritesRow(StartCall(s, k, c).clients[k], id)
      ensures s.lastId < id || (!Busy(s, id) && SnapshotOf(StartCall(s, k, c).clients[k].ev, id))
    {
      BegunWrites(s, k, c, id);
    }
  }

  lemma TidyStart(s: System, k: nat, c: Call)
    requires Tidy(s) && s.lastId < c.id1 < c.id2 && Orderly(s, Start(k, c))
    ensures Tidy(StartCall(s, k, c))
  {
    var u := StartCall(s, k, c);
    assert forall id :: !OwesRow(PendingOf(s, k), id);
    hide StartCall, Inv, Stamped, Alone, Ahead, Shown, Matched, Busy, OwesRow, WritesRow;
    StartBegins(s, k, c);
    StartKeeps(s, k, c);
    if u != s {
      BegunRow(s, k, c);
      BegunAlone(s, u, k, c);
      BegunAhead(s, u, k, c);
      BegunShown(s, u, k, c);
      MatchedStays(s, u, k);
    }
  }

  lemma LoggedAhead(s: System, u: System, k: nat, ev: Event, write: Write)
    requires Inv(s) && Stamped(s) && Alone(s) && Ahead(s) && k in s.clients && s.clients[k] == ToAppend(ev, write) && ev.peer != ""
    requires u == s.(log := s.log + [ev], clients := s.clients[k := ToWrite(ev, write)])
    ensures Stamped(u) && Alone(u) && Ahead(u)
  {
    forall j, id | j in u.clients && u.clients[j].ToAppend? && WritesRow(u.clients[j], id) ensures AheadOf(u.log, u.clients[j].ev, id) {
      assert AheadOf(s.log, s.clients[j].ev, id);
      PendingWrites(s, k, id);
    }
    hide Inv, SnapshotOf;
    assert forall i :: 0 <= i < |s.log| ==> u.log[i] == s.log[i];
  }

  lemma LoggedShown(s: System, u: System, k: nat, ev: Event, write: Write)
    requires Inv(s) && Alone(s) && Ahead(s) && Shown(s) && k in s.clients && s.clients[k] == ToAppend(ev, write)
    requires u == s.(log := s.log + [ev], clients := s.clients[k := ToWrite(ev, write)])
    ensures Shown(u)
  {
    hide LatestSnapshot, Inv, SnapshotOf;
    forall j, id | j in u.clients && OwesRow(u.clients[j], id) ensures ShownBy(u, u.clients[j].logged, id) {
      if j == k {
        assert WritesRow(s.clients[k], id) && AheadOf(s.log, ev, id);
        if SnapshotOf(ev, id) {
          LogLatest(s, u, ev, id);
        } else {
          NoSnapshots(s, ev, id);
          forall peer ensures LatestSnapshot(u, peer, id).None? { LogOther(s, u, ev, peer, id); }
        }
      } else {
        assert ShownBy(s, s.clients[j].logged, id);
        OthersSnapshot(s, k, j, id);
        forall peer ensures LatestSnapshot(u, peer, id) == LatestSnapshot(s, peer, id) { LogOther(s, u, ev, peer, id); }
      }
    }
  }

  /** While another call writes a row, no snapshot of it is about to be logged. */
  lemma OthersSnapshot(s: System, k: nat, j: nat, id: Id)
    requires Inv(s) && Alone(s) && k in s.clients && s.clients[k].ToAppend? && j in s.clients && j != k && WritesRow(s.clients[j], id)
    ensures !SnapshotOf(s.clients[k].ev, id)
  {
    PendingWrites(s, k, id);
  }

  lemma LoggedMatched(s: System, u: System, k: nat, ev: Event, write: Write)
    requires Inv(s) && Matched(s) && k in s.clients && s.clients[k] == ToAppend(ev, write)
    requires u == s.(log := s.log + [ev], clients := s.clients[k := ToWrite(ev, write)])
    ensures Matched(u)
  {
    hide LatestSnapshot, Inv, SnapshotOf, Owed;
    forall peer, id | LatestSnapshot(u, peer, id).Some? && !Owed(u, id) ensures MatchedBy(u, peer, id) {
      PendingWrites(s, k, id);
      if SnapshotOf(ev, id) { OwedBy(u, k, id); }
      LogOther(s, u, ev, peer, id);
      OwedByOthers(s, u, k, id);
      assert MatchedBy(s, peer, id);
    }
  }

  lemma OwedBy(s: System, k: nat, id: Id)
    requires k in s.clients && OwesRow(s.clients[k], id)
    ensures Owed(s, id)
  {
  }

  lemma TidyAppend(s: System, k: nat, fails: bool)
    requires Tidy(s)
    ensures Tidy(AppendPending(s, k, fails))
  {
    match PendingOf(s, k)
    case ToAppend(ev, write) =>
      if fails || !CanAppend(s.log, ev) {
        TidyStop(s, k);
      } else {
        var u := AppendPending(s, k, fails);
        hide Inv, Stamped, Alone, Ahead, Shown, Matched, CanAppend;
        AppendKeeps(s, k, fails);
        assert ev.peer != "" by { AppendedPeer(s.log, ev); }
        LoggedAhead(s, u, k, ev, write);
        LoggedShown(s, u, k, ev, write);
        LoggedMatched(s, u, k, ev, write);
      }
    case _ =>
  }

  lemma AppendedPeer(log: seq<Event>, ev: Event)
    requires CanAppend(log, ev)
    ensures ev.peer != ""
  {
  }

  /** The table takes every row write of a tidy state. */
  lemma RowIsTaken(s: System, k: nat, id: Id)
    requires Inv(s) && Stamped(s) && k in s.clients && OwesRow(s.clients[k], id)
    ensures Takes(s, s.clients[k].owed)
  {
    PendingWrites(s, k, id);
    var ev := s.clients[k].logged;
    var i :| 0 <= i < |s.log| && s.log[i] == ev;
  }

  lemma WrittenMatched(s: System, u: System, k: nat, ev: Event, e: Entity)
    requires Inv(s) && Shown(s) && Matched(s) && k in s.clients && s.clients[k] == ToWrite(ev, PutRow(e))
    requires u.log == s.log && u.writers == s.writers[e.id := ev] && u.clients == s.clients[k := Idle]
    ensures Matched(u)
  {
    SameLogSameSnapshots(s, u);
    PendingWrites(s, k, e.id);
    hide LatestSnapshot, Inv, SnapshotOf, Owed;
    forall peer, id | LatestSnapshot(u, peer, id).Some? && !Owed(u, id) ensures MatchedBy(u, peer, id) {
      SnapshotPeer(s, peer, id);
      if id == e.id {
        assert ShownBy(s, ev, id);
      } else {
        OwedByOthers(s, u, k, id);
        assert MatchedBy(s, peer, id);
      }
    }
  }

  lemma WrittenFinish(s: System, k: nat, fails: bool)
    requires PendingOf(s, k).ToWrite?
    ensures var u, p := FinishPending(s, k, fails), PendingOf(s, k);
      && u.log == s.log && u.lastId == s.lastId && u.clock == s.clock && u.clients == s.clients[k := Idle]
      && u.writers == if p.owed.PutRow? && !fails && Takes(s, p.owed) then s.writers[p.owed.e.id := p.logged] else s.writers
  {
    hide Takes, Written;
    var p := PendingOf(s, k);
    if Takes(s, p.owed) {
      WrittenFrame(s, s.clients, p.logged, p.owed);
      WrittenWriters(s, p.logged, p.owed);
      WrittenLog(s, p.logged, p.owed);
    }
  }

  lemma WrittenLog(s: System, ev: Event, write: Write)
    requires Takes(s, write)
    ensures Written(s, ev, write).log == s.log
  {
  }

  lemma TidyFinish(s: System, k: nat, fails: bool)
    requires Tidy(s) && Orderly(s, Finish(k, fails))
    ensures Tidy(FinishPending(s, k, fails))
  {
    hide Inv, Stamped, Alone, Ahead, Shown, Matched, Takes, Written;
    match PendingOf(s, k)
    case ToWrite(ev, write) =>
      var u := FinishPending(s, k, fails);
      if write.PutRow? && !fails { RowIsTaken(s, k, write.e.id); }
      WrittenFinish(s, k, fails);
      FinishKeeps(s, k, fails);
      hide FinishPending;
      DropClient(s, u, k);
      if write.PutRow? && !fails {
        WrittenMatched(s, u, k, ev, write.e);
      } else {
        MatchedStays(s, u, k);
      }
    case _ =>
  }

  lemma TidyNext(s: System, a: Action)
    requires Tidy(s) && Orderly(s, a)
    ensures Tidy(Next(s, a))
  {
    hide Tidy, StartCall, AppendPending, FinishPending;
    match a
    case Start(k, c) => if s.lastId < c.id1 < c.id2 { TidyStart(s, k, c); }
    case Append(k, fails) => TidyAppend(s, k, fails);
    case Finish(k, fails) => TidyFinish(s, k, fails);
    case Stop(k) => TidyStop(s, k);
  }

  lemma InitialTidy(s: System)
    requires Initial(s)
    ensures Tidy(s)
  {
    InitialInv(s);
    forall peer, id ensures LatestSnapshot(s, peer, id).None? { LatestIsGreatest(s, peer, id); }
  }

  lemma FirstOrderly(init: System, actions: seq<Action>)
    requires actions != [] && OrderlyRun(init, actions)
    ensures var before := actions[..|actions| - 1];
      OrderlyRun(init, before) && Orderly(Run(init, before), actions[|actions| - 1])
  {
    hide Orderly, Run;
    var before := actions[..|actions| - 1];
    forall i | 0 <= i < |before| ensures Orderly(Run(init, before[..i]), before[i]) {
      assert before[..i] == actions[..i];
    }
  }

  lemma {:induction false} OrderlyRunsAreTidy(init: System, actions: seq<Action>)
    requires Initial(init) && OrderlyRun(init, actions)
    ensures Tidy(Run(init, actions))
  {
    hide Tidy, Next, OrderlyRun, Orderly;
    if actions == [] {
      InitialTidy(init);
    } else {
      FirstOrderly(init, actions);
      OrderlyRunsAreTidy(init, actions[..|actions| - 1]);
      TidyNext(Run(init, actions[..|actions| - 1]), actions[|actions| - 1]);
    }
  }

  /** When writes to one row never overlap, replay and table agree on every id with a logged snapshot that no call is
      about to write. */
  lemma OrderlyRunsAgree(init: System, actions: seq<Action>, peer: Did, id: Id)
    requires Initial(init) && OrderlyRun(init, actions) && id != NO_ID
    ensures var s := Run(init, actions);
      LatestSnapshot(s, peer, id).Some? && !Owed(s, id) ==> ReplayedData(s, peer, id) == RowData(s, peer, id)
  {
    hide Run, LatestSnapshot, Owed, ReplayedData, OrderlyRun, WriterBySchedule;
    var s := Run(init, actions);
    OrderlyRunsAreTidy(init, actions);
    AgreementBySchedule(init, actions, peer, id);
    WritersMeaning(init, actions, id);
    if LatestSnapshot(s, peer, id).Some? && !Owed(s, id) {
      assert MatchedBy(s, peer, id);
      LatestIsGreatest(s, peer, id);
    }
  }
}
