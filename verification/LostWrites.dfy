/** Serial schedules as a special case, and what overlapping calls lose: an update, or an archive. */
module LostWrites {
  import opened Types
  import opened Requests
  import opened EventLog
  import opened Ranking
  import opened Queries
  import opened Shared
  import opened Interleaving
  import opened Adequacy
  import opened Schedules
  import opened WholeRows
  import opened ApartRuns
  import Replay

  // ---- serial schedules ----

  ghost predicate AllIdle(s: System) {
    forall k :: PendingOf(s, k).Idle?
  }

  lemma ApartMore(init: System, actions: seq<Action>, a: Action)
    requires ApartRun(init, actions) && Apart(Run(init, actions), a)
    ensures ApartRun(init, actions + [a])
    ensures Run(init, actions + [a]) == Next(Run(init, actions), a)
  {
    hide Apart, Next;
    var more := actions + [a];
    assert more[..|actions|] == actions;
    forall i | 0 <= i < |more| ensures Apart(Run(init, more[..i]), more[i]) {
      if i < |actions| { assert more[..i] == actions[..i]; }
    }
  }

  lemma IdleIsFree(s: System, id: Id)
    requires AllIdle(s)
    ensures !Busy(s, id) && !Handled(s, id)
  {
    forall k | k in s.clients ensures !WritesRow(s.clients[k], id) && !Handles(s.clients[k], id) { assert PendingOf(s, k).Idle?; }
  }

  /** One undisturbed call without a failing row write keeps apart from the others. */
  lemma ScriptIsApart(init: System, actions: seq<Action>, c: Call)
    requires ApartRun(init, actions) && AllIdle(Run(init, actions))
    requires Run(init, actions).clock <= c.now && c.now > ZERO_TIME && !c.fault.WriteFails?
    ensures ApartRun(init, actions + Script(0, c))
  {
    hide Next, ApartRun, Busy, Handled, Run;
    var s := Run(init, actions);
    var a, b, d := Start(0, c), Append(0, c.fault.AppendFails?), Finish(0, false);
    if c.req.EntityUpdate? { IdleIsFree(s, c.req.id); }
    IdleIsFree(s, TargetRow(c));
    assert PendingOf(s, 0).Idle?;
    ApartMore(init, actions, a);
    ApartMore(init, actions + [a], b);
    ApartMore(init, actions + [a] + [b], d);
    assert actions + Script(0, c) == actions + [a] + [b] + [d];
  }

  /** A serial run without failing row writes is a schedule of calls that stay apart. */
  lemma {:induction false} SerialIsApart(init: System, w: World, calls: seq<Call>)
    requires Initial(init) && init.clock == ZERO_TIME && SameTables(init, w) && Dispatched(w, calls) && Clocked(calls, init.lastId)
    requires forall i :: 0 <= i < |calls| ==> !calls[i].fault.WriteFails?
    ensures ApartRun(init, Serial(calls)) && AllIdle(Run(init, Serial(calls)))
    ensures Run(init, Serial(calls)).clock <= LastTime(calls)
  {
    hide Next, Step, ApartRun;
    if calls == [] {
      assert ApartRun(init, []) by { NothingIsApart(init); }
    } else {
      var before, c := calls[..|calls| - 1], calls[|calls| - 1];
      SerialIsApart(init, w, before);
      SerialIsExec(init, w, before);
      var s := Run(init, Serial(before));
      ScriptIsApart(init, Serial(before), c);
      RunConcat(init, Serial(before), Script(0, c));
      ScriptAdvances(s, 0, c);
      ScriptIsDispatch(s, Exec(w, before), 0, c);
    }
  }

  lemma NothingIsApart(init: System)
    ensures ApartRun(init, [])
  {
  }

  /** The serial agreement of rows with replay is the special case of calls that do not overlap at all. */
  lemma SerialRunsAgree(init: System, w: World, calls: seq<Call>, peer: Did, id: Id)
    requires Initial(init) && init.clock == ZERO_TIME && SameTables(init, w) && Dispatched(w, calls) && Clocked(calls, init.lastId)
    requires (forall i :: 0 <= i < |calls| ==> !calls[i].fault.WriteFails?) && id != NO_ID
    ensures var s := Run(init, Serial(calls)); var f := Fold(Listing(s, peer));
      && SameTables(s, Exec(w, calls))
      && (id in f ==> id in s.rows && s.rows[id] == Replay.Replayed(f[id], ArchivedLast(Listing(s, peer), id)))
  {
    hide Run, Fold, Listing, LastEffective, ApartRun, Exec;
    SerialIsExec(init, w, calls);
    SerialIsApart(init, w, calls);
    ApartRunsAgree(init, Serial(calls), peer, id);
    IdleOwesNothing(Run(init, Serial(calls)), peer, id);
  }

  lemma IdleOwesNothing(s: System, peer: Did, id: Id)
    requires AllIdle(s)
    ensures !Awaited(s, peer, id)
  {
    forall k | k in s.clients ensures !Awaits(s.clients[k], peer, id) { assert PendingOf(s, k).Idle?; }
  }

  // ---- overlapping calls ----

  /** The invariant of interleaved runs, and a clock that nothing logged is ahead of. */
  ghost predicate Current(s: System) {
    Inv(s) && Stamped(s)
  }

  /** Calls begin in the order of their clock readings. */
  ghost predicate InTime(init: System, actions: seq<Action>) {
    forall i :: 0 <= i < |actions| && actions[i].Start? ==> Run(init, actions[..i]).clock <= actions[i].call.now
  }

  lemma WrittenStamped(s: System, k: nat, fails: bool)
    requires Stamped(s)
    ensures Stamped(FinishPending(s, k, fails))
  {
    hide Takes, Written;
    match PendingOf(s, k)
    case ToWrite(_, _) => WrittenFinish(s, k, fails);
    case _ =>
  }

  lemma BegunStamped(s: System, u: System, k: nat, c: Call)
    requires Stamped(s) && Begun(s, u, k, c) && s.clock <= c.now && s.lastId < c.id2
    ensures Stamped(u)
  {
  }

  lemma LoggedStamped(s: System, k: nat, fails: bool)
    requires Stamped(s)
    ensures Stamped(AppendPending(s, k, fails))
  {
    match PendingOf(s, k)
    case ToAppend(ev, write) =>
      assert CanAppend(s.log, ev) ==> ev.peer != "";
      hide CanAppend;
      StoppedStamped(s, k);
    case _ =>
  }

  lemma StoppedStamped(s: System, k: nat)
    requires Stamped(s)
    ensures Stamped(s.(clients := s.clients[k := Idle]))
  {
  }

  lemma StampedNext(s: System, a: Action)
    requires Stamped(s) && (a.Start? ==> s.clock <= a.call.now)
    ensures Stamped(Next(s, a))
  {
    hide StartCall, AppendPending, FinishPending, Begun, Stamped;
    match a
    case Start(k, c) =>
      if s.lastId < c.id1 < c.id2 {
        StartBegins(s, k, c);
        if StartCall(s, k, c) != s { BegunStamped(s, StartCall(s, k, c), k, c); }
      }
    case Append(k, fails) => LoggedStamped(s, k, fails);
    case Finish(k, fails) => WrittenStamped(s, k, fails);
    case Stop(k) => StoppedStamped(s, k);
  }

  /** Every state of every run whose calls begin in time is current, however they overlap and whatever fails. */
  lemma {:induction false} RunsStayCurrent(init: System, actions: seq<Action>)
    requires Initial(init) && InTime(init, actions)
    ensures Current(Run(init, actions))
  {
    hide Next, Inv, Stamped;
    if actions == [] {
      InitialInv(init);
      assert Stamped(init) by { InitialStamped(init); }
    } else {
      var before, a := actions[..|actions| - 1], actions[|actions| - 1];
      assert forall i :: 0 <= i < |before| ==> before[i] == actions[i] && before[..i] == actions[..i];
      RunsStayCurrent(init, before);
      NextKeeps(Run(init, before), a);
      StampedNext(Run(init, before), a);
    }
  }

  lemma InitialStamped(s: System)
    requires Initial(s)
    ensures Stamped(s)
  {
  }

  /** Two fresh calls of two idle clients to one live row, the second begun after the first. */
  ghost predicate Overlap(s: System, j: nat, k: nat, a: Call, b: Call, id: Id) {
    && Current(s) && j != k && PendingOf(s, j).Idle? && PendingOf(s, k).Idle? && id in s.rows
    && a.target == s.rows[id].peer && b.target == s.rows[id].peer
    && s.lastId < a.id1 < a.id2 < b.id1 < b.id2 && s.clock <= a.now <= b.now && ZERO_TIME < a.now
    && a.req.EntityUpdate? && a.req.id == id
  }

  lemma FreshAppends(s: System, ev: Event)
    requires Stamped(s) && ev.peer != "" && s.lastId < ev.id
    ensures CanAppend(s.log, ev)
  {
    forall i | 0 <= i < |s.log| ensures s.log[i].id != ev.id { assert Before(s.log[i], s); }
  }

  lemma BothAppend(s: System, x: Event, y: Event)
    requires Stamped(s) && x.peer != "" && y.peer != "" && s.lastId < x.id && s.lastId < y.id && x.id != y.id
    ensures CanAppend(s.log, x) && CanAppend(s.log + [x], y)
  {
    FreshAppends(s, x);
    FreshAppends(s, y);
  }

  lemma RowPeer(s: System, id: Id)
    requires Current(s) && id in s.rows
    ensures s.rows[id].peer != "" && NO_ID < id && s.rows[id].id == id
  {
    assert ProperRow(s, id);
    var i :| 0 <= i < |s.log| && s.log[i] == s.writers[id];
    assert Before(s.log[i], s);
  }

  lemma RunSix(s: System, a: Action, b: Action, c: Action, d: Action, e: Action, f: Action)
    ensures Run(s, [a, b, c, d, e, f]) == Next(Next(Next(Next(Next(Next(s, a), b), c), d), e), f)
  {
    hide Next, Run;
    RunThree(s, a, b, c);
    RunThree(Run(s, [a, b, c]), d, e, f);
    RunConcat(s, [a, b, c], [d, e, f]);
    assert [a, b, c] + [d, e, f] == [a, b, c, d, e, f];
  }

  lemma UpdateFacts(c: Call, row: Entity)
    requires c.req.EntityUpdate? && c.req.id == row.id && c.target == row.peer && row.id != NO_ID
    ensures var ev, e := UpdateEvent(c, row), Merged(row, c.req.changes, c.now);
      && ev.peer == row.peer && ev.id == c.id1 && ev.timestamp == c.now && SnapshotOf(ev, row.id) && WellFormed(ev)
      && DataIn(ev) == DataOr(row.data) + c.req.changes && DataOr(e.data) == DataOr(row.data) + c.req.changes
      && e.id == row.id && e.peer == row.peer && e.archivedAt == row.archivedAt
  {
  }

  lemma ArchiveFacts(c: Call)
    requires c.req.EntityArchive?
    ensures var ev := ArchiveEvent(c);
      ev.peer == c.target && ev.id == c.id1 && ev.timestamp == c.now && ev.etype == EntityArchived && ev.payload == ArchivePayload(c.req.id, c.now)
  {
  }

  /** Both read, both log, and they write in the opposite order. */
  function Crossing(j: nat, k: nat, a: Call, b: Call): seq<Action> {
    [Start(j, a), Start(k, b), Append(j, false), Append(k, false), Finish(k, false), Finish(j, false)]
  }

  lemma StartUpdate(s: System, k: nat, c: Call)
    requires c.req.EntityUpdate? && c.req.id in s.rows && s.rows[c.req.id].peer == c.target && s.lastId < c.id1 < c.id2
    ensures Next(s, Start(k, c)) == s.(
      clients := s.clients[k := ToAppend(UpdateEvent(c, s.rows[c.req.id]), PutRow(Merged(s.rows[c.req.id], c.req.changes, c.now)))],
      lastId := c.id2, clock := c.now)
  {
    hide UpdateEvent, Merged;
  }

  lemma AppendOne(s: System, k: nat, ev: Event, write: Write)
    requires PendingOf(s, k) == ToAppend(ev, write) && CanAppend(s.log, ev)
    ensures Next(s, Append(k, false)) == s.(log := s.log + [ev], clients := s.clients[k := ToWrite(ev, write)])
  {
    hide CanAppend;
  }

  lemma FinishRow(s: System, k: nat, ev: Event, e: Entity)
    requires PendingOf(s, k) == ToWrite(ev, PutRow(e)) && e.id != NO_ID && e.peer != ""
    ensures Next(s, Finish(k, false)) ==
      s.(rows := s.rows[e.id := Row(e)], writers := s.writers[e.id := ev], clients := s.clients[k := Idle])
  {
  }

  /** The last four steps of a crossing, from the state in which both calls have begun. */
  lemma CrossedWrites(s: System, j: nat, k: nat, x: Event, e: Entity, y: Event, f: Entity)
    requires j != k && PendingOf(s, j) == ToAppend(x, PutRow(e)) && PendingOf(s, k) == ToAppend(y, PutRow(f))
    requires CanAppend(s.log, x) && CanAppend(s.log + [x], y) && e.id == f.id != NO_ID && e.peer != "" && f.peer != ""
    ensures var u := Next(Next(Next(Next(s, Append(j, false)), Append(k, false)), Finish(k, false)), Finish(j, false));
      u.log == s.log + [x] + [y] && e.id in u.rows && u.rows[e.id] == Row(e)
  {
    hide Next, CanAppend;
    AppendOne(s, j, x, PutRow(e));
    var s3 := Next(s, Append(j, false));
    AppendOne(s3, k, y, PutRow(f));
    var s4 := Next(s3, Append(k, false));
    FinishRow(s4, k, y, f);
    var s5 := Next(s4, Finish(k, false));
    FinishRow(s5, j, x, e);
  }

  lemma CrossingEnds(s: System, j: nat, k: nat, a: Call, b: Call, id: Id)
    requires Overlap(s, j, k, a, b, id) && b.req.EntityUpdate? && b.req.id == id
    ensures var u := Run(s, Crossing(j, k, a, b)); var row := s.rows[id];
      && u.log == s.log + [UpdateEvent(a, row)] + [UpdateEvent(b, row)]
      && id in u.rows && u.rows[id] == Row(Merged(row, a.req.changes, a.now))
  {
    RowPeer(s, id);
    var row := s.rows[id];
    var x, y, e, f := UpdateEvent(a, row), UpdateEvent(b, row), Merged(row, a.req.changes, a.now), Merged(row, b.req.changes, b.now);
    UpdateFacts(a, row);
    UpdateFacts(b, row);
    hide Stamped, UpdateEvent, Merged, SnapshotOf, WellFormed, DataIn, Inv, Alone, Ahead, Shown, Matched;
    BothAppend(s, x, y);
    hide Current, Next, Run, CanAppend;
    RunSix(s, Start(j, a), Start(k, b), Append(j, false), Append(k, false), Finish(k, false), Finish(j, false));
    StartUpdate(s, j, a);
    var s1 := Next(s, Start(j, a));
    StartUpdate(s1, k, b);
    CrossedWrites(Next(s1, Start(k, b)), j, k, x, e, y, f);
  }

  /** From every state of every run in time, any two updates of one row can cross so that both succeed, the row keeps the first and
      replay shows the second: they disagree whenever the two give the data different values. */
  lemma CrossingUpdatesDisagree(s: System, j: nat, k: nat, a: Call, b: Call, id: Id)
    requires Overlap(s, j, k, a, b, id) && b.req.EntityUpdate? && b.req.id == id
    ensures var u := Run(s, Crossing(j, k, a, b)); var data := DataOr(s.rows[id].data);
      && RowData(u, a.target, id) == Some(data + a.req.changes)
      && ReplayedData(u, a.target, id) == Some(data + b.req.changes)
  {
    hide Run, Inv, SnapshotOf, UpdateEvent, Merged, Fold, Listing, LastSnapshot, DataIn, WellFormed, Stamped, Alone, Ahead, Shown, Matched;
    var u, row := Run(s, Crossing(j, k, a, b)), s.rows[id];
    var x, y := UpdateEvent(a, row), UpdateEvent(b, row);
    CrossingEnds(s, j, k, a, b, id);
    RunKeeps(s, Crossing(j, k, a, b));
    RowPeer(s, id);
    UpdateFacts(a, row);
    UpdateFacts(b, row);
    StampedBefore(s, y);
    assert AheadOf(s.log + [x], y, id);
    LogLatest(u.(log := s.log + [x]), u, y, id);
    ListingWellFormed(u, a.target);
    FoldData(Listing(u, a.target), id);
  }

  lemma StampedBefore(s: System, ev: Event)
    requires Current(s) && s.clock <= ev.timestamp && s.lastId < ev.id
    ensures forall i :: 0 <= i < |s.log| ==> EventLeq(s.log[i], ev)
  {
    forall i | 0 <= i < |s.log| ensures EventLeq(s.log[i], ev) { assert Before(s.log[i], s); }
  }

  /** An update reads before an archive and writes after it. */
  function Straddling(j: nat, k: nat, a: Call, b: Call): seq<Action> {
    [Start(j, a), Start(k, b), Append(k, false), Finish(k, false), Append(j, false), Finish(j, false)]
  }

  lemma StartArchive(s: System, k: nat, c: Call)
    requires c.req.EntityArchive? && s.lastId < c.id1 < c.id2
    ensures Next(s, Start(k, c)) == s.(
      clients := s.clients[k := ToAppend(ArchiveEvent(c), StampRow(c.target, c.req.id, c.now))], lastId := c.id2, clock := c.now)
  {
    hide ArchiveEvent;
  }

  lemma FinishStamp(s: System, k: nat, ev: Event, peer: Did, id: Id, at: Time)
    requires PendingOf(s, k) == ToWrite(ev, StampRow(peer, id, at)) && peer != "" && id != NO_ID && id in s.rows && s.rows[id].peer == peer
    ensures Next(s, Finish(k, false)) ==
      s.(rows := s.rows[id := s.rows[id].(archivedAt := Some(at), updatedAt := at)], clients := s.clients[k := Idle])
  {
  }

  /** The last four steps of a straddled archive. */
  lemma StraddledWrites(s: System, j: nat, k: nat, x: Event, e: Entity, y: Event, peer: Did, at: Time)
    requires j != k && PendingOf(s, j) == ToAppend(x, PutRow(e)) && PendingOf(s, k) == ToAppend(y, StampRow(peer, e.id, at))
    requires CanAppend(s.log, y) && CanAppend(s.log + [y], x) && e.id != NO_ID && e.peer != ""
    requires peer != "" && e.id in s.rows && s.rows[e.id].peer == peer
    ensures var u := Next(Next(Next(Next(s, Append(k, false)), Finish(k, false)), Append(j, false)), Finish(j, false));
      u.log == s.log + [y] + [x] && e.id in u.rows && u.rows[e.id] == Row(e)
  {
    hide Next, CanAppend;
    AppendOne(s, k, y, StampRow(peer, e.id, at));
    var s3 := Next(s, Append(k, false));
    FinishStamp(s3, k, y, peer, e.id, at);
    var s4 := Next(s3, Finish(k, false));
    AppendOne(s4, j, x, PutRow(e));
    var s5 := Next(s4, Append(j, false));
    FinishRow(s5, j, x, e);
  }

  lemma StraddlingEnds(s: System, j: nat, k: nat, a: Call, b: Call, id: Id)
    requires Overlap(s, j, k, a, b, id) && b.req.EntityArchive? && b.req.id == id
    ensures var u := Run(s, Straddling(j, k, a, b)); var row := s.rows[id];
      && u.log == s.log + [ArchiveEvent(b)] + [UpdateEvent(a, row)]
      && id in u.rows && u.rows[id] == Row(Merged(row, a.req.changes, a.now))
  {
    RowPeer(s, id);
    var row := s.rows[id];
    var x, y, e := UpdateEvent(a, row), ArchiveEvent(b), Merged(row, a.req.changes, a.now);
    UpdateFacts(a, row);
    ArchiveFacts(b);
    hide Stamped, UpdateEvent, ArchiveEvent, Merged, SnapshotOf, WellFormed, DataIn, Inv, Alone, Ahead, Shown, Matched;
    BothAppend(s, y, x);
    hide Current, Next, Run, CanAppend;
    RunSix(s, Start(j, a), Start(k, b), Append(k, false), Finish(k, false), Append(j, false), Finish(j, false));
    StartUpdate(s, j, a);
    var s1 := Next(s, Start(j, a));
    StartArchive(s1, k, b);
    StraddledWrites(Next(s1, Start(k, b)), j, k, x, e, y, b.target, b.now);
  }

  lemma InsertAtEnd(evs: seq<Event>, ev: Event)
    requires forall i :: 0 <= i < |evs| ==> EventLeq(evs[i], ev)
    ensures InsertEvent(evs, ev) == evs + [ev]
  {
  }

  lemma ListedBefore(s: System, peer: Did, ev: Event)
    requires forall i :: 0 <= i < |s.log| ==> EventLeq(s.log[i], ev)
    ensures forall i :: 0 <= i < |Listing(s, peer)| ==> EventLeq(Listing(s, peer)[i], ev)
  {
    ListingMembers(s.log, peer);
    hide ListEvents;
    forall i | 0 <= i < |Listing(s, peer)| ensures EventLeq(Listing(s, peer)[i], ev) {
      assert Listing(s, peer)[i] in Listing(s, peer);
      var j :| 0 <= j < |s.log| && s.log[j] == Listing(s, peer)[i];
    }
  }

  /** Logged late but stamped early, the update is listed before the archive. */
  lemma StraddlingListing(s: System, u: System, x: Event, y: Event, peer: Did)
    requires u.log == s.log + [y] + [x] && x.peer == peer && y.peer == peer
    requires forall i :: 0 <= i < |s.log| ==> EventLeq(s.log[i], x) && EventLeq(s.log[i], y)
    requires !EventLeq(y, x)
    ensures Listing(u, peer) == Listing(s, peer) + [x] + [y]
  {
    var evs := Listing(s, peer);
    ListedBefore(s, peer, x);
    ListedBefore(s, peer, y);
    ListEventsAppend(s.log, y, peer, ZERO_TIME, ZERO_TIME);
    ListEventsAppend(s.log + [y], x, peer, ZERO_TIME, ZERO_TIME);
    hide ListEvents, EventLeq;
    InsertAtEnd(evs, y);
    InsertAtEnd(evs, x);
    assert (evs + [y])[..|evs|] == evs;
  }

  /** From every such state, an update that straddles an archive undoes it in the row: both succeed, the archive is
      logged and replayed, and the row is not archived. */
  lemma StraddlingUpdateUnarchives(s: System, j: nat, k: nat, a: Call, b: Call, id: Id)
    requires Overlap(s, j, k, a, b, id) && b.req.EntityArchive? && b.req.id == id && s.rows[id].archivedAt.None?
    ensures var u := Run(s, Straddling(j, k, a, b)); var f := Fold(Listing(u, a.target));
      && id in u.rows && u.rows[id].archivedAt.None?
      && id in f && f[id].archivedAt == Some(b.now)
  {
    hide Run, Inv, SnapshotOf, UpdateEvent, ArchiveEvent, Fold, Listing, DataIn, WellFormed, Stamped, Alone, Ahead, Shown, Matched, Merged;
    var u, row := Run(s, Straddling(j, k, a, b)), s.rows[id];
    var x, y := UpdateEvent(a, row), ArchiveEvent(b);
    RowPeer(s, id);
    UpdateFacts(a, row);
    ArchiveFacts(b);
    StraddlingEnds(s, j, k, a, b, id);
    StampedBefore(s, x);
    StampedBefore(s, y);
    StraddlingListing(s, u, x, y, a.target);
    var evs := Listing(s, a.target);
    FoldAppend(evs, x);
    FoldAppend(evs + [x], y);
    FoldEventData(Fold(evs), x, id);
  }
}
