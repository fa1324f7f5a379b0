/** The interleaved machine against the serial one: an operation whose steps follow one another undisturbed is the
    operation of the shared machine. */
module Adequacy {
  import opened Types
  import opened Requests
  import opened Shared
  import opened Interleaving

  /** The interleaved machine and the shared one hold the same log, tables and types. */
  predicate SameTables(s: System, w: World) {
    s.log == w.log && s.rows == w.rows && s.rels == w.rels && s.etypes == w.etypes && s.rtypes == w.rtypes
  }

  /** The three steps of one call, with its storage failure if it has one. */
  function Script(k: nat, c: Call): seq<Action> {
    [Start(k, c), Append(k, c.fault.AppendFails?), Finish(k, c.fault.WriteFails?)]
  }

  /** Three actions in a row. */
  lemma RunThree(s: System, a: Action, b: Action, c: Action)
    ensures Run(s, [a, b, c]) == Next(Next(Next(s, a), b), c)
  {
    hide Next;
    assert [a, b, c][..2] == [a, b] && [a, b][..1] == [a] && [a][..0] == [];
    assert Run(s, [a]) == Next(s, a);
    assert Run(s, [a, b]) == Next(Run(s, [a]), b);
    assert Run(s, [a, b, c]) == Next(Run(s, [a, b]), c);
  }

  /** The last two steps. */
  function Completed(s: System, k: nat, fault: Fault): System {
    FinishPending(AppendPending(s, k, fault.AppendFails?), k, fault.WriteFails?)
  }

  /** The steps of one call touch no other client. */
  ghost predicate OthersWait(s: System, u: System, k: nat) {
    PendingOf(u, k).Idle? && forall j :: j != k ==> PendingOf(u, j) == PendingOf(s, j)
  }

  /** A row write does not look at the clients. */
  lemma WrittenFrame(s: System, clients: map<nat, Pending>, ev: Event, write: Write)
    ensures Takes(s.(clients := clients), write) <==> Takes(s, write)
    ensures Takes(s, write) ==> Written(s.(clients := clients), ev, write) == Written(s, ev, write).(clients := clients)
    ensures Takes(s, write) ==>
      Written(s, ev, write).clients == s.clients && Written(s, ev, write).lastId == s.lastId && Written(s, ev, write).clock == s.clock
  {
  }

  /** What the last two steps leave: the event is refused, or it is logged and its row is written if it can be. */
  lemma CompletedIs(s: System, k: nat, ev: Event, write: Write, fault: Fault)
    requires k in s.clients && s.clients[k] == ToAppend(ev, write)
    ensures var logged := s.(log := s.log + [ev]);
      Completed(s, k, fault).(clients := s.clients) ==
        if fault.AppendFails? || !CanAppend(s.log, ev) then s
        else if fault.WriteFails? || !Takes(logged, write) then logged
        else Written(logged, ev, write)
  {
    hide CanAppend, Takes, Written;
    var logged := s.(log := s.log + [ev]);
    WrittenFrame(logged, s.clients[k := ToWrite(ev, write)], ev, write);
    assert s.(clients := s.clients) == s;
  }

  lemma CompletedOthers(s: System, k: nat, fault: Fault)
    requires PendingOf(s, k).ToAppend?
    ensures OthersWait(s, Completed(s, k, fault), k)
  {
    hide CanAppend, Takes, Written;
    var ev, write := s.clients[k].ev, s.clients[k].write;
    WrittenFrame(s.(log := s.log + [ev]), s.clients[k := ToWrite(ev, write)], ev, write);
  }

  /** Logging and writing, undisturbed, are the shared write path. */
  lemma CompletedCommits(s: System, k: nat, ev: Event, write: Write, fault: Fault, w: World, written: Option<World>, done: Reply)
    requires k in s.clients && s.clients[k] == ToAppend(ev, write) && SameTables(s, w)
    requires var logged := s.(log := s.log + [ev]);
      (written.Some? <==> Takes(logged, write)) && (written.Some? ==> SameTables(Written(logged, ev, write), written.value))
    ensures var u := Completed(s, k, fault); SameTables(u, Commit(w, ev, fault, written, done).0) && OthersWait(s, u, k)
  {
    CompletedIs(s, k, ev, write, fault);
    CompletedOthers(s, k, fault);
    hide CanAppend, Takes, Written, Completed, OthersWait;
  }

  lemma FinishAdvances(s: System, k: nat, fails: bool)
    ensures FinishPending(s, k, fails).lastId == s.lastId && FinishPending(s, k, fails).clock == s.clock
  {
    hide Takes, Written;
    match PendingOf(s, k)
    case ToWrite(ev, write) => WrittenFrame(s, s.clients, ev, write);
    case _ =>
  }

  lemma AppendAdvances(s: System, k: nat, fails: bool)
    ensures AppendPending(s, k, fails).lastId == s.lastId && AppendPending(s, k, fails).clock == s.clock
  {
    hide CanAppend;
  }

  lemma CompletedKeeps(s: System, k: nat, fault: Fault)
    ensures Completed(s, k, fault).lastId == s.lastId && Completed(s, k, fault).clock == s.clock
  {
    hide AppendPending, FinishPending;
    AppendAdvances(s, k, fault.AppendFails?);
    FinishAdvances(AppendPending(s, k, fault.AppendFails?), k, fault.WriteFails?);
  }

  lemma ScriptRuns(s: System, k: nat, c: Call)
    requires s.lastId < c.id1 < c.id2
    ensures Run(s, Script(k, c)) == Completed(StartCall(s, k, c), k, c.fault)
  {
    hide StartCall, AppendPending, FinishPending, Run;
    RunThree(s, Start(k, c), Append(k, c.fault.AppendFails?), Finish(k, c.fault.WriteFails?));
  }

  lemma CreateAdequate(s: System, w: World, k: nat, c: Call)
    requires SameTables(s, w) && PendingOf(s, k).Idle? && c.req.EntityCreate?
    ensures SameTables(Completed(StartCreate(s, k, c), k, c.fault), OpEntityCreate(w, c).0)
    ensures OthersWait(s, Completed(StartCreate(s, k, c), k, c.fault), k)
  {
    hide Validated, CreatedEntity, CreateEvent, Commit, Completed;
    var defs := TypesOf(s.etypes, c.target);
    if c.req.etype in defs && Validated(defs[c.req.etype], c.req.fields).1 {
      var data := Validated(defs[c.req.etype], c.req.fields).0;
      var e, ev := CreatedEntity(c, data), CreateEvent(c, data);
      CompletedCommits(StartCreate(s, k, c), k, ev, PutRow(e), c.fault, w, UpsertEntity(Logged(w, ev), e), EntityReply(e));
    } else {
      NothingToComplete(s, k, c.fault);
    }
  }

  lemma NothingToComplete(s: System, k: nat, fault: Fault)
    requires PendingOf(s, k).Idle?
    ensures Completed(s, k, fault) == s && OthersWait(s, s, k)
  {
  }

  lemma UpdateAdequate(s: System, w: World, k: nat, c: Call)
    requires SameTables(s, w) && PendingOf(s, k).Idle? && c.req.EntityUpdate?
    ensures SameTables(Completed(StartCall(s, k, c), k, c.fault), OpEntityUpdate(w, c).0)
    ensures OthersWait(s, Completed(StartCall(s, k, c), k, c.fault), k)
  {
    hide Merged, UpdateEvent, Commit, Completed;
    if c.req.id in s.rows && s.rows[c.req.id].peer == c.target {
      var e, ev := Merged(s.rows[c.req.id], c.req.changes, c.now), UpdateEvent(c, s.rows[c.req.id]);
      CompletedCommits(StartCall(s, k, c), k, ev, PutRow(e), c.fault, w, UpsertEntity(Logged(w, ev), e), EntityReply(e));
    } else {
      NothingToComplete(s, k, c.fault);
    }
  }

  lemma ArchiveAdequate(s: System, w: World, k: nat, c: Call)
    requires SameTables(s, w) && PendingOf(s, k).Idle? && c.req.EntityArchive?
    ensures SameTables(Completed(StartCall(s, k, c), k, c.fault), OpEntityArchive(w, c).0)
    ensures OthersWait(s, Completed(StartCall(s, k, c), k, c.fault), k)
  {
    hide ArchiveEvent, Commit, Completed;
    var ev := ArchiveEvent(c);
    CompletedCommits(StartCall(s, k, c), k, ev, StampRow(c.target, c.req.id, c.now), c.fault, w,
                     ArchiveEntity(Logged(w, ev), c.target, c.req.id, c.now), StampReply(c.req.id, c.now));
  }

  lemma RelateAdequate(s: System, w: World, k: nat, c: Call)
    requires SameTables(s, w) && PendingOf(s, k).Idle? && c.req.RelationCreate?
    ensures SameTables(Completed(StartCall(s, k, c), k, c.fault), OpRelationCreate(w, c).0)
    ensures OthersWait(s, Completed(StartCall(s, k, c), k, c.fault), k)
  {
    hide CreatedRelation, RelationEvent, Commit, Completed;
    if c.req.rtype in TypesOf(s.rtypes, c.target) {
      var r, ev := CreatedRelation(c), RelationEvent(c);
      CompletedCommits(StartCall(s, k, c), k, ev, PutRelation(r), c.fault, w, UpsertRelation(Logged(w, ev), r), RelationReply(r));
    } else {
      NothingToComplete(s, k, c.fault);
    }
  }

  lemma DissolveAdequate(s: System, w: World, k: nat, c: Call)
    requires SameTables(s, w) && PendingOf(s, k).Idle? && c.req.RelationDissolve?
    ensures SameTables(Completed(StartCall(s, k, c), k, c.fault), OpRelationDissolve(w, c).0)
    ensures OthersWait(s, Completed(StartCall(s, k, c), k, c.fault), k)
  {
    hide DissolveEvent, Commit, Completed;
    var ev := DissolveEvent(c);
    CompletedCommits(StartCall(s, k, c), k, ev, DropRelation(c.target, c.req.id), c.fault, w,
                     DissolveRelation(Logged(w, ev), c.target, c.req.id), StampReply(c.req.id, c.now));
  }

  lemma LearntAdequate(s: System, w: World, c: Call)
    requires SameTables(s, w) && Defines(c)
    ensures SameTables(Learnt(s, c), RegisterType(w, c.target, c.req.kind, DefinedType(c)))
    ensures Learnt(s, c).clients == s.clients
  {
    hide DefinedType;
  }

  lemma DefineAdequate(s: System, w: World, k: nat, c: Call)
    requires SameTables(s, w) && PendingOf(s, k).Idle? && Defines(c)
    ensures SameTables(Completed(StartDefine(s, k, c), k, c.fault), OpTypeDefine(w, c).0)
    ensures OthersWait(s, Completed(StartDefine(s, k, c), k, c.fault), k)
  {
    hide DefinitionEntity, DefinitionEvent, DefinedType, Learnt, RegisterType, Commit, Completed;
    var u, ev, e := RegisterType(w, c.target, c.req.kind, DefinedType(c)), DefinitionEvent(c), DefinitionEntity(c);
    LearntAdequate(s, w, c);
    CompletedCommits(StartDefine(s, k, c), k, ev, PutRow(e), c.fault, u, UpsertEntity(Logged(u, ev), e), TypeReply(DefinedType(c)));
  }

  /** One handler operation, its steps undisturbed, leaves the interleaved machine with the log, tables and types that
      the shared one has after it, whichever of its writes fails. */
  lemma ScriptIsDispatch(s: System, w: World, k: nat, c: Call)
    requires SameTables(s, w) && PendingOf(s, k).Idle? && s.lastId < c.id1 < c.id2
    ensures SameTables(Run(s, Script(k, c)), Dispatch(w, c).0) && OthersWait(s, Run(s, Script(k, c)), k)
  {
    ScriptRuns(s, k, c);
    hide Run, Script, Completed, OthersWait, StartCreate, StartDefine, Begin, OpEntityCreate, OpEntityUpdate, OpEntityArchive,
      OpRelationCreate, OpRelationDissolve, OpTypeDefine, Read, Commit;
    match c.req
    case EntityCreate(_, _, _, _) => CreateAdequate(s, w, k, c);
    case EntityUpdate(_, _, _, _) => UpdateAdequate(s, w, k, c);
    case EntityArchive(_, _, _) => ArchiveAdequate(s, w, k, c);
    case RelationCreate(_, _, _, _, _, _) => RelateAdequate(s, w, k, c);
    case RelationDissolve(_, _, _) => DissolveAdequate(s, w, k, c);
    case TypeDefine(_, _, _, _, _, _, _) => DefineAdequate(s, w, k, c);
    case SeedType(_, _, _) => DefineAdequate(s, w, k, c);
    case _ => NothingToComplete(s, k, c.fault);
  }

  /** A call that begins draws its ids and reads its clock; one that does not leaves both alone. */
  predicate Advances(s: System, u: System, c: Call) {
    (u.lastId == s.lastId && u.clock == s.clock) || (u.lastId == c.id2 && u.clock == c.now)
  }

  lemma CreateAdvances(s: System, k: nat, c: Call)
    ensures c.req.EntityCreate? ==> Advances(s, StartCreate(s, k, c), c)
    ensures Defines(c) ==> Advances(s, StartDefine(s, k, c), c)
  {
    hide CreatedEntity, CreateEvent, DefinitionEntity, DefinitionEvent, DefinedType, Validated, Learnt;
  }

  lemma BeginAdvances(s: System, k: nat, c: Call, ev: Event, write: Write)
    ensures Advances(s, Begin(s, k, c, ev, write, s.births), c)
  {
  }

  lemma StartAdvances(s: System, k: nat, c: Call)
    ensures Advances(s, StartCall(s, k, c), c)
  {
    hide StartCreate, StartDefine, UpdateEvent, Merged, ArchiveEvent, RelationEvent, CreatedRelation, DissolveEvent, Begin;
    CreateAdvances(s, k, c);
    match c.req
    case EntityUpdate(id, changes, _, _) =>
      if id in s.rows { BeginAdvances(s, k, c, UpdateEvent(c, s.rows[id]), PutRow(Merged(s.rows[id], changes, c.now))); }
    case EntityArchive(id, _, _) => BeginAdvances(s, k, c, ArchiveEvent(c), StampRow(c.target, id, c.now));
    case RelationCreate(_, _, _, _, _, _) => BeginAdvances(s, k, c, RelationEvent(c), PutRelation(CreatedRelation(c)));
    case RelationDissolve(id, _, _) => BeginAdvances(s, k, c, DissolveEvent(c), DropRelation(c.target, id));
    case _ =>
  }

  lemma ScriptAdvances(s: System, k: nat, c: Call)
    requires s.lastId < c.id1 < c.id2
    ensures Run(s, Script(k, c)).lastId <= c.id2 && (Run(s, Script(k, c)).clock == s.clock || Run(s, Script(k, c)).clock == c.now)
  {
    ScriptRuns(s, k, c);
    hide StartCall, Run, Completed, Script;
    StartAdvances(s, k, c);
    CompletedKeeps(StartCall(s, k, c), k, c.fault);
  }

  /** A serial run, as a schedule of one client. */
  function Serial(calls: seq<Call>): seq<Action> {
    if calls == [] then [] else Serial(calls[..|calls| - 1]) + Script(0, calls[|calls| - 1])
  }

  /** Calls that the shared machine dispatches, with no peers joining and no restarts between them. */
  predicate Dispatched(w: World, calls: seq<Call>) {
    forall i :: 0 <= i < |calls| ==>
      !calls[i].req.Join? && !calls[i].req.Reopen? && (calls[i].target in w.peers || calls[i].req.SeedType?)
  }

  lemma PeersStay(w: World, c: Call)
    requires !c.req.Join? && !c.req.Reopen?
    ensures Step(w, c).0.peers == w.peers
  {
    hide DefinitionEntity, DefinitionEvent, DefinedType, Validated, CreateEvent, CreatedEntity, Read;
  }

  lemma StepDispatches(w: World, c: Call)
    requires !c.req.Join? && !c.req.Reopen? && (c.target in w.peers || c.req.SeedType?)
    ensures Step(w, c) == Dispatch(w, c)
  {
    hide Dispatch;
  }

  /** The serial schedule is the serial run. */
  lemma {:induction false} SerialIsExec(s: System, w: World, calls: seq<Call>)
    requires SameTables(s, w) && Dispatched(w, calls) && Clocked(calls, s.lastId) && PendingOf(s, 0).Idle?
    ensures SameTables(Run(s, Serial(calls)), Exec(w, calls))
    ensures PendingOf(Run(s, Serial(calls)), 0).Idle? && Exec(w, calls).peers == w.peers
    ensures Run(s, Serial(calls)).lastId <= LastId(calls, s.lastId)
  {
    hide Step, Next, Dispatch;
    if calls != [] {
      var before, c := calls[..|calls| - 1], calls[|calls| - 1];
      SerialIsExec(s, w, before);
      var u, v := Run(s, Serial(before)), Exec(w, before);
      RunConcat(s, Serial(before), Script(0, c));
      ScriptIsDispatch(u, v, 0, c);
      ScriptAdvances(u, 0, c);
      StepDispatches(v, c);
      PeersStay(v, c);
    }
  }
}
