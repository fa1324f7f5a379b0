/** The types of a peer over whole runs, in the words of the calls that declared them. */
module TypeContracts {
  import opened Types
  import opened Definitions
  import opened Requests
  import opened Shared
  import opened Isolation
  import opened Rehydration
  import opened Runtime
  import opened Contracts
  import Private

  // ---- what a start makes of the stored definitions ----

  /** Call `i` is the first of the newest fifty to define the name. */
  predicate FirstOfFifty(ds: seq<Call>, i: int, name: string)
    requires forall j :: 0 <= j < |ds| ==> Defines(ds[j])
  {
    && 0 <= i < |ds| && |ds| - 50 <= i && NameOf(ds[i]) == name
    && forall j :: 0 <= j < i && |ds| - 50 <= j ==> NameOf(ds[j]) != name
  }

  predicate LastSeed(seeds: seq<TypeDef>, i: int, name: string) {
    0 <= i < |seeds| && seeds[i].name == name && forall j :: i < j < |seeds| ==> seeds[j].name != name
  }

  /** The first of the newest fifty definitions gives the type, or else the last seed does, or else there is none. */
  ghost predicate RecalledFrom(ds: seq<Call>, seeds: seq<TypeDef>, name: string, found: Option<TypeDef>)
    requires forall j :: 0 <= j < |ds| ==> Defines(ds[j])
  {
    && (forall i :: FirstOfFifty(ds, i, name) ==> found.Some? && KeptAs(ds[i], found.value))
    && ((forall i :: !FirstOfFifty(ds, i, name)) ==> forall j :: LastSeed(seeds, j, name) ==> found == Some(seeds[j]))
    && (found.Some? <==> (exists i :: FirstOfFifty(ds, i, name)) || exists j :: LastSeed(seeds, j, name))
  }

  lemma {:induction false} FirstMeans(defs: seq<TypeDef>, name: string)
    ensures match FirstNamed(defs, name)
      case Some(def) => exists i :: 0 <= i < |defs| && defs[i] == def && def.name == name && forall j :: 0 <= j < i ==> defs[j].name != name
      case None => forall i :: 0 <= i < |defs| ==> defs[i].name != name
  {
    if defs != [] && defs[0].name != name {
      var rest := defs[1..];
      FirstMeans(rest, name);
      if FirstNamed(rest, name).Some? {
        var i :| 0 <= i < |rest| && rest[i] == FirstNamed(rest, name).value && forall j :: 0 <= j < i ==> rest[j].name != name;
        assert defs[i + 1] == rest[i] && forall j :: 0 < j < i + 1 ==> defs[j] == rest[j - 1];
      } else {
        assert forall i :: 0 < i < |defs| ==> defs[i] == rest[i - 1];
      }
    }
  }

  lemma {:induction false} LastMeans(seeds: seq<TypeDef>, name: string)
    ensures match LastNamed(seeds, name)
      case Some(def) => exists i :: LastSeed(seeds, i, name) && seeds[i] == def
      case None => forall i :: !LastSeed(seeds, i, name)
  {
    if seeds != [] {
      var n := |seeds| - 1;
      if seeds[n].name == name {
        assert LastSeed(seeds, n, name);
      } else {
        var init := seeds[..n];
        LastMeans(init, name);
        forall i ensures LastSeed(seeds, i, name) <==> LastSeed(init, i, name) { }
      }
    }
  }

  lemma OneIsFirst(ds: seq<Call>, i: int, j: int, name: string)
    requires forall l :: 0 <= l < |ds| ==> Defines(ds[l])
    requires FirstOfFifty(ds, i, name) && FirstOfFifty(ds, j, name)
    ensures i == j
  {
  }

  lemma NewestFirst(ds: seq<Call>, name: string)
    requires forall l :: 0 <= l < |ds| ==> Defines(ds[l])
    ensures match FirstNamed(Latest(StoredDefs(ds)), name)
      case Some(def) => exists i :: FirstOfFifty(ds, i, name) && def == StoredDefs(ds)[i]
      case None => forall i :: !FirstOfFifty(ds, i, name)
  {
    hide StoredDef, NameOf, FirstNamed, Defines, KeptAs;
    var defs := StoredDefs(ds);
    var newest, skipped: nat := Latest(defs), if |ds| <= 50 then 0 else |ds| - 50;
    forall i | 0 <= i < |ds| ensures defs[i].name == NameOf(ds[i]) { NameIsDefined(ds[i]); }
    assert newest == defs[skipped..];
    FirstMeans(newest, name);
    if FirstNamed(newest, name).Some? {
      var i: nat :| i < |newest| && newest[i] == FirstNamed(newest, name).value && newest[i].name == name &&
        forall j :: 0 <= j < i ==> newest[j].name != name;
      forall j | skipped <= j < skipped + i ensures NameOf(ds[j]) != name { assert newest[j - skipped] == defs[j]; }
      assert FirstOfFifty(ds, skipped + i, name);
    } else {
      forall i: nat | skipped <= i < |ds| ensures NameOf(ds[i]) != name { assert newest[i - skipped] == defs[i]; }
    }
  }

  lemma RecallMeans(ds: seq<Call>, seeds: seq<TypeDef>, name: string)
    requires forall l :: 0 <= l < |ds| ==> Defines(ds[l])
    ensures RecalledFrom(ds, seeds, name, Recalled(StoredDefs(ds), seeds, name))
  {
    hide StoredDef, NameOf, KeptAs, FirstNamed, LastNamed, Latest, FirstOfFifty, Defines;
    NewestFirst(ds, name);
    LastMeans(seeds, name);
    var found := Recalled(StoredDefs(ds), seeds, name);
    forall i ensures FirstOfFifty(ds, i, name) ==> 0 <= i < |ds| { InRange(ds, i, name); }
    forall i | FirstOfFifty(ds, i, name) ensures found.Some? && KeptAs(ds[i], found.value) {
      var j :| FirstOfFifty(ds, j, name) && found == Some(StoredDefs(ds)[j]);
      OneIsFirst(ds, i, j, name);
      NameIsDefined(ds[i]);
    }
    forall i, j | LastSeed(seeds, i, name) && LastSeed(seeds, j, name) ensures i == j { }
  }

  lemma InRange(ds: seq<Call>, i: int, name: string)
    requires forall l :: 0 <= l < |ds| ==> Defines(ds[l])
    ensures FirstOfFifty(ds, i, name) ==> 0 <= i < |ds|
  {
  }

  // ---- what the resolver holds ----

  /** Call `i` defines the name, and neither a restart nor another definition of the name comes after it. */
  ghost predicate LastDefines(v: Private.View, calls: seq<Call>, k: Kind, i: int, name: string) {
    && DefinesAt(v, calls, k, i, name)
    && forall j :: i < j < |calls| ==> !calls[j].req.Reopen? && !DefinesAt(v, calls, k, j, name)
  }

  /** Call `i` defines the name for a peer that is served or being seeded. */
  ghost predicate DefinesAt(v: Private.View, calls: seq<Call>, k: Kind, i: int, name: string) {
    && 0 <= i < |calls| && Defines(calls[i]) && calls[i].req.kind == k && NameOf(calls[i]) == name
    && (calls[i].req.SeedType? || Private.Exec(v, calls[..i]).registered)
  }

  predicate LastStart(calls: seq<Call>, i: int) {
    0 <= i < |calls| && calls[i].req.Reopen? && forall j :: i < j < |calls| ==> !calls[j].req.Reopen?
  }

  /** A type known under a name is the one declared last since the last start, or what that start recalled of the stored
      ones; a peer that the start did not serve knows none. */
  ghost predicate KnownFrom(v: Private.View, calls: seq<Call>, k: Kind, name: string, known: Option<TypeDef>) {
    && (forall i :: LastDefines(v, calls, k, i, name) ==> known.Some? && Announced(calls[i], known.value))
    && ((forall i :: !LastDefines(v, calls, k, i, name)) ==>
          && ((forall i :: !LastStart(calls, i)) ==> known == At(KindTypes(v, k), name))
          && forall i :: LastStart(calls, i) ==> FromStart(v, calls, k, i, name, known))
  }

  ghost predicate FromStart(v: Private.View, calls: seq<Call>, k: Kind, i: int, name: string, known: Option<TypeDef>)
    requires LastStart(calls, i)
  {
    var listed := calls[i].req.listed;
    if v.peer in listed && "" !in listed then
      RecalledFrom(Definers(v, calls[..i], k), if k.EntityKind? then listed[v.peer].etypes else listed[v.peer].rtypes, name, known)
    else known == None
  }

  lemma Earlier(v: Private.View, calls: seq<Call>, k: Kind, i: int, name: string, known: Option<TypeDef>)
    requires calls != [] && !calls[|calls| - 1].req.Reopen? && !DefinesAt(v, calls, k, |calls| - 1, name)
    ensures var before := calls[..|calls| - 1];
      && (LastDefines(v, calls, k, i, name) <==> LastDefines(v, before, k, i, name))
      && (LastStart(calls, i) <==> LastStart(before, i))
      && (LastDefines(v, before, k, i, name) || LastStart(before, i) ==> 0 <= i < |before| && before[i] == calls[i])
      && (LastStart(before, i) ==> (FromStart(v, calls, k, i, name, known) <==> FromStart(v, before, k, i, name, known)))
  {
    hide Private.Exec, Defines, NameOf, RecalledFrom;
    var before := calls[..|calls| - 1];
    forall j | 0 <= j < |before| ensures before[..j] == calls[..j] && (DefinesAt(v, before, k, j, name) <==> DefinesAt(v, calls, k, j, name)) {
      assert before[..j] == calls[..j];
    }
  }

  lemma RestartDefinesNothing(c: Call)
    ensures c.req.Reopen? ==> !Defines(c)
  {
  }

  lemma AfterRestart(v: Private.View, calls: seq<Call>, k: Kind, name: string)
    requires calls != [] && calls[|calls| - 1].req.Reopen?
    ensures KnownFrom(v, calls, k, name, Live(v, calls, k, name))
  {
    hide Private.Exec, Definers, Recalled, RecalledFrom, Defines, NameOf, Announced, DefinedType, StoredDefs;
    var n := |calls| - 1;
    var c, ds := calls[n], Definers(v, calls[..n], k);
    RestartDefinesNothing(c);
    if v.peer in c.req.listed { RecallMeans(ds, SeedsOf(c.req.listed[v.peer], k), name); }
    assert LastStart(calls, n);
  }

  lemma AfterDefinition(v: Private.View, calls: seq<Call>, k: Kind, name: string)
    requires calls != [] && DefinesAt(v, calls, k, |calls| - 1, name)
    ensures KnownFrom(v, calls, k, name, Live(v, calls, k, name))
  {
    hide Private.Exec, NameOf, Announced, DefinedType, FromStart, Recalled;
    NameIsDefined(calls[|calls| - 1]);
    assert LastDefines(v, calls, k, |calls| - 1, name);
  }

  lemma {:induction false} LiveMeans(v: Private.View, calls: seq<Call>, k: Kind, name: string)
    ensures KnownFrom(v, calls, k, name, Live(v, calls, k, name))
  {
    var n := |calls| - 1;
    if calls == [] {
    } else if calls[n].req.Reopen? {
      AfterRestart(v, calls, k, name);
    } else if DefinesAt(v, calls, k, n, name) {
      AfterDefinition(v, calls, k, name);
    } else {
      LiveMeans(v, calls[..n], k, name);
      AfterOther(v, calls, k, name);
    }
  }

  lemma AfterOther(v: Private.View, calls: seq<Call>, k: Kind, name: string)
    requires calls != [] && !calls[|calls| - 1].req.Reopen? && !DefinesAt(v, calls, k, |calls| - 1, name)
    requires KnownFrom(v, calls[..|calls| - 1], k, name, Live(v, calls[..|calls| - 1], k, name))
    ensures KnownFrom(v, calls, k, name, Live(v, calls, k, name))
  {
    hide Private.Exec, NameOf, Announced, DefinedType, FromStart, Recalled, Defines;
    var n := |calls| - 1;
    var before, c := calls[..n], calls[n];
    if Defines(c) { NameIsDefined(c); }
    assert Live(v, calls, k, name) == Live(v, before, k, name);
    hide Live, DefinesAt, LastStart, LastDefines;
    var known := Live(v, calls, k, name);
    forall i
      ensures LastDefines(v, calls, k, i, name) <==> LastDefines(v, before, k, i, name)
      ensures LastStart(calls, i) <==> LastStart(before, i)
      ensures LastDefines(v, before, k, i, name) || LastStart(before, i) ==> 0 <= i < |before| && before[i] == calls[i]
      ensures LastStart(before, i) ==> (FromStart(v, calls, k, i, name, known) <==> FromStart(v, before, k, i, name, known))
    {
      Earlier(v, calls, k, i, name, known);
    }
  }

  /** After any run of all peers, with failures and restarts: what a peer's resolver holds under a name is what the last
      definition of it declared, or what the last start recalled; and the next start will recall what the first of the
      newest fifty stored ones declared, or else the seed. */
  lemma TypesAreDeclared(w: World, calls: seq<Call>, peer: Did, k: Kind, seeds: seq<TypeDef>, name: string)
    requires Proper(w, calls, peer, k)
    ensures KnownFrom(ViewOf(w, peer), CallsTo(calls, peer), k, name, At(TypesNow(Exec(w, calls), peer, k), name))
    ensures RecalledFrom(Definers(ViewOf(w, peer), CallsTo(calls, peer), k), seeds, name, At(TypesAtStart(Exec(w, calls), peer, k, seeds), name))
  {
    hide Proper, Exec, TypesNow, TypesAtStart, KnownFrom, RecalledFrom, Live, Definers, Recalled, StoredDefs;
    TypesAfterRun(w, calls, peer, k, seeds, name);
    LiveMeans(ViewOf(w, peer), CallsTo(calls, peer), k, name);
    RecallMeans(Definers(ViewOf(w, peer), CallsTo(calls, peer), k), seeds, name);
  }

  predicate DistinctNames(ds: seq<Call>)
    requires forall l :: 0 <= l < |ds| ==> Defines(ds[l])
  {
    forall i, j :: 0 <= i < j < |ds| ==> NameOf(ds[i]) != NameOf(ds[j])
  }

  /** So when a peer defines each name once, and at most fifty of them, the first restart changes nothing, and each type is
      then what the call that defined it declared. */
  lemma DefinedOnce(w: World, calls: seq<Call>, peer: Did, k: Kind, seeds: seq<TypeDef>)
    requires Proper(w, calls, peer, k) && Undisrupted(CallsTo(calls, peer), k) && TypesNow(w, peer, k) == map[]
    requires |DefsOf(w, calls, peer, k)| <= 50 && SeedsDefined(seeds, DefsOf(w, calls, peer, k))
    requires DistinctNames(Definers(ViewOf(w, peer), CallsTo(calls, peer), k))
    ensures var types, ds := TypesAtStart(Exec(w, calls), peer, k, seeds), Definers(ViewOf(w, peer), CallsTo(calls, peer), k);
      && types == TypesNow(Exec(w, calls), peer, k)
      && forall i :: 0 <= i < |ds| ==> NameOf(ds[i]) in types && KeptAs(ds[i], types[NameOf(ds[i])])
  {
    hide Proper, Exec, TypesAtStart, TypesNow, Undisrupted, SeedsDefined, Definers, NameOf, StoredDef, KeptAs, Defines, Announced;
    FirstRestartOfFew(w, calls, peer, k, seeds);
    var ds, types := Definers(ViewOf(w, peer), CallsTo(calls, peer), k), TypesAtStart(Exec(w, calls), peer, k, seeds);
    var defs := DefsOf(w, calls, peer, k);
    forall i | 0 <= i < |ds| ensures defs[i].name == NameOf(ds[i]) { NameIsDefined(ds[i]); }
    assert DistinctNames(ds);
    forall name ensures FirstNamed(defs, name) == LastNamed(defs, name) { FirstIsLast(defs, name); }
    forall i | 0 <= i < |ds| ensures NameOf(ds[i]) in types && KeptAs(ds[i], types[NameOf(ds[i])]) {
      TypesAreDeclared(w, calls, peer, k, seeds, NameOf(ds[i]));
      assert FirstOfFifty(ds, i, NameOf(ds[i]));
    }
  }
}
