/** Which peers a token opens.  Tokens are issued for names and kept apart from the registry, so what a token opens changes
    when peers are renamed and names are given out again. */
module Access {
  import opened Types
  import C = CrossPeer
  import R = Registry
  import T = Tokens

  /** What can happen to the registry and to the token store. */
  datatype Act = Add(did: Did, name: string) | Rename(oldName: string, newName: string) | Token(deed: T.Deed)

  /** The directory after one act: adding and renaming do nothing unless the names and DIDs allow it. */
  function Acted(dir: R.Directory, a: Act): R.Directory {
    match a
    case Add(did, name) => if name in dir.dids || did in dir.names then dir else dir.With(did, name)
    case Rename(oldName, newName) => if oldName !in dir.dids || newName in dir.dids then dir else dir.Renamed(oldName, newName)
    case Token(_) => dir
  }

  function DirAfter(acts: seq<Act>): R.Directory {
    if acts == [] then R.Directory(map[], map[]) else Acted(DirAfter(acts[..|acts| - 1]), acts[|acts| - 1])
  }

  function DeedsOf(acts: seq<Act>): seq<T.Deed> {
    if acts == [] then []
    else
      var last := acts[|acts| - 1];
      DeedsOf(acts[..|acts| - 1]) + if last.Token? then [last.deed] else []
  }

  function GateAfter(acts: seq<Act>, hash: string -> string): C.Gate {
    C.Gate(DirAfter(acts), T.After(DeedsOf(acts), hash), hash)
  }

  lemma ActConsistent(dir: R.Directory, a: Act)
    requires dir.Consistent()
    ensures Acted(dir, a).Consistent()
  {
    match a
    case Add(did, name) => R.WithConsistent(dir, did, name);
    case Rename(oldName, newName) =>
      if oldName in dir.dids && newName !in dir.dids { R.RenameMovesOnePeer(dir, oldName, newName); }
    case Token(_) =>
  }

  lemma {:induction false} AlwaysConsistent(acts: seq<Act>)
    ensures DirAfter(acts).Consistent()
  {
    hide R.Directory.Consistent;
    if acts == [] {
      NobodyConsistent();
    } else {
      AlwaysConsistent(acts[..|acts| - 1]);
      ActConsistent(DirAfter(acts[..|acts| - 1]), acts[|acts| - 1]);
    }
  }

  lemma NobodyConsistent()
    ensures R.Directory(map[], map[]).Consistent()
  {
  }

  /** The secret opens the peer: under some name or DID the caller is authorised for it. */
  ghost predicate Opens(acts: seq<Act>, hash: string -> string, secret: string, did: Did)
    requires DirAfter(acts).Consistent()
  {
    exists key :: C.Authorize(GateAfter(acts, hash), secret, key) == C.Authorized(did)
  }

  /** The i-th act issued a token that nothing revoked since. */
  ghost predicate InForce(acts: seq<Act>, i: int) {
    && 0 <= i < |acts| && acts[i].Token? && acts[i].deed.Issue? && acts[i].deed.peers != []
    && forall j :: i < j < |acts| ==> acts[j] != Token(T.Revoke(acts[i].deed.id))
  }

  predicate Lists(peers: seq<string>, name: string) {
    name in peers || T.EVERY_PEER in peers
  }

  /** A peer can be named in a request: by its name, or by its DID if no peer has that text as its name. */
  predicate Reachable(dir: R.Directory, did: Did) {
    did in dir.names && (dir.names[did] != "" || (did != "" && did !in dir.dids))
  }

  // ---- deeds and acts ----

  lemma {:induction false} DeedAt(acts: seq<Act>, i: nat)
    requires i < |acts| && acts[i].Token?
    ensures var k := |DeedsOf(acts[..i])|; k < |DeedsOf(acts)| && DeedsOf(acts)[k] == acts[i].deed
  {
    if i < |acts| - 1 {
      assert acts[..|acts| - 1][..i] == acts[..i];
      DeedAt(acts[..|acts| - 1], i);
    }
  }

  lemma {:induction false} ActOf(acts: seq<Act>, k: nat) returns (i: nat)
    requires k < |DeedsOf(acts)|
    ensures i < |acts| && acts[i] == Token(DeedsOf(acts)[k]) && |DeedsOf(acts[..i])| == k
  {
    var before := acts[..|acts| - 1];
    if k < |DeedsOf(before)| {
      i := ActOf(before, k);
      assert before[..i] == acts[..i];
    } else {
      i := |acts| - 1;
    }
  }

  lemma {:induction false} DeedsGrow(acts: seq<Act>, i: nat, j: nat)
    requires i <= j <= |acts|
    ensures |DeedsOf(acts[..i])| + (if i < j && acts[i].Token? then 1 else 0) <= |DeedsOf(acts[..j])|
    decreases j
  {
    if i < j {
      assert acts[..j][..j - 1] == acts[..j - 1];
      DeedsGrow(acts, i, j - 1);
    }
  }

  /** A token in force is a live one of the store, and the other way round. */
  lemma InForceIsLive(acts: seq<Act>, i: nat)
    requires i < |acts| && acts[i].Token?
    ensures InForce(acts, i) <==> T.Live(DeedsOf(acts), |DeedsOf(acts[..i])|)
  {
    var deeds, k := DeedsOf(acts), |DeedsOf(acts[..i])|;
    DeedAt(acts, i);
    if InForce(acts, i) {
      forall n | k < n < |deeds| ensures deeds[n] != T.Revoke(deeds[k].id) {
        var j := ActOf(acts, n);
        if j <= i { DeedsGrow(acts, j, i); }
        assert acts[j] != Token(T.Revoke(acts[i].deed.id));
      }
    }
    if T.Live(deeds, k) {
      forall j | i < j < |acts| ensures acts[j] != Token(T.Revoke(acts[i].deed.id)) {
        if acts[j].Token? {
          DeedAt(acts, j);
          DeedsGrow(acts, i, j);
          assert deeds[|DeedsOf(acts[..j])|] != T.Revoke(deeds[k].id);
        }
      }
    }
  }

  /** Some token in force has the secret and lists the name. */
  ghost predicate Listed(acts: seq<Act>, secret: string, name: string) {
    exists i :: InForce(acts, i) && acts[i].deed.secret == secret && Lists(acts[i].deed.peers, name)
  }

  lemma ListedIsGranted(acts: seq<Act>, hash: string -> string, secret: string, name: string)
    requires T.Distinct(DeedsOf(acts)) && T.Injective(hash)
    ensures Listed(acts, secret, name) <==> T.Judge(T.After(DeedsOf(acts), hash), hash(secret), name).Granted?
  {
    var deeds := DeedsOf(acts);
    T.TokenLifecycle(deeds, hash, secret, name);
    hide T.Judge, T.After, T.Live, T.Distinct, T.Injective, InForce;
    if Listed(acts, secret, name) {
      var i :| InForce(acts, i) && acts[i].deed.secret == secret && Lists(acts[i].deed.peers, name);
      assert 0 <= i < |acts| && acts[i].Token? by { InForceIndex(acts, i); }
      DeedAt(acts, i);
      InForceIsLive(acts, i);
      assert T.Live(deeds, |DeedsOf(acts[..i])|);
    }
    if k :| T.Live(deeds, k) && deeds[k].secret == secret && (name in deeds[k].peers || T.EVERY_PEER in deeds[k].peers) {
      assert 0 <= k < |deeds| by { LiveIndex(deeds, k); }
      var i := ActOf(acts, k);
      InForceIsLive(acts, i);
      assert InForce(acts, i);
    }
  }

  lemma InForceIndex(acts: seq<Act>, i: int)
    requires InForce(acts, i)
    ensures 0 <= i < |acts| && acts[i].Token? && acts[i].deed.Issue?
  {
  }

  lemma LiveIndex(deeds: seq<T.Deed>, k: int)
    requires T.Live(deeds, k)
    ensures 0 <= k < |deeds| && deeds[k].Issue?
  {
  }

  // ---- which peers a token opens ----

  /** After any history of adding and renaming peers and of issuing and revoking tokens, a secret opens exactly the peers
      that can be named and whose present name a token in force with that secret lists. */
  lemma SecretOpens(acts: seq<Act>, hash: string -> string, secret: string, did: Did)
    requires T.Distinct(DeedsOf(acts)) && T.Injective(hash)
    ensures DirAfter(acts).Consistent()
    ensures Opens(acts, hash, secret, did) <==>
            secret != "" && Reachable(DirAfter(acts), did) && Listed(acts, secret, DirAfter(acts).names[did])
  {
    var dir, gate := DirAfter(acts), GateAfter(acts, hash);
    AlwaysConsistent(acts);
    hide T.Judge, Listed, T.Distinct, T.Injective, DirAfter, DeedsOf, T.After;
    if key :| C.Authorize(gate, secret, key) == C.Authorized(did) {
      ListedIsGranted(acts, hash, secret, dir.names[did]);
    }
    if secret != "" && Reachable(dir, did) && Listed(acts, secret, dir.names[did]) {
      ListedIsGranted(acts, hash, secret, dir.names[did]);
      R.DidsFindTheirPeer(dir, did);
      var key := if dir.names[did] != "" then dir.names[did] else did;
      assert C.Authorize(gate, secret, key) == C.Authorized(did);
    }
  }

  /** A name stays with its peer until it is renamed away. */
  lemma {:induction false} NameStays(acts: seq<Act>, more: seq<Act>, did: Did)
    requires did in DirAfter(acts).names
    requires forall i :: 0 <= i < |more| ==> !(more[i].Rename? && more[i].oldName == DirAfter(acts).names[did])
    ensures did in DirAfter(acts + more).names && DirAfter(acts + more).names[did] == DirAfter(acts).names[did]
  {
    if more == [] {
      assert acts + more == acts;
    } else {
      var init, last := more[..|more| - 1], more[|more| - 1];
      NameStays(acts, init, did);
      assert (acts + more)[..|acts + more| - 1] == acts + init;
      AlwaysConsistent(acts + init);
    }
  }

  lemma StaysInForce(acts: seq<Act>, more: seq<Act>, i: int)
    requires InForce(acts, i) && forall j :: 0 <= j < |more| ==> more[j] != Token(T.Revoke(acts[i].deed.id))
    ensures InForce(acts + more, i) && (acts + more)[i] == acts[i]
  {
  }

  /** So a token goes on opening the peer it was issued for as long as the token is not revoked nor the peer's name changed,
      whatever else happens. */
  lemma UnrenamedStaysOpen(acts: seq<Act>, more: seq<Act>, hash: string -> string, i: int, did: Did)
    requires T.Distinct(DeedsOf(acts + more)) && T.Injective(hash)
    requires InForce(acts, i) && acts[i].deed.secret != "" && did in DirAfter(acts).names && DirAfter(acts).names[did] != ""
    requires Lists(acts[i].deed.peers, DirAfter(acts).names[did])
    requires forall j :: 0 <= j < |more| ==>
      more[j] != Token(T.Revoke(acts[i].deed.id)) && !(more[j].Rename? && more[j].oldName == DirAfter(acts).names[did])
    ensures DirAfter(acts + more).Consistent() && Opens(acts + more, hash, acts[i].deed.secret, did)
  {
    hide DirAfter, DeedsOf;
    NameStays(acts, more, did);
    StaysInForce(acts, more, i);
    SecretOpens(acts + more, hash, acts[i].deed.secret, did);
    hide InForce;
    assert Listed(acts + more, acts[i].deed.secret, DirAfter(acts).names[did]);
  }

  /** The names of two peers after one gives up its name and the other takes it. */
  lemma NamesAfterSwap(acts: seq<Act>, name: string, away: string, other: string)
    requires var dir := DirAfter(acts); dir.Consistent() && name in dir.dids && other in dir.dids && other != name && away !in dir.dids
    ensures var dir, after := DirAfter(acts), DirAfter(acts + [Rename(name, away), Rename(other, name)]);
      && dir.dids[name] in after.names && after.names[dir.dids[name]] == away
      && dir.dids[other] in after.names && after.names[dir.dids[other]] == name
  {
    var dir, once, twice := DirAfter(acts), acts + [Rename(name, away)], acts + [Rename(name, away), Rename(other, name)];
    assert twice[..|twice| - 1] == once && once[..|once| - 1] == acts;
    assert DirAfter(once) == dir.Renamed(name, away);
    R.RenameMovesOnePeer(dir, name, away);
    assert DirAfter(twice) == DirAfter(once).Renamed(other, name);
  }

  lemma SwapKeepsDeeds(acts: seq<Act>, a: Act, b: Act)
    requires a.Rename? && b.Rename?
    ensures DeedsOf(acts + [a, b]) == DeedsOf(acts)
  {
    assert (acts + [a, b])[..|acts| + 1] == acts + [a] && (acts + [a])[..|acts|] == acts;
    assert DeedsOf(acts + [a]) == DeedsOf(acts);
  }

  /** Two renames hand a token over: after any history, a token that lists one peer's name opens another peer that takes the
      name, and no longer the peer it was issued for. */
  lemma TokenChangesHands(acts: seq<Act>, hash: string -> string, i: int, name: string, away: string, other: string)
    requires T.Distinct(DeedsOf(acts)) && T.Injective(hash)
    requires InForce(acts, i) && acts[i].deed.secret != "" && name != ""
    requires var peers := acts[i].deed.peers; name in peers && away !in peers && other !in peers && T.EVERY_PEER !in peers
    requires var dir := DirAfter(acts); name in dir.dids && other in dir.dids && other != name && away !in dir.dids
    ensures var dir, after := DirAfter(acts), acts + [Rename(name, away), Rename(other, name)];
      && dir.Consistent() && DirAfter(after).Consistent()
      && Opens(acts, hash, acts[i].deed.secret, dir.dids[name]) && !Opens(acts, hash, acts[i].deed.secret, dir.dids[other])
      && !Opens(after, hash, acts[i].deed.secret, dir.dids[name]) && Opens(after, hash, acts[i].deed.secret, dir.dids[other])
  {
    var dir, after, secret := DirAfter(acts), acts + [Rename(name, away), Rename(other, name)], acts[i].deed.secret;
    AlwaysConsistent(acts);
    NamesAfterSwap(acts, name, away, other);
    SwapKeepsDeeds(acts, Rename(name, away), Rename(other, name));
    StaysInForce(acts, [Rename(name, away), Rename(other, name)], i);
    SecretOpens(acts, hash, secret, dir.dids[name]);
    SecretOpens(acts, hash, secret, dir.dids[other]);
    SecretOpens(after, hash, secret, dir.dids[name]);
    SecretOpens(after, hash, secret, dir.dids[other]);
    OnlyListed(acts, i);
    OnlyListed(after, i);
    hide InForce, Listed, DirAfter, DeedsOf, Opens;
  }

  /** No two tokens share a secret, so a secret lists what its token does. */
  lemma OnlyListed(acts: seq<Act>, i: int)
    requires T.Distinct(DeedsOf(acts)) && InForce(acts, i)
    ensures forall n :: Listed(acts, acts[i].deed.secret, n) <==> Lists(acts[i].deed.peers, n)
  {
    forall n, j | InForce(acts, j) && acts[j].deed.secret == acts[i].deed.secret && Lists(acts[j].deed.peers, n) ensures j == i {
      DeedAt(acts, i);
      DeedAt(acts, j);
      if i < j { DeedsGrow(acts, i, j); }
      if j < i { DeedsGrow(acts, j, i); }
    }
  }
}
