/** Bearer tokens: issued for peer names, kept as hashes, verified by looking up the hash of the secret presented. */
module Tokens {
  import opened Types

  const EVERY_PEER := "*"

  /** What a token grants, without the time it was last used. */
  datatype Grant = Grant(id: string, hash: string, peers: seq<string>, tag: string)

  datatype Verdict = Granted(grant: Grant) | UnknownToken | NotCovered

  predicate Covers(g: Grant, name: string) {
    exists i :: 0 <= i < |g.peers| && (g.peers[i] == EVERY_PEER || g.peers[i] == name)
  }

  /** The first grant stored under a hash. */
  function Lookup(gs: seq<Grant>, hash: string): Option<Grant> {
    if gs == [] then None else if gs[0].hash == hash then Some(gs[0]) else Lookup(gs[1..], hash)
  }

  function Judge(gs: seq<Grant>, hash: string, name: string): Verdict {
    var g := Lookup(gs, hash);
    if g.None? then UnknownToken else if Covers(g.value, name) then Granted(g.value) else NotCovered
  }

  /** The grants without the first that has the id. */
  function Without(gs: seq<Grant>, id: string): seq<Grant> {
    if gs == [] then [] else if gs[0].id == id then gs[1..] else [gs[0]] + Without(gs[1..], id)
  }

  /** Where the first grant with the id is, or the length of the list. */
  function IndexOf(gs: seq<Grant>, id: string): (k: nat)
    ensures k <= |gs| && (forall i :: 0 <= i < k ==> gs[i].id != id) && (k < |gs| ==> gs[k].id == id)
  {
    if gs == [] || gs[0].id == id then 0 else 1 + IndexOf(gs[1..], id)
  }

  lemma {:induction false} WithoutIndex(gs: seq<Grant>, id: string)
    ensures var k := IndexOf(gs, id); Without(gs, id) == if k < |gs| then gs[..k] + gs[k + 1..] else gs
  {
    if gs != [] && gs[0].id != id {
      WithoutIndex(gs[1..], id);
      var k := IndexOf(gs[1..], id);
      if k < |gs| - 1 {
        assert gs[..k + 1] == [gs[0]] + gs[1..][..k] && gs[k + 2..] == gs[1..][k + 1..];
      }
    }
  }

  // ---- The store ----

  class Token {
    const grant: Grant
    const createdAt: Time
    var lastUsedAt: Time

    constructor (grant: Grant, createdAt: Time)
      ensures this.grant == grant && this.createdAt == createdAt && lastUsedAt == ZERO_TIME
    {
      this.grant, this.createdAt, lastUsedAt := grant, createdAt, ZERO_TIME;
    }
  }

  function Grants(tokens: seq<Token>): (gs: seq<Grant>)
    ensures |gs| == |tokens|
  {
    seq(|tokens|, i requires 0 <= i < |tokens| => tokens[i].grant)
  }

  class TokenStore {
    var tokens: seq<Token>
    const hash: string -> string

    constructor (hash: string -> string)
      ensures tokens == [] && this.hash == hash
    {
      tokens := [];
      this.hash := hash;
    }

    function Contents(): seq<Grant>
      reads this
    {
      Grants(tokens)
    }

    /** The id and the secret are drawn by the caller; `flushed` is whether writing the file works. */
    method Issue(peers: seq<string>, tag: string, id: string, secret: string, now: Time, flushed: bool) returns (ok: bool)
      modifies this
      ensures ok == (peers != [] && flushed)
      ensures Contents() == old(Contents()) + if peers == [] then [] else [Grant(id, hash(secret), peers, tag)]
      ensures old(tokens) <= tokens
    {
      if |peers| == 0 {
        return false;
      }
      var tok := new Token(Grant(id, hash(secret), peers, tag), now);
      tokens := tokens + [tok];
      return flushed;
    }

    method Verify(secret: string, peerName: string) returns (v: Verdict)
      ensures v == Judge(Contents(), hash(secret), peerName)
    {
      var h := hash(secret);
      var matched: Token? := null;
      var i := 0;
      while i < |tokens| && matched == null
        invariant i <= |tokens|
        invariant Lookup(Contents(), h) == if matched == null then Lookup(Contents()[i..], h) else Some(matched.grant)
        decreases |tokens| - i, matched == null
      {
        assert Contents()[i..][1..] == Contents()[i + 1..];
        var t := tokens[i];
        if t.grant.hash == h {
          matched := t;
        } else {
          i := i + 1;
        }
      }
      if matched == null {
        return UnknownToken;
      }
      var covered := TokenCoversPeer(matched, peerName);
      return if covered then Granted(matched.grant) else NotCovered;
    }

    method TokenCoversPeer(t: Token, name: string) returns (covered: bool)
      ensures covered == Covers(t.grant, name)
    {
      for i := 0 to |t.grant.peers|
        invariant forall j :: 0 <= j < i ==> t.grant.peers[j] != EVERY_PEER && t.grant.peers[j] != name
      {
        var p := t.grant.peers[i];
        if p == EVERY_PEER || p == name {
          return true;
        }
      }
      return false;
    }

    method Revoke(id: string, flushed: bool) returns (ok: bool)
      modifies this
      ensures Contents() == Without(old(Contents()), id)
      ensures ok == (flushed && IndexOf(old(Contents()), id) < |old(tokens)|)
    {
      WithoutIndex(Contents(), id);
      for i := 0 to |tokens|
        invariant tokens == old(tokens)
        invariant IndexOf(Contents(), id) >= i
      {
        var t := tokens[i];
        if t.grant.id == id {
          ghost var was := Contents();
          assert was[i].id == id;
          tokens := tokens[..i] + tokens[i + 1..];
          assert Contents() == was[..i] + was[i + 1..];
          return flushed;
        }
      }
      return false;
    }

    /** Runs some time after a successful verification; no verdict ever depends on it. */
    method Touch(id: string, now: Time)
      modifies set i | 0 <= i < |tokens| :: tokens[i]
      ensures Contents() == old(Contents())
      ensures var k := IndexOf(Contents(), id);
        forall t :: t in tokens ==> t.lastUsedAt == if k < |tokens| && t == tokens[k] then now else old(t.lastUsedAt)
    {
      for i := 0 to |tokens|
        invariant IndexOf(Contents(), id) >= i
        invariant forall t :: t in tokens ==> t.lastUsedAt == old(t.lastUsedAt)
      {
        var t := tokens[i];
        if t.grant.id == id {
          assert Contents()[i].id == id;
          t.lastUsedAt := now;
          return;
        }
      }
    }
  }

  // ---- The life of a token ----

  datatype Deed = Issue(id: string, secret: string, peers: seq<string>, tag: string) | Revoke(revoked: string)

  function Done(gs: seq<Grant>, d: Deed, hash: string -> string): seq<Grant> {
    match d
    case Issue(id, secret, peers, tag) => gs + if peers == [] then [] else [Grant(id, hash(secret), peers, tag)]
    case Revoke(id) => Without(gs, id)
  }

  /** The grants stored after issuing and revoking, starting from none. */
  function After(deeds: seq<Deed>, hash: string -> string): seq<Grant> {
    if deeds == [] then [] else Done(After(deeds[..|deeds| - 1], hash), deeds[|deeds| - 1], hash)
  }

  /** Ids and secrets are drawn at random: no two issued tokens share either. */
  ghost predicate Distinct(deeds: seq<Deed>) {
    forall i, j :: 0 <= i < j < |deeds| && deeds[i].Issue? && deeds[j].Issue? ==>
      deeds[i].id != deeds[j].id && deeds[i].secret != deeds[j].secret
  }

  ghost predicate Injective(hash: string -> string) {
    forall s, t :: hash(s) == hash(t) ==> s == t
  }

  /** The i-th deed issued a token that nothing revoked since. */
  ghost predicate Live(deeds: seq<Deed>, i: int) {
    0 <= i < |deeds| && deeds[i].Issue? && deeds[i].peers != [] && forall j :: i < j < |deeds| ==> deeds[j] != Revoke(deeds[i].id)
  }

  ghost predicate IsGrantOf(g: Grant, deeds: seq<Deed>, i: int, hash: string -> string)
    requires Live(deeds, i)
  {
    g == Grant(deeds[i].id, hash(deeds[i].secret), deeds[i].peers, deeds[i].tag)
  }

  ghost predicate Issued(g: Grant, deeds: seq<Deed>, hash: string -> string) {
    exists i :: Live(deeds, i) && IsGrantOf(g, deeds, i, hash)
  }

  ghost predicate UniqueIds(gs: seq<Grant>) {
    forall i, j :: 0 <= i < j < |gs| ==> gs[i].id != gs[j].id
  }

  lemma {:induction false} WithoutRemoves(gs: seq<Grant>, id: string)
    requires UniqueIds(gs)
    ensures UniqueIds(Without(gs, id))
    ensures forall g :: g in Without(gs, id) <==> g in gs && g.id != id
  {
    if gs != [] {
      var rest := gs[1..];
      WithoutRemoves(rest, id);
      assert forall g :: g in gs <==> g == gs[0] || g in rest;
      if gs[0].id == id {
        assert forall g :: g in rest ==> g.id != id;
      } else {
        var kept := Without(rest, id);
        assert forall j :: 0 <= j < |kept| ==> kept[j] in rest;
      }
    }
  }

  lemma LiveBefore(deeds: seq<Deed>, i: int)
    requires deeds != [] && i < |deeds| - 1
    ensures Live(deeds, i) <==> Live(deeds[..|deeds| - 1], i) && deeds[|deeds| - 1] != Revoke(deeds[i].id)
  {
    var before := deeds[..|deeds| - 1];
    if Live(before, i) && deeds[|deeds| - 1] != Revoke(deeds[i].id) {
      forall j | i < j < |deeds| ensures deeds[j] != Revoke(deeds[i].id) {
        if j < |before| { assert before[j] != Revoke(before[i].id); }
      }
    }
    if Live(deeds, i) {
      forall j | i < j < |before| ensures before[j] != Revoke(before[i].id) {
        assert deeds[j] != Revoke(deeds[i].id);
      }
    }
  }

  /** One more deed: a grant is issued and live afterwards if it was and survives, or if the deed issues it. */
  lemma IssuedStep(deeds: seq<Deed>, hash: string -> string, g: Grant)
    requires deeds != []
    ensures var d := deeds[|deeds| - 1];
      Issued(g, deeds, hash) <==>
        (Issued(g, deeds[..|deeds| - 1], hash) && d != Revoke(g.id)) ||
        (d.Issue? && d.peers != [] && g == Grant(d.id, hash(d.secret), d.peers, d.tag))
  {
    var before, n, d := deeds[..|deeds| - 1], |deeds| - 1, deeds[|deeds| - 1];
    if Issued(g, deeds, hash) {
      var i :| Live(deeds, i) && IsGrantOf(g, deeds, i, hash);
      if i < n {
        LiveBefore(deeds, i);
        assert IsGrantOf(g, before, i, hash);
      }
    }
    if Issued(g, before, hash) && d != Revoke(g.id) {
      var i :| Live(before, i) && IsGrantOf(g, before, i, hash);
      LiveBefore(deeds, i);
      assert IsGrantOf(g, deeds, i, hash);
    }
    if d.Issue? && d.peers != [] && g == Grant(d.id, hash(d.secret), d.peers, d.tag) {
      assert Live(deeds, n) && IsGrantOf(g, deeds, n, hash);
    }
  }

  /** The store holds exactly the issued and unrevoked tokens. */
  lemma {:induction false} StoreHoldsLiveTokens(deeds: seq<Deed>, hash: string -> string)
    requires Distinct(deeds)
    ensures UniqueIds(After(deeds, hash))
    ensures forall g :: g in After(deeds, hash) <==> Issued(g, deeds, hash)
  {
    hide Issued;
    if deeds != [] {
      var before, n, d := deeds[..|deeds| - 1], |deeds| - 1, deeds[|deeds| - 1];
      var gs := After(before, hash);
      StoreHoldsLiveTokens(before, hash);
      forall g ensures g in After(deeds, hash) <==> Issued(g, deeds, hash) {
        IssuedStep(deeds, hash, g);
        if d.Revoke? { WithoutRemoves(gs, d.revoked); }
      }
      match d {
        case Revoke(id) => WithoutRemoves(gs, id);
        case Issue(id, _, _, _) =>
          forall k | 0 <= k < |gs| ensures gs[k].id != id {
            assert gs[k] in gs;
            IssuedIsEarlier(gs[k], before, hash);
            var i :| 0 <= i < |before| && before[i].Issue? && before[i].id == gs[k].id;
            assert deeds[i] == before[i];
          }
      }
    } else {
      forall g ensures !Issued(g, deeds, hash) { NothingIssued(g, hash); }
    }
  }

  lemma NothingIssued(g: Grant, hash: string -> string)
    ensures !Issued(g, [], hash)
  {
  }

  lemma IssuedIsEarlier(g: Grant, deeds: seq<Deed>, hash: string -> string)
    requires Issued(g, deeds, hash)
    ensures exists i :: 0 <= i < |deeds| && deeds[i].Issue? && deeds[i].id == g.id
  {
  }

  lemma {:induction false} LookupFinds(gs: seq<Grant>, hash: string)
    ensures Lookup(gs, hash).None? <==> forall g :: g in gs ==> g.hash != hash
    ensures Lookup(gs, hash).Some? ==> Lookup(gs, hash).value in gs && Lookup(gs, hash).value.hash == hash
  {
    if gs != [] && gs[0].hash != hash {
      LookupFinds(gs[1..], hash);
      assert forall g :: g in gs <==> g == gs[0] || g in gs[1..];
    } else if gs != [] {
      assert gs[0] in gs;
    }
  }

  /** A secret opens a peer exactly when a token was issued with it, for that peer or for all, and not revoked since. */
  lemma TokenLifecycle(deeds: seq<Deed>, hash: string -> string, secret: string, name: string)
    requires Distinct(deeds) && Injective(hash)
    ensures Judge(After(deeds, hash), hash(secret), name).Granted? <==>
      exists i :: Live(deeds, i) && deeds[i].secret == secret && (name in deeds[i].peers || EVERY_PEER in deeds[i].peers)
  {
    var gs := After(deeds, hash);
    StoreHoldsLiveTokens(deeds, hash);
    LookupFinds(gs, hash(secret));
    var found := Lookup(gs, hash(secret));
    if Judge(gs, hash(secret), name).Granted? {
      assert Issued(found.value, deeds, hash);
      var i :| Live(deeds, i) && IsGrantOf(found.value, deeds, i, hash);
      assert deeds[i].secret == secret;
    }
    if exists i :: Live(deeds, i) && deeds[i].secret == secret && (name in deeds[i].peers || EVERY_PEER in deeds[i].peers) {
      var i :| Live(deeds, i) && deeds[i].secret == secret && (name in deeds[i].peers || EVERY_PEER in deeds[i].peers);
      var g := Grant(deeds[i].id, hash(secret), deeds[i].peers, deeds[i].tag);
      assert IsGrantOf(g, deeds, i, hash);
      assert g in gs;
      assert Issued(found.value, deeds, hash);
      var k :| Live(deeds, k) && IsGrantOf(found.value, deeds, k, hash);
      assert deeds[k].secret == secret;
      assert k == i;
    }
  }
}
