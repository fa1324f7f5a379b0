/** The directory of the peers hosted by one binary: two indexes over the same shared peer objects. */
module Registry {
  import opened Types
  import opened Texts

  /** What the registry says: who has a name, and which name a DID goes by. */
  datatype Directory = Directory(dids: map<string, Did>, names: map<Did, string>)
  {
    /** The two indexes are inverse to each other. */
    ghost predicate Consistent() {
      && (forall n :: n in dids ==> dids[n] in names && names[dids[n]] == n)
      && (forall d :: d in names ==> names[d] in dids && dids[names[d]] == d)
    }

    /** A name wins over a DID. */
    function Find(key: string): Option<Did> {
      if key in dids then Some(dids[key]) else if key in names then Some(key) else None
    }

    function With(did: Did, name: string): Directory {
      Directory(dids[name := did], names[did := name])
    }

    function Renamed(oldName: string, newName: string): Directory
      requires oldName in dids
    {
      Directory((dids - {oldName})[newName := dids[oldName]], names[dids[oldName] := newName])
    }
  }

  /** Adding keeps the indexes inverse exactly when both the name and the DID were free, or already belonged together. */
  lemma WithConsistent(dir: Directory, did: Did, name: string)
    requires dir.Consistent()
    ensures dir.With(did, name).Consistent() <==>
            ((name !in dir.dids || dir.dids[name] == did) && (did !in dir.names || dir.names[did] == name))
  {
    var more := dir.With(did, name);
    if more.Consistent() {
      if name in dir.dids { assert dir.dids[name] in more.names; }
      if did in dir.names { assert dir.names[did] in more.dids; }
    }
  }

  /** A rename moves one peer to its new name, keeps every DID, and is undone by the opposite rename. */
  lemma RenameMovesOnePeer(dir: Directory, oldName: string, newName: string)
    requires dir.Consistent() && oldName in dir.dids && newName !in dir.dids
    ensures var after := dir.Renamed(oldName, newName);
      && after.Consistent() && after.names.Keys == dir.names.Keys
      && after.Find(newName) == Some(dir.dids[oldName])
      && (forall key :: key != oldName && key != newName ==> after.Find(key) == dir.Find(key))
      && after.Renamed(newName, oldName) == dir
  {
    var after := dir.Renamed(oldName, newName);
    assert after.Renamed(newName, oldName).dids == dir.dids;
    assert after.Renamed(newName, oldName).names == dir.names;
  }

  /** A DID finds its own peer unless another peer goes by that very text as its name. */
  lemma DidsFindTheirPeer(dir: Directory, did: Did)
    requires dir.Consistent() && did in dir.names
    ensures dir.Find(did) == Some(did) <==> !exists d :: d in dir.names && d != did && dir.names[d] == did
    ensures dir.Find(dir.names[did]) == Some(did)
  {
    if did in dir.dids && dir.dids[did] != did {
      assert dir.names[dir.dids[did]] == did;
    }
  }

  class Peer {
    const did: Did
    var name: string
    const description: string
    var createdAt: Time

    constructor (did: Did, name: string, description: string, createdAt: Time)
      ensures this.did == did && this.name == name && this.description == description && this.createdAt == createdAt
    {
      this.did, this.name, this.description, this.createdAt := did, name, description, createdAt;
    }
  }

  class Registry {
    var byDID: map<Did, Peer>
    var byName: map<string, Peer>
    ghost var contents: Directory

    constructor ()
      ensures Valid() && byDID == map[] && byName == map[]
    {
      byDID, byName, contents := map[], map[], Directory(map[], map[]);
    }

    /** The two maps index one set of peer objects, each under what the object itself says;
        `contents` is what they say together. */
    ghost predicate Valid()
      reads this, byDID.Values, byName.Values
    {
      && (forall d :: d in byDID ==> byDID[d].did == d && byDID[d].name in byName && byName[byDID[d].name] == byDID[d])
      && (forall n :: n in byName ==> byName[n].name == n && byName[n].did in byDID && byDID[byName[n].did] == byName[n])
      && contents.dids.Keys == byName.Keys && (forall n :: n in byName ==> contents.dids[n] == byName[n].did)
      && contents.names.Keys == byDID.Keys && (forall d :: d in byDID ==> contents.names[d] == byDID[d].name)
    }

    lemma ValidIsConsistent()
      requires Valid()
      ensures contents.Consistent()
    {
    }

    /** `flushed` is whether writing the file works; the peer is added in memory either way. */
    method Add(p: Peer, now: Time, flushed: bool) returns (ok: bool)
      requires Valid()
      modifies this, p`createdAt
      ensures Valid()
      ensures var free := p.name !in old(byName) && p.did !in old(byDID);
        && ok == (free && flushed)
        && contents == (if free then old(contents).With(p.did, p.name) else old(contents))
        && (free ==> p.did in byDID && byDID[p.did] == p && p.createdAt == if old(p.createdAt) == ZERO_TIME then now else old(p.createdAt))
        && (!free ==> byDID == old(byDID) && byName == old(byName) && p.createdAt == old(p.createdAt))
    {
      if p.name in byName {
        return false;
      }
      if p.did in byDID {
        return false;
      }
      assert p !in byDID.Values && p !in byName.Values;
      if p.createdAt == ZERO_TIME {
        p.createdAt := now;
      }
      byDID := byDID[p.did := p];
      byName := byName[p.name := p];
      contents := contents.With(p.did, p.name);
      return flushed;
    }

    /** The peer object that both maps share is renamed, so both maps see the new name. */
    method Rename(oldName: string, newName: string, flushed: bool) returns (ok: bool)
      requires Valid()
      modifies this, byName.Values`name
      ensures Valid()
      ensures var able := oldName in old(byName) && newName !in old(byName);
        && ok == (able && flushed)
        && contents == (if able then old(contents).Renamed(oldName, newName) else old(contents))
        && byDID == old(byDID)
    {
      if oldName !in byName {
        return false;
      }
      var p := byName[oldName];
      if newName in byName {
        return false;
      }
      byName := byName - {oldName};
      p.name := newName;
      byName := byName[newName := p];
      contents := contents.Renamed(oldName, newName);
      return flushed;
    }

    method ByName(name: string) returns (p: Peer?)
      ensures p == if name in byName then byName[name] else null
    {
      p := if name in byName then byName[name] else null;
    }

    method ByDID(did: Did) returns (p: Peer?)
      ensures p == if did in byDID then byDID[did] else null
    {
      p := if did in byDID then byDID[did] else null;
    }

    method Resolve(nameOrDid: string) returns (p: Peer?)
      requires Valid()
      ensures p != null ==> p.did in byDID && byDID[p.did] == p
      ensures contents.Find(nameOrDid) == if p == null then None else Some(p.did)
    {
      p := ByName(nameOrDid);
      if p != null {
        return p;
      }
      p := ByDID(nameOrDid);
    }

    /** All peers in the order of their names. */
    method List() returns (out: seq<Peer>)
      requires Valid()
      ensures forall p :: p in out <==> p in byDID.Values
      ensures forall i, j :: 0 <= i < j < |out| ==> TextLess(out[i].name, out[j].name)
    {
      hide InOrder, TextLess;
      var names := SortTexts(byName.Keys);
      out := [];
      assert forall j :: 0 <= j < |names| ==> names[j] in byName;
      for i := 0 to |names|
        invariant |out| == i && forall j :: 0 <= j < i ==> out[j] == byName[names[j]]
      {
        out := out + [byName[names[i]]];
      }
      forall p | p in byDID.Values ensures p in out {
        assert byName[p.name] == p && p.name in names;
      }
    }
  }
}
