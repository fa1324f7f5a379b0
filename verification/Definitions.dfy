/** Type definitions as stored entities, and what start-up makes of them. */
module Definitions {
  import opened Types
  import opened Sequences
  import opened Ranking
  import opened Queries

  // ---- Reading a definition back from its row ----

  /** A text member of a JSON object; an absent or null member reads as the empty text. */
  function TextAt(m: Data, key: string): Option<string> {
    if key !in m || m[key].Null? then Some("") else if m[key].Str? then Some(m[key].s) else None
  }

  function FlagAt(m: Data, key: string): Option<bool> {
    if key !in m || m[key].Null? then Some(false) else if m[key].Bool? then Some(m[key].b) else None
  }

  function DecodeField(j: Json): Option<FieldDef> {
    match j
    case Null => Some(FieldDef("", "", false, Null))
    case Obj(m) =>
      var name, ftype, required := TextAt(m, "name"), TextAt(m, "type"), FlagAt(m, "required");
      if name.None? || ftype.None? || required.None? then None
      else Some(FieldDef(name.value, ftype.value, required.value, if "default" in m then m["default"] else Null))
    case _ => None
  }

  function DecodeFields(items: seq<Json>): Option<seq<FieldDef>> {
    if items == [] then Some([])
    else
      var rest, f := DecodeFields(items[..|items| - 1]), DecodeField(items[|items| - 1]);
      if rest.None? || f.None? then None else Some(rest.value + [f.value])
  }

  function FieldsAt(m: Data, key: string): Option<seq<FieldDef>> {
    if key !in m || m[key].Null? then Some([]) else if m[key].Arr? then DecodeFields(m[key].items) else None
  }

  /** The definition a row stores, or nothing when its data does not have the shape of one. */
  function DecodeDefinition(k: Kind, e: Entity): Option<TypeDef> {
    if e.data.None? then None
    else
      var m := e.data.value;
      var name, peer, desc, fields := TextAt(m, "name"), TextAt(m, "peer_did"), TextAt(m, "description"), FieldsAt(m, "fields");
      var dir := if k.RelationKind? then FlagAt(m, "directional") else Some(false);
      if name.None? || peer.None? || desc.None? || fields.None? || dir.None? then None
      else Some(TypeDef(name.value, if peer.value == "" then e.peer else peer.value, fields.value, desc.value, dir.value))
  }

  lemma FieldRoundTrip(f: FieldDef)
    ensures DecodeField(FieldJson(f)) == Some(f)
  {
  }

  lemma {:induction false} FieldsRoundTrip(items: seq<Json>, fields: seq<FieldDef>)
    requires |items| == |fields| && forall i :: 0 <= i < |items| ==> items[i] == FieldJson(fields[i])
    ensures DecodeFields(items) == Some(fields)
  {
    if items != [] {
      FieldsRoundTrip(items[..|items| - 1], fields[..|items| - 1]);
      FieldRoundTrip(fields[|items| - 1]);
      assert fields == fields[..|items| - 1] + [fields[|items| - 1]];
    }
  }

  /** What a definition becomes by being stored and read back: nothing changes in a definition that names its peer
      and, for entity types, has no direction. */
  function AsStored(k: Kind, owner: Did, def: TypeDef): TypeDef {
    def.(peer := if def.peer == "" then owner else def.peer, directional := k.RelationKind? && def.directional)
  }

  lemma FieldsStored(k: Kind, def: TypeDef)
    ensures FieldsAt(DefinitionData(k, def), "fields") == Some(def.fields)
  {
    var m := DefinitionData(k, def);
    hide DecodeFields, FieldJson;
    if "fields" in m {
      FieldsRoundTrip(m["fields"].items, def.fields);
    }
  }

  lemma TextsStored(k: Kind, def: TypeDef)
    ensures var m := DefinitionData(k, def);
      && TextAt(m, "name") == Some(def.name) && TextAt(m, "peer_did") == Some(def.peer) && TextAt(m, "description") == Some(def.description)
      && (k.RelationKind? ==> FlagAt(m, "directional") == Some(def.directional))
  {
    hide FieldJson;
  }

  /** Reading back the row of a definition gives the definition. */
  lemma DefinitionRoundTrip(k: Kind, def: TypeDef, e: Entity)
    requires e.data == Some(DefinitionData(k, def))
    ensures DecodeDefinition(k, e) == Some(AsStored(k, e.peer, def))
  {
    FieldsStored(k, def);
    TextsStored(k, def);
    hide DefinitionData, FieldsAt, TextAt, FlagAt;
  }

  /** A member that is absent or null, or else a text, or a truth value. */
  predicate TextShaped(m: Data, key: string) {
    key in m ==> m[key].Null? || m[key].Str?
  }

  predicate FlagShaped(m: Data, key: string) {
    key in m ==> m[key].Null? || m[key].Bool?
  }

  predicate FieldShaped(j: Json) {
    j.Null? || (j.Obj? && TextShaped(j.members, "name") && TextShaped(j.members, "type") && FlagShaped(j.members, "required"))
  }

  predicate FieldsShaped(j: Json) {
    j.Null? || (j.Arr? && forall i :: 0 <= i < |j.items| ==> FieldShaped(j.items[i]))
  }

  lemma {:induction false} FieldsDecode(items: seq<Json>)
    ensures DecodeFields(items).Some? <==> forall i :: 0 <= i < |items| ==> FieldShaped(items[i])
  {
    if items != [] {
      FieldsDecode(items[..|items| - 1]);
    }
  }

  /** A row holds a definition exactly when it has data and no member of the wrong shape; absent members are empty. */
  lemma ShapedRowsDecode(k: Kind, e: Entity)
    ensures DecodeDefinition(k, e).Some? <==>
      && e.data.Some?
      && TextShaped(e.data.value, "name") && TextShaped(e.data.value, "peer_did") && TextShaped(e.data.value, "description")
      && ("fields" in e.data.value ==> FieldsShaped(e.data.value["fields"]))
      && (k.RelationKind? ==> FlagShaped(e.data.value, "directional"))
    ensures DecodeDefinition(k, e).Some? ==> var m, def := e.data.value, DecodeDefinition(k, e).value;
      && def.name == (if "name" in m && m["name"].Str? then m["name"].s else "")
      && def.description == (if "description" in m && m["description"].Str? then m["description"].s else "")
      && def.peer == (if "peer_did" in m && m["peer_did"].Str? && m["peer_did"].s != "" then m["peer_did"].s else e.peer)
      && (def.directional <==> k.RelationKind? && "directional" in m && m["directional"] == Bool(true))
  {
    if e.data.Some? && "fields" in e.data.value && e.data.value["fields"].Arr? {
      FieldsDecode(e.data.value["fields"].items);
    }
    hide DecodeFields, FieldShaped;
  }

  // ---- Registering definitions ----

  /** Registering one definition after another: a later one replaces an earlier one of the same name. */
  function Registered(base: map<string, TypeDef>, defs: seq<TypeDef>): map<string, TypeDef> {
    if defs == [] then base
    else Registered(base, defs[..|defs| - 1])[defs[|defs| - 1].name := defs[|defs| - 1]]
  }

  lemma RegisteredAppend(base: map<string, TypeDef>, defs: seq<TypeDef>, d: TypeDef)
    ensures Registered(base, defs + [d]) == Registered(base, defs)[d.name := d]
  {
    assert (defs + [d])[..|defs|] == defs;
  }

  function LastNamed(defs: seq<TypeDef>, name: string): Option<TypeDef> {
    if defs == [] then None
    else if defs[|defs| - 1].name == name then Some(defs[|defs| - 1])
    else LastNamed(defs[..|defs| - 1], name)
  }

  function FirstNamed(defs: seq<TypeDef>, name: string): Option<TypeDef> {
    if defs == [] then None else if defs[0].name == name then Some(defs[0]) else FirstNamed(defs[1..], name)
  }

  function At(types: map<string, TypeDef>, name: string): Option<TypeDef> {
    if name in types then Some(types[name]) else None
  }

  lemma {:induction false} RegisteredAt(base: map<string, TypeDef>, defs: seq<TypeDef>, name: string)
    ensures At(Registered(base, defs), name) == if LastNamed(defs, name).Some? then LastNamed(defs, name) else At(base, name)
  {
    if defs != [] { RegisteredAt(base, defs[..|defs| - 1], name); }
  }

  lemma {:induction false} LastOfReversed(defs: seq<TypeDef>, name: string)
    ensures LastNamed(Reversed(defs), name) == FirstNamed(defs, name)
  {
    if defs != [] {
      LastOfReversed(defs[1..], name);
      var r := Reversed(defs);
      assert r[|r| - 1] == defs[0] && r[..|r| - 1] == Reversed(defs[1..]);
    }
  }

  predicate Named(defs: seq<TypeDef>, name: string) {
    exists i :: 0 <= i < |defs| && defs[i].name == name
  }

  lemma NamedAppend(defs: seq<TypeDef>, d: TypeDef, name: string)
    ensures Named(defs + [d], name) <==> Named(defs, name) || d.name == name
  {
    var more := defs + [d];
    if Named(defs, name) {
      var i :| 0 <= i < |defs| && defs[i].name == name;
      assert more[i].name == name;
    }
    if d.name == name {
      assert more[|defs|].name == name;
    }
  }

  lemma LastNamedAppend(defs: seq<TypeDef>, d: TypeDef, name: string)
    ensures LastNamed(defs + [d], name) == if d.name == name then Some(d) else LastNamed(defs, name)
  {
    assert (defs + [d])[..|defs|] == defs;
  }

  /** A name has a last definition, and a first, exactly when some definition carries it. */
  lemma {:induction false} NamedIffMember(defs: seq<TypeDef>, name: string)
    ensures LastNamed(defs, name).Some? <==> Named(defs, name)
    ensures FirstNamed(defs, name).Some? <==> Named(defs, name)
  {
    if defs != [] {
      hide FirstNamed, LastNamed, Named;
      var init, last := defs[..|defs| - 1], defs[|defs| - 1];
      assert defs == init + [last];
      NamedIffMember(init, name);
      NamedAppend(init, last, name);
      LastNamedAppend(init, last, name);
      FirstNamedAppend(init, last, name);
    }
  }

  lemma {:induction false} FirstNamedAppend(defs: seq<TypeDef>, d: TypeDef, name: string)
    ensures FirstNamed(defs + [d], name) == if FirstNamed(defs, name).Some? then FirstNamed(defs, name) else if d.name == name then Some(d) else None
  {
    if defs != [] {
      assert (defs + [d])[1..] == defs[1..] + [d];
      FirstNamedAppend(defs[1..], d, name);
    }
  }

  // ---- What start-up reads ----

  function Decoded(k: Kind, es: seq<Entity>): seq<TypeDef> {
    if es == [] then []
    else
      var d := DecodeDefinition(k, es[|es| - 1]);
      Decoded(k, es[..|es| - 1]) + if d.Some? then [d.value] else []
  }

  lemma DecodedNext(k: Kind, es: seq<Entity>, i: nat)
    requires i < |es|
    ensures var d := DecodeDefinition(k, es[i]);
      Decoded(k, es[..i + 1]) == Decoded(k, es[..i]) + if d.Some? then [d.value] else []
  {
    assert es[..i + 1][..i] == es[..i];
  }

  /** The listing start-up asks for: it has the default limit, and newest rows come first. */
  function DefinitionQuery(k: Kind): EntityQuery {
    EntityQuery(DefinitionType(k), map[], 0, false)
  }

  /** The types of one peer after start-up: the seeds, overridden by each listed row in turn. */
  ghost function Rehydrated(rows: map<Id, Entity>, peer: Did, k: Kind, seeds: seq<TypeDef>, jsonText: Json -> string): map<string, TypeDef> {
    Registered(Registered(map[], seeds), Decoded(k, QueryEntities(rows, peer, DefinitionQuery(k), jsonText)))
  }

  predicate Carries(k: Kind, e: Entity, name: string) {
    DecodeDefinition(k, e).Some? && DecodeDefinition(k, e).value.name == name
  }

  lemma {:induction false} DecodedLast(k: Kind, es: seq<Entity>, name: string) returns (i: int)
    ensures -1 <= i < |es|
    ensures forall j :: i < j < |es| ==> !Carries(k, es[j], name)
    ensures if i < 0 then LastNamed(Decoded(k, es), name).None?
            else Carries(k, es[i], name) && LastNamed(Decoded(k, es), name) == DecodeDefinition(k, es[i])
  {
    if es == [] {
      i := -1;
    } else {
      var init, last := es[..|es| - 1], es[|es| - 1];
      i := DecodedLast(k, init, name);
      var d := DecodeDefinition(k, last);
      assert d.Some? ==> (Decoded(k, init) + [d.value])[..|Decoded(k, init)|] == Decoded(k, init);
      assert d.None? ==> Decoded(k, init) + [] == Decoded(k, init);
      assert forall j :: 0 <= j < |init| ==> init[j] == es[j];
      if Carries(k, last, name) {
        i := |es| - 1;
      }
    }
  }

  /** The listing is short enough, and newest first. */
  lemma ListedInOrder(rows: map<Id, Entity>, peer: Did, k: Kind, jsonText: Json -> string)
    ensures var es := QueryEntities(rows, peer, DefinitionQuery(k), jsonText);
      |es| <= 50 && forall i, j :: 0 <= i <= j < |es| ==> es[j].createdAt <= es[i].createdAt
  {
    var chosen := LiveRows(rows, peer, DefinitionQuery(k), jsonText);
    var es, ids := QueryEntities(rows, peer, DefinitionQuery(k), jsonText), NewestIds(chosen, 0);
    forall i, j | 0 <= i < j < |es| ensures es[j].createdAt <= es[i].createdAt {
      assert es[i] == chosen[ids[i]] && es[j] == chosen[ids[j]];
      assert Above(Created(chosen), ids[i], ids[j]);
    }
  }

  /** On any table, a type name comes back as the oldest of the listed rows that carry it, or else as its seed. */
  lemma OldestListedWins(rows: map<Id, Entity>, peer: Did, k: Kind, seeds: seq<TypeDef>, jsonText: Json -> string, name: string)
    returns (oldest: int)
    ensures var es := QueryEntities(rows, peer, DefinitionQuery(k), jsonText);
      var now := At(Rehydrated(rows, peer, k, seeds, jsonText), name);
      && |es| <= 50 && -1 <= oldest < |es|
      && (oldest >= 0 <==> exists i :: 0 <= i < |es| && Carries(k, es[i], name))
      && (oldest < 0 ==> now == LastNamed(seeds, name))
      && (oldest >= 0 ==> Carries(k, es[oldest], name) && now == DecodeDefinition(k, es[oldest]))
      && (oldest >= 0 ==> forall i :: 0 <= i < |es| && Carries(k, es[i], name) ==> es[oldest].createdAt <= es[i].createdAt)
  {
    var es := QueryEntities(rows, peer, DefinitionQuery(k), jsonText);
    oldest := DecodedLast(k, es, name);
    RegisteredAt(Registered(map[], seeds), Decoded(k, es), name);
    RegisteredAt(map[], seeds, name);
    ListedInOrder(rows, peer, k, jsonText);
    hide Decoded, Carries, Registered, QueryEntities;
    if oldest < 0 { assert forall i :: 0 <= i < |es| ==> !Carries(k, es[i], name); }
  }
}
