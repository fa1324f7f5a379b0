/** Field projection of JSON replies: an allowlist of names, each with an optional length to cut strings to. */
module Projection {
  import opened Types
  import opened Texts

  const MAX_INT := 0x7FFF_FFFF_FFFF_FFFF
  const ELLIPSIS: char := '\U{2026}'

  /** The names to keep, and the length limits given for some of them. */
  datatype Selection = Selection(keep: set<string>, truncate: map<string, nat>)

  // ---- Reading the field list ----

  predicate IsSpace(c: char) {
    c in {' ', '\t', '\n', '\r', '\U{B}', '\U{C}'}
  }

  function TrimSpace(s: string): (r: string)
    ensures r != "" ==> !IsSpace(r[0]) && !IsSpace(r[|r| - 1])
  {
    if s == "" then ""
    else if IsSpace(s[0]) then TrimSpace(s[1..])
    else if IsSpace(s[|s| - 1]) then TrimSpace(s[..|s| - 1])
    else s
  }

  /** The first colon of a text, or none. */
  function Colon(s: string): (i: int)
    ensures -1 <= i < |s|
    ensures i >= 0 ==> s[i] == ':' && ':' !in s[..i]
    ensures i < 0 ==> ':' !in s
  {
    if s == "" then -1
    else if s[0] == ':' then 0
    else
      var rest := Colon(s[1..]);
      assert rest >= 0 ==> s[..rest + 1] == [s[0]] + s[1..][..rest];
      if rest < 0 then -1 else rest + 1
  }

  /** A decimal integer of at most 64 bits with an optional sign. */
  function Atoi(s: string): Option<int> {
    var digits := if s != "" && (s[0] == '+' || s[0] == '-') then s[1..] else s;
    if digits == "" || !AllDigits(digits) then None
    else
      var m: int := Number(digits);
      var n := if s[0] == '-' then 0 - m else m;
      if -MAX_INT - 1 <= n <= MAX_INT then Some(n) else None
  }

  /** The name a field asks for; a field that starts with its only colon is a name as a whole. */
  function FieldName(field: string): string {
    var f := TrimSpace(field);
    if Colon(f) > 0 then f[..Colon(f)] else f
  }

  /** The positive length a field asks for, if it does. */
  function FieldLimit(field: string): Option<nat> {
    var f := TrimSpace(field);
    if Colon(f) <= 0 then None
    else
      var n := Atoi(f[Colon(f) + 1..]);
      if n.Some? && n.value > 0 then Some(n.value) else None
  }

  /** The last length limit given for a name counts. */
  function LimitOf(fields: seq<string>, name: string): Option<nat> {
    if fields == [] then None
    else
      var f := fields[|fields| - 1];
      if FieldName(f) == name && FieldLimit(f).Some? then FieldLimit(f) else LimitOf(fields[..|fields| - 1], name)
  }

  function Names(fields: seq<string>): set<string> {
    set i | 0 <= i < |fields| :: FieldName(fields[i])
  }

  /** A name is kept when some field names it; its limit is the last one given. */
  ghost predicate Selects(sel: Selection, fields: seq<string>) {
    && sel.keep == Names(fields) - {""}
    && forall name :: LimitOf(fields, name) == if name in sel.truncate then Some(sel.truncate[name]) else None
  }

  lemma LimitSelected(sel: Selection, fields: seq<string>, name: string)
    requires Selects(sel, fields)
    ensures LimitOf(fields, name) == if name in sel.truncate then Some(sel.truncate[name]) else None
  {
  }

  lemma SelectionUnique(a: Selection, b: Selection, fields: seq<string>)
    requires Selects(a, fields) && Selects(b, fields)
    ensures a == b
  {
    forall name ensures name in a.truncate <==> name in b.truncate
      ensures name in a.truncate && name in b.truncate ==> a.truncate[name] == b.truncate[name]
    {
      LimitSelected(a, fields, name);
      LimitSelected(b, fields, name);
    }
  }

  /** What one more field adds to a selection. */
  function Extended(s: Selection, field: string): Selection {
    var name := FieldName(field);
    if name == "" then s
    else Selection(s.keep + {name}, if FieldLimit(field).Some? then s.truncate[name := FieldLimit(field).value] else s.truncate)
  }

  lemma ExtendedSelects(s: Selection, fields: seq<string>, k: nat)
    requires k < |fields| && Selects(s, fields[..k])
    ensures Selects(Extended(s, fields[k]), fields[..k + 1])
  {
    hide FieldName, FieldLimit;
    var f := fields[k];
    assert fields[..k + 1] == fields[..k] + [f];
    assert fields[..k + 1][..k] == fields[..k];
    NamesAppend(fields[..k], f);
    NamelessHasNoLimit(f);
    forall name ensures LimitOf(fields[..k + 1], name)
      == if name in Extended(s, f).truncate then Some(Extended(s, f).truncate[name]) else None
    {
      assert LimitOf(fields[..k], name) == if name in s.truncate then Some(s.truncate[name]) else None;
    }
  }

  /** The selection a field list stands for. */
  function Selecting(fields: seq<string>): Selection {
    if fields == [] then Selection({}, map[]) else Extended(Selecting(fields[..|fields| - 1]), fields[|fields| - 1])
  }

  lemma {:induction false} SelectingSelects(fields: seq<string>)
    ensures Selects(Selecting(fields), fields)
  {
    hide Selects, Extended;
    NothingSelected();
    if fields != [] {
      SelectingSelects(fields[..|fields| - 1]);
      ExtendedSelects(Selecting(fields[..|fields| - 1]), fields, |fields| - 1);
      assert fields[..|fields| - 1 + 1] == fields;
    }
  }

  lemma NamesAppend(fields: seq<string>, field: string)
    ensures Names(fields + [field]) == Names(fields) + {FieldName(field)}
  {
    hide FieldName;
    var more := fields + [field];
    forall i | 0 <= i < |fields| ensures FieldName(fields[i]) in Names(more) { assert more[i] == fields[i]; }
    assert more[|fields|] == field;
  }

  lemma NamelessHasNoLimit(field: string)
    ensures FieldName(field) == "" ==> FieldLimit(field).None?
  {
  }

  method ParseSelections(fields: seq<string>) returns (s: Selection)
    ensures Selects(s, fields)
  {
    hide TrimSpace, Atoi, Selects;
    s := Selection({}, map[]);
    NothingSelected();
    for k := 0 to |fields|
      invariant Selects(s, fields[..k])
    {
      ExtendedSelects(s, fields, k);
      var f := TrimSpace(fields[k]);
      if f == "" {
        continue;
      }
      var name := f;
      var i := Colon(f);
      if i > 0 {
        name := f[..i];
        var n := Atoi(f[i + 1..]);
        if n.Some? && n.value > 0 {
          s := s.(truncate := s.truncate[name := n.value]);
        }
      }
      s := s.(keep := s.keep + {name});
    }
    assert fields[..|fields|] == fields;
  }

  lemma NothingSelected()
    ensures forall fields: seq<string> :: fields == [] ==> Selects(Selection({}, map[]), fields)
  {
  }

  // ---- Projecting a tree ----

  predicate EntityLike(m: Data) {
    "data" in m && m["data"].Obj?
  }

  predicate TypeDefLike(m: Data) {
    "name" in m && m["name"].Str? && "fields" in m && m["fields"].Arr?
  }

  /** Strings longer than the limit of their name are cut and marked with an ellipsis. */
  function Cut(v: Json, name: string, sel: Selection): Json {
    if name in sel.truncate && v.Str? && |v.s| > sel.truncate[name] then Str(v.s[..sel.truncate[name]] + [ELLIPSIS]) else v
  }

  predicate TopLevel(m: Data, name: string) {
    name in m && name != "data"
  }

  function ProjectedTop(m: Data, sel: Selection): Data {
    map name | name in sel.keep && TopLevel(m, name) :: Cut(m[name], name, sel)
  }

  function ProjectedData(m: Data, sel: Selection): Data
    requires EntityLike(m)
  {
    map name | name in sel.keep && !TopLevel(m, name) && name in m["data"].members :: Cut(m["data"].members[name], name, sel)
  }

  function ProjectedEntity(m: Data, sel: Selection): Data
    requires EntityLike(m)
  {
    var top := ProjectedTop(m, sel);
    if ProjectedData(m, sel) == map[] then top else top["data" := Obj(ProjectedData(m, sel))]
  }

  function ProjectedFlat(m: Data, sel: Selection): Data {
    map name | name in sel.keep && name in m :: Cut(m[name], name, sel)
  }

  function Walk(v: Json, sel: Selection): Json {
    match v
    case Arr(items) => Arr(seq(|items|, i requires 0 <= i < |items| => Walk(items[i], sel)))
    case Obj(m) =>
      if EntityLike(m) then Obj(ProjectedEntity(m, sel))
      else if TypeDefLike(m) then Obj(ProjectedFlat(m, sel))
      else Obj(map k | k in m :: Walk(m[k], sel))
    case _ => v
  }

  // ---- The loops, visiting keys in any order ----

  method ProjectEntity(m: Data, sel: Selection) returns (out: Data)
    requires EntityLike(m)
    ensures out == ProjectedEntity(m, sel)
  {
    out := map[];
    var data, names := m["data"].members, sel.keep;
    while names != {}
      invariant names <= sel.keep
      invariant out == ProjectedEntity(m, sel.(keep := sel.keep - names))
      decreases |names|
    {
      var name :| name in names;
      ghost var done, next := sel.(keep := sel.keep - names), sel.(keep := sel.keep - (names - {name}));
      assert next.keep == done.keep + {name};
      EntityTurn(m, done, name);
      names := names - {name};
      if TopLevel(m, name) {
        out := out[name := Cut(m[name], name, sel)];
        continue;
      }
      if name in data {
        var d: Data := if "data" in out && out["data"].Obj? then out["data"].members else map[];
        d := d[name := Cut(data[name], name, sel)];
        out := out["data" := Obj(d)];
      }
    }
    assert sel.(keep := sel.keep - names) == sel;
  }

  function Named(sel: Selection, name: string): Selection {
    sel.(keep := sel.keep + {name})
  }

  lemma DataTurn(m: Data, sel: Selection, name: string)
    requires EntityLike(m) && name !in sel.keep
    ensures ProjectedData(m, Named(sel, name)) ==
      if !TopLevel(m, name) && name in m["data"].members then ProjectedData(m, sel)[name := Cut(m["data"].members[name], name, sel)]
      else ProjectedData(m, sel)
  {
  }

  lemma TopTurn(m: Data, sel: Selection, name: string)
    requires name !in sel.keep
    ensures ProjectedTop(m, Named(sel, name)) ==
      if TopLevel(m, name) then ProjectedTop(m, sel)[name := Cut(m[name], name, sel)] else ProjectedTop(m, sel)
  {
  }

  /** What one more name adds to a projected entity. */
  lemma EntityTurn(m: Data, sel: Selection, name: string)
    requires EntityLike(m) && name !in sel.keep
    ensures var more, out, data := ProjectedEntity(m, Named(sel, name)), ProjectedEntity(m, sel), m["data"].members;
      && ("data" in out <==> ProjectedData(m, sel) != map[]) && ("data" in out ==> out["data"] == Obj(ProjectedData(m, sel)))
      && more == if TopLevel(m, name) then out[name := Cut(m[name], name, sel)]
                 else if name in data then out["data" := Obj(ProjectedData(m, sel)[name := Cut(data[name], name, sel)])]
                 else out
  {
    DataTurn(m, sel, name);
    TopTurn(m, sel, name);
    assert "data" !in ProjectedTop(m, sel);
    hide ProjectedData, ProjectedTop, Cut;
    if !TopLevel(m, name) && name in m["data"].members {
      assert name in ProjectedData(m, Named(sel, name));
    }
  }

  method ProjectFlat(m: Data, sel: Selection) returns (out: Data)
    ensures out == ProjectedFlat(m, sel)
  {
    out := map[];
    var names := sel.keep;
    while names != {}
      invariant names <= sel.keep
      invariant out == ProjectedFlat(m, sel.(keep := sel.keep - names))
      decreases |names|
    {
      var name :| name in names;
      assert sel.keep - (names - {name}) == (sel.keep - names) + {name};
      names := names - {name};
      if name in m {
        out := out[name := Cut(m[name], name, sel)];
      }
    }
    assert sel.(keep := sel.keep - names) == sel;
  }

  /** The walk comes out the same in whatever order the keys of each object are visited. */
  method WalkTree(v: Json, sel: Selection) returns (out: Json)
    ensures out == Walk(v, sel)
    decreases v
  {
    match v
    case Arr(items) =>
      var done: seq<Json> := [];
      for i := 0 to |items|
        invariant |done| == i && forall j :: 0 <= j < i ==> done[j] == Walk(items[j], sel)
      {
        var e := WalkTree(items[i], sel);
        done := done + [e];
      }
      out := Arr(done);
    case Obj(m) =>
      if EntityLike(m) {
        var projected := ProjectEntity(m, sel);
        return Obj(projected);
      }
      if TypeDefLike(m) {
        var projected := ProjectFlat(m, sel);
        return Obj(projected);
      }
      var done: Data := map[];
      var keys := m.Keys;
      while keys != {}
        invariant keys <= m.Keys
        invariant done == map k | k in m && k !in keys :: Walk(m[k], sel)
        decreases |keys|
      {
        var k :| k in keys;
        var e := WalkTree(m[k], sel);
        done := done[k := e];
        keys := keys - {k};
      }
      out := Obj(done);
    case _ =>
      out := v;
  }

  /** Without fields, or with none that names anything, the reply goes out as it is. */
  function ProjectedJson(v: Json, fields: seq<string>): Json {
    if Selecting(fields).keep == {} then v else Walk(v, Selecting(fields))
  }

  method ProjectJson(v: Json, fields: seq<string>) returns (out: Json)
    ensures out == ProjectedJson(v, fields)
  {
    hide Selects, Walk;
    if |fields| == 0 {
      return v;
    }
    var s := ParseSelections(fields);
    SelectingSelects(fields);
    SelectionUnique(s, Selecting(fields), fields);
    if |s.keep| == 0 {
      return v;
    }
    out := WalkTree(v, s);
  }

  // ---- What the field list and the reply mean ----

  /** White space in ASCII: the space and the codes 9 to 13. */
  predicate White(c: char) {
    c == ' ' || 9 <= c as int <= 13
  }

  predicate Blank(s: string) {
    forall i :: 0 <= i < |s| ==> White(s[i])
  }

  /** Text with no white space around it. */
  predicate Solid(s: string) {
    s == "" || (!White(s[0]) && !White(s[|s| - 1]))
  }

  lemma SpaceIsWhite(c: char)
    ensures IsSpace(c) <==> White(c)
  {
  }

  lemma {:induction false} TrimMeans(pre: string, core: string, post: string)
    requires Blank(pre) && Blank(post) && Solid(core)
    ensures TrimSpace(pre + core + post) == core
    decreases |pre| + |post|
  {
    hide IsSpace;
    var s := pre + core + post;
    if pre != "" {
      assert s[1..] == pre[1..] + core + post;
      assert White(pre[0]);
      SpaceIsWhite(s[0]);
      TrimMeans(pre[1..], core, post);
    } else if post != "" {
      assert s[..|s| - 1] == pre + core + post[..|post| - 1];
      assert White(post[|post| - 1]);
      SpaceIsWhite(s[|s| - 1]);
      SpaceIsWhite(s[0]);
      TrimMeans(pre, core, post[..|post| - 1]);
      if core == "" {
        BlankTrims(s);
      }
    } else {
      assert s == core;
      if core != "" {
        SpaceIsWhite(core[0]);
        SpaceIsWhite(core[|core| - 1]);
      }
    }
  }

  lemma {:induction false} BlankTrims(s: string)
    requires Blank(s)
    ensures TrimSpace(s) == ""
  {
    if s != "" {
      assert White(s[0]);
      SpaceIsWhite(s[0]);
      BlankTrims(s[1..]);
    }
  }

  /** The text is a positive decimal number below 2^63, perhaps after a plus sign, and that is the limit; or there is none. */
  predicate AsksFor(text: string, limit: Option<nat>) {
    var digits := if text != "" && text[0] == '+' then text[1..] else text;
    if digits != "" && (forall i :: 0 <= i < |digits| ==> '0' <= digits[i] <= '9') && 0 < Number(digits) < 0x8000_0000_0000_0000 then
      limit == Some(Number(digits))
    else limit == None
  }

  lemma LimitMeans(text: string)
    ensures var n := Atoi(text); AsksFor(text, if n.Some? && n.value > 0 then Some(n.value) else None)
  {
  }

  lemma {:induction false} FirstColon(s: string, i: nat)
    requires i < |s| && s[i] == ':' && ':' !in s[..i]
    ensures Colon(s) == i
  {
    if i > 0 {
      assert s[..i][0] == s[0] && s[1..][..i - 1] == s[..i][1..];
      FirstColon(s[1..], i - 1);
    }
  }

  /** What a field asks for, white space around it aside: without a colon, or with one in front, the whole name; otherwise
      the name before the first colon, cut to the number that follows if there is one. */
  lemma FieldMeans(pre: string, core: string, post: string)
    requires Blank(pre) && Blank(post) && Solid(core)
    ensures var field := pre + core + post;
      && (':' !in core || core[0] == ':' ==> FieldName(field) == core && FieldLimit(field) == None)
      && forall i :: 0 < i < |core| && core[i] == ':' && ':' !in core[..i] ==>
           FieldName(field) == core[..i] && AsksFor(core[i + 1..], FieldLimit(field))
  {
    hide TrimSpace, Atoi, AsksFor, Blank;
    TrimMeans(pre, core, post);
    forall i | 0 < i < |core| && core[i] == ':' && ':' !in core[..i] ensures Colon(core) == i { FirstColon(core, i); }
    LimitMeans(if Colon(core) >= 0 then core[Colon(core) + 1..] else "");
  }

  /** An ordinary name: no colon, no white space around it. */
  predicate Plain(field: string) {
    field != "" && Solid(field) && ':' !in field
  }

  lemma PlainField(field: string)
    requires Plain(field)
    ensures FieldName(field) == field && FieldLimit(field) == None
  {
    FieldMeans("", field, "");
    assert "" + field + "" == field;
  }

  /** Ordinary names select themselves, and cut nothing. */
  lemma {:induction false} PlainFields(fields: seq<string>)
    requires forall i :: 0 <= i < |fields| ==> Plain(fields[i])
    ensures Selecting(fields) == Selection(set i | 0 <= i < |fields| :: fields[i], map[])
  {
    hide Plain, FieldName, FieldLimit;
    if fields != [] {
      var init, last := fields[..|fields| - 1], fields[|fields| - 1];
      PlainFields(init);
      PlainField(last);
      assert last != "" by { PlainIsSomething(last); }
      assert forall i :: 0 <= i < |init| ==> init[i] == fields[i];
    }
  }

  lemma PlainIsSomething(field: string)
    ensures Plain(field) ==> field != ""
  {
  }

  /** A value as it appears in a reply: cut to the limit of its name and marked, if it is a text longer than that. */
  predicate Shown(x: Json, y: Json, name: string, sel: Selection) {
    if y.Str? && name in sel.truncate && |y.s| > sel.truncate[name] then
      x == Str(y.s[..sel.truncate[name]] + ['\U{2026}'])
    else x == y
  }

  /** An object with an object for `data` shows the named members, and as its data the named fields that no member hides;
      without any it has no data. Any other object with a name and a list of fields shows the named members. */
  lemma ShownMembers(m: Data, sel: Selection, k: string)
    ensures var out := Walk(Obj(m), sel);
      if "data" in m && m["data"].Obj? then
        var data := m["data"].members;
        && out.Obj?
        && (k != "data" ==> (k in out.members <==> k in sel.keep && k in m) && (k in out.members ==> Shown(out.members[k], m[k], k, sel)))
        && ("data" in out.members ==> out.members["data"].Obj? && out.members["data"].members != map[])
        && ("data" in out.members && k in out.members["data"].members <==> k in sel.keep && k in data && (k == "data" || k !in m))
        && ("data" in out.members && k in out.members["data"].members ==> Shown(out.members["data"].members[k], data[k], k, sel))
      else if "name" in m && m["name"].Str? && "fields" in m && m["fields"].Arr? then
        out.Obj? && (k in out.members <==> k in sel.keep && k in m) && (k in out.members ==> Shown(out.members[k], m[k], k, sel))
      else out.Obj? && (k in out.members <==> k in m) && (k in m ==> out.members[k] == Walk(m[k], sel))
  {
    if EntityLike(m) {
      var d := ProjectedData(m, sel);
      assert k in d ==> d != map[];
      assert (k in d <==> k in sel.keep && k in m["data"].members && (k == "data" || k !in m));
    }
  }

  /** Without fields, or with blank ones alone, the reply goes out as it is; otherwise its tree is walked, lists item by item
      and other values as they are. */
  lemma ProjectionMeans(v: Json, fields: seq<string>)
    ensures var sel := Selecting(fields);
      if forall i :: 0 <= i < |fields| ==> Blank(fields[i]) then ProjectedJson(v, fields) == v
      else
        && ProjectedJson(v, fields) == Walk(v, sel) && (v.Scalar() ==> Walk(v, sel) == v)
        && (v.Arr? ==> Walk(v, sel).Arr? && |Walk(v, sel).items| == |v.items|)
        && (v.Arr? ==> forall i :: 0 <= i < |v.items| ==> Walk(v, sel).items[i] == Walk(v.items[i], sel))
  {
    hide TrimSpace, Colon, Blank, LimitOf, FieldName;
    SelectingSelects(fields);
    forall i | 0 <= i < |fields| ensures (FieldName(fields[i]) == "" <==> Blank(fields[i])) && FieldName(fields[i]) in Names(fields) {
      NamelessIsBlank(fields[i]);
    }
    if i :| 0 <= i < |fields| && !Blank(fields[i]) {
      assert FieldName(fields[i]) in Selecting(fields).keep;
    }
  }

  lemma NamelessIsBlank(field: string)
    ensures FieldName(field) == "" <==> Blank(field)
  {
    if Blank(field) {
      BlankTrims(field);
    } else {
      var i: nat :| i < |field| && !White(field[i]);
      SpaceIsWhite(field[i]);
      SolidStays(field, i);
    }
  }

  lemma {:induction false} SolidStays(s: string, i: nat)
    requires i < |s| && !IsSpace(s[i])
    ensures TrimSpace(s) != ""
  {
    if IsSpace(s[0]) {
      SolidStays(s[1..], i - 1);
    } else if IsSpace(s[|s| - 1]) {
      SolidStays(s[..|s| - 1], i);
    }
  }

  // ---- Where the leaves come from ----

  datatype Segment = Key(name: string) | Index(i: nat)

  /** The value at a path of a tree. */
  function At(v: Json, path: seq<Segment>): Option<Json> {
    if path == [] then Some(v)
    else
      match (v, path[0])
      case (Arr(items), Index(i)) => if i < |items| then At(items[i], path[1..]) else None
      case (Obj(m), Key(k)) => if k in m then At(m[k], path[1..]) else None
      case _ => None
  }

  /** `x` is the value `y` at the given path, or what is left of the string `y` when it is cut to the limit of its key. */
  predicate Abridges(x: Json, y: Json, path: seq<Segment>, sel: Selection) {
    x == y || (path != [] && path[|path| - 1].Key? && y.Str? && x == Cut(y, path[|path| - 1].name, sel))
  }

  lemma CutAt(v: Json, path: seq<Segment>, sel: Selection)
    requires path != [] && path[0].Key? && At(Cut(v, path[0].name, sel), path[1..]).Some?
    ensures At(v, path[1..]).Some? && Abridges(At(Cut(v, path[0].name, sel), path[1..]).value, At(v, path[1..]).value, path, sel)
  {
  }

  lemma EntityLeaf(m: Data, sel: Selection, path: seq<Segment>)
    requires EntityLike(m)
    requires At(Obj(ProjectedEntity(m, sel)), path).Some? && At(Obj(ProjectedEntity(m, sel)), path).value.Scalar()
    ensures At(Obj(m), path).Some? && Abridges(At(Obj(ProjectedEntity(m, sel)), path).value, At(Obj(m), path).value, path, sel)
  {
    var k := path[0].name;
    if TopLevel(m, k) {
      CutAt(m[k], path, sel);
    } else {
      var d, name := ProjectedData(m, sel), path[1].name;
      assert At(Obj(d), path[1..]).Some?;
      CutAt(m["data"].members[name], path[1..], sel);
    }
  }

  /** Every leaf of the projection sits at the same path in the reply, unchanged or cut to the limit of its key. */
  lemma {:induction false} LeavesKeepTheirPlace(v: Json, sel: Selection, path: seq<Segment>)
    requires At(Walk(v, sel), path).Some? && At(Walk(v, sel), path).value.Scalar()
    ensures At(v, path).Some? && Abridges(At(Walk(v, sel), path).value, At(v, path).value, path, sel)
    decreases v
  {
    match v
    case Arr(items) => LeavesKeepTheirPlace(items[path[0].i], sel, path[1..]);
    case Obj(m) =>
      if EntityLike(m) {
        EntityLeaf(m, sel, path);
      } else if TypeDefLike(m) {
        CutAt(m[path[0].name], path, sel);
      } else {
        LeavesKeepTheirPlace(m[path[0].name], sel, path[1..]);
      }
    case _ =>
  }

  // ---- Projecting twice ----

  predicate Uncut(v: Json, name: string, sel: Selection) {
    Cut(v, name, sel) == v
  }

  /** An entity-shaped object of which a projection leaves nothing out: every metadata and data name is selected and not
      cut, and there is data. */
  predicate FixedEntity(m: Data, sel: Selection)
    requires EntityLike(m)
  {
    var data := m["data"].members;
    && (forall k :: k in m && k != "data" ==> k in sel.keep && Uncut(m[k], k, sel))
    && data != map[] && (forall k :: k in data ==> k in sel.keep && !TopLevel(m, k) && Uncut(data[k], k, sel))
  }

  /** A tree in which every entity-shaped or type-shaped object holds selected, uncut names alone. */
  predicate Fixed(v: Json, sel: Selection) {
    match v
    case Arr(items) => forall i :: 0 <= i < |items| ==> Fixed(items[i], sel)
    case Obj(m) =>
      if EntityLike(m) then FixedEntity(m, sel)
      else if TypeDefLike(m) then forall k :: k in m ==> k in sel.keep && Uncut(m[k], k, sel)
      else forall k :: k in m ==> Fixed(m[k], sel)
    case _ => true
  }

  /** A tree that one projection brings to rest. An entity-shaped object does so if some selected name is in its data, or
      what is kept of its metadata is type-shaped, or else if all of that is fixed; a type-shaped object if both its name
      and its fields are kept, or all that is kept is fixed; any other tree member by member. */
  predicate Settles(v: Json, sel: Selection) {
    match v
    case Arr(items) => forall i :: 0 <= i < |items| ==> Settles(items[i], sel)
    case Obj(m) =>
      if EntityLike(m) then
        (exists k :: k in sel.keep && k in m["data"].members && !TopLevel(m, k)) ||
        (TypeDefLike(m) && "name" in sel.keep && "fields" in sel.keep) ||
        forall k :: k in sel.keep && TopLevel(m, k) ==> Fixed(m[k], sel)
      else if TypeDefLike(m) then
        ("name" in sel.keep && "fields" in sel.keep) || forall k :: k in sel.keep && k in m ==> Fixed(m[k], sel)
      else forall k :: k in m ==> Settles(m[k], sel)
    case _ => true
  }

  lemma FixedEntityStays(m: Data, sel: Selection)
    requires EntityLike(m)
    ensures ProjectedEntity(m, sel) == m <==> FixedEntity(m, sel)
  {
    hide Cut;
    var data, d, out := m["data"].members, ProjectedData(m, sel), ProjectedEntity(m, sel);
    if FixedEntity(m, sel) {
      assert d == data;
    }
    if out == m {
      assert m["data"] == Obj(d);
      forall k | k in m && k != "data" ensures k in sel.keep && Uncut(m[k], k, sel) { assert out[k] == m[k]; }
      forall k | k in data ensures k in sel.keep && !TopLevel(m, k) && Uncut(data[k], k, sel) { assert d[k] == data[k]; }
    }
  }

  lemma FixedFlatStays(m: Data, sel: Selection)
    ensures ProjectedFlat(m, sel) == m <==> forall k :: k in m ==> k in sel.keep && Uncut(m[k], k, sel)
  {
    hide Cut;
    var out := ProjectedFlat(m, sel);
    if out == m {
      forall k | k in m ensures k in sel.keep && Uncut(m[k], k, sel) { assert k in out && out[k] == m[k]; }
    }
  }

  lemma WalkObject(m: Data, sel: Selection)
    ensures EntityLike(m) ==> Walk(Obj(m), sel) == Obj(ProjectedEntity(m, sel))
    ensures !EntityLike(m) && TypeDefLike(m) ==> Walk(Obj(m), sel) == Obj(ProjectedFlat(m, sel))
    ensures !EntityLike(m) && !TypeDefLike(m) ==> Walk(Obj(m), sel) == Obj(map k | k in m :: Walk(m[k], sel))
  {
  }

  lemma SameMembers(m: Data, out: Data)
    requires out.Keys == m.Keys
    ensures out == m <==> forall k :: k in m ==> out[k] == m[k]
  {
  }

  /** A projection leaves exactly the fixed trees as they are. */
  lemma {:induction false} FixedStays(v: Json, sel: Selection)
    ensures Walk(v, sel) == v <==> Fixed(v, sel)
    decreases v
  {
    match v
    case Arr(items) =>
      forall i | 0 <= i < |items| ensures Walk(items[i], sel) == items[i] <==> Fixed(items[i], sel) { FixedStays(items[i], sel); }
      if Walk(v, sel) == v {
        forall i | 0 <= i < |items| ensures Fixed(items[i], sel) { assert Walk(v, sel).items[i] == items[i]; }
      }
    case Obj(m) =>
      WalkObject(m, sel);
      if EntityLike(m) {
        FixedEntityStays(m, sel);
      } else if TypeDefLike(m) {
        FixedFlatStays(m, sel);
      } else {
        forall k | k in m ensures Walk(m[k], sel) == m[k] <==> Fixed(m[k], sel) { FixedStays(m[k], sel); }
        SameMembers(m, map k | k in m :: Walk(m[k], sel));
      }
    case _ =>
  }

  lemma CutTwice(v: Json, name: string, sel: Selection)
    ensures Cut(Cut(v, name, sel), name, sel) == Cut(v, name, sel)
    ensures Fixed(Cut(v, name, sel), sel) <==> Fixed(v, sel)
  {
  }

  /** Projecting an object of neither shape again leaves it alone exactly when its members are fixed. */
  lemma PlainMembers(m: Data, sel: Selection)
    requires !EntityLike(m) && !TypeDefLike(m)
    ensures Walk(Obj(m), sel) == Obj(m) <==> forall k :: k in m ==> Fixed(m[k], sel)
  {
    FixedStays(Obj(m), sel);
  }

  lemma FlatSettles(m: Data, sel: Selection)
    requires !EntityLike(m) && TypeDefLike(m)
    ensures Walk(Obj(ProjectedFlat(m, sel)), sel) == Obj(ProjectedFlat(m, sel)) <==> Settles(Obj(m), sel)
  {
    var out := ProjectedFlat(m, sel);
    forall k | k in out ensures Cut(out[k], k, sel) == out[k] && (Fixed(out[k], sel) <==> Fixed(m[k], sel)) { CutTwice(m[k], k, sel); }
    assert !EntityLike(out) && (TypeDefLike(out) <==> "name" in sel.keep && "fields" in sel.keep);
    hide Walk, Fixed, Cut;
    WalkObject(out, sel);
    if TypeDefLike(out) {
      assert ProjectedFlat(out, sel) == out;
    } else {
      PlainMembers(out, sel);
      assert forall k :: k in out <==> k in sel.keep && k in m;
    }
  }

  lemma EntityShapes(m: Data, sel: Selection)
    requires EntityLike(m)
    ensures var out, d := ProjectedEntity(m, sel), ProjectedData(m, sel);
      && (d != map[] <==> exists k :: k in sel.keep && k in m["data"].members && !TopLevel(m, k))
      && (d != map[] ==> EntityLike(out) && ProjectedEntity(out, sel) == out)
      && (d == map[] ==> out == ProjectedTop(m, sel) && !EntityLike(out))
      && (d == map[] ==> (TypeDefLike(out) <==> TypeDefLike(m) && "name" in sel.keep && "fields" in sel.keep))
  {
    var out, d, top := ProjectedEntity(m, sel), ProjectedData(m, sel), ProjectedTop(m, sel);
    if exists k :: k in sel.keep && k in m["data"].members && !TopLevel(m, k) {
      var k :| k in sel.keep && k in m["data"].members && !TopLevel(m, k);
      assert k in d;
    }
    if d != map[] {
      var k :| k in d;
      DataTwice(m, sel);
    }
  }

  lemma DataTwice(m: Data, sel: Selection)
    requires EntityLike(m) && ProjectedData(m, sel) != map[]
    ensures EntityLike(ProjectedEntity(m, sel)) && ProjectedEntity(ProjectedEntity(m, sel), sel) == ProjectedEntity(m, sel)
  {
    var out, d, top := ProjectedEntity(m, sel), ProjectedData(m, sel), ProjectedTop(m, sel);
    forall k | k in d ensures Cut(d[k], k, sel) == d[k] { CutTwice(m["data"].members[k], k, sel); }
    forall k | k in top ensures Cut(top[k], k, sel) == top[k] { CutTwice(m[k], k, sel); }
    hide Cut;
    assert ProjectedData(out, sel) == d;
    assert ProjectedTop(out, sel) == top;
  }

  lemma EntitySettles(m: Data, sel: Selection)
    requires EntityLike(m)
    ensures Walk(Obj(ProjectedEntity(m, sel)), sel) == Obj(ProjectedEntity(m, sel)) <==> Settles(Obj(m), sel)
  {
    var out := ProjectedEntity(m, sel);
    EntityShapes(m, sel);
    WalkObject(out, sel);
    if ProjectedData(m, sel) == map[] {
      forall k | k in out ensures Cut(out[k], k, sel) == out[k] && (Fixed(out[k], sel) <==> Fixed(m[k], sel)) { CutTwice(m[k], k, sel); }
      hide Walk, Fixed, Cut;
      if TypeDefLike(out) {
        assert ProjectedFlat(out, sel) == out;
      } else {
        PlainMembers(out, sel);
        assert forall k :: k in out <==> k in sel.keep && TopLevel(m, k);
      }
    }
  }

  /** Members that are walked keep their shape, so an object of neither shape does not gain one. */
  lemma WalkKeepsShape(v: Json, sel: Selection)
    ensures Walk(v, sel).Str? == v.Str? && Walk(v, sel).Arr? == v.Arr? && Walk(v, sel).Obj? == v.Obj?
  {
  }

  lemma WalkedShape(m: Data, out: Data, sel: Selection)
    requires !EntityLike(m) && !TypeDefLike(m) && out.Keys == m.Keys && forall k :: k in m ==> out[k] == Walk(m[k], sel)
    ensures !EntityLike(out) && !TypeDefLike(out)
  {
    forall k | k in m ensures out[k].Str? == m[k].Str? && out[k].Arr? == m[k].Arr? && out[k].Obj? == m[k].Obj? {
      WalkKeepsShape(m[k], sel);
    }
  }

  /** Projecting a tree twice is projecting it once exactly when the first projection brings it to rest. */
  lemma {:induction false} ProjectingTwice(v: Json, sel: Selection)
    ensures Walk(Walk(v, sel), sel) == Walk(v, sel) <==> Settles(v, sel)
    decreases v
  {
    match v
    case Arr(items) =>
      forall i | 0 <= i < |items| ensures Walk(Walk(items[i], sel), sel) == Walk(items[i], sel) <==> Settles(items[i], sel) {
        ProjectingTwice(items[i], sel);
      }
      ItemsTwice(items, sel);
    case Obj(m) =>
      WalkObject(m, sel);
      if EntityLike(m) {
        EntitySettles(m, sel);
      } else if TypeDefLike(m) {
        FlatSettles(m, sel);
      } else {
        forall k | k in m ensures Walk(Walk(m[k], sel), sel) == Walk(m[k], sel) <==> Settles(m[k], sel) { ProjectingTwice(m[k], sel); }
        MembersTwice(m, sel);
      }
    case _ =>
  }

  lemma ItemsTwice(items: seq<Json>, sel: Selection)
    ensures Walk(Walk(Arr(items), sel), sel) == Walk(Arr(items), sel) <==>
            forall i :: 0 <= i < |items| ==> Walk(Walk(items[i], sel), sel) == Walk(items[i], sel)
  {
    var once := Walk(Arr(items), sel);
    var twice := Walk(once, sel);
    if twice == once {
      forall i | 0 <= i < |items| ensures Walk(Walk(items[i], sel), sel) == Walk(items[i], sel) { assert twice.items[i] == once.items[i]; }
    }
  }

  lemma MembersTwice(m: Data, sel: Selection)
    requires !EntityLike(m) && !TypeDefLike(m)
    ensures Walk(Walk(Obj(m), sel), sel) == Walk(Obj(m), sel) <==> forall k :: k in m ==> Walk(Walk(m[k], sel), sel) == Walk(m[k], sel)
  {
    var once: Data := map k | k in m :: Walk(m[k], sel);
    WalkedShape(m, once, sel);
    WalkObject(m, sel);
    WalkObject(once, sel);
    hide Walk;
    var twice: Data := map k | k in once :: Walk(once[k], sel);
    SameMembers(once, twice);
    forall k | k in m ensures once[k] == Walk(m[k], sel) && twice[k] == Walk(Walk(m[k], sel), sel) {
    }
    if twice == once {
      forall k | k in m ensures Walk(Walk(m[k], sel), sel) == Walk(m[k], sel) { assert twice[k] == once[k]; }
    }
  }

  // ---- A reply that projecting twice does change ----

  lemma FieldFixed(f: FieldDef, sel: Selection)
    ensures Fixed(FieldJson(f), sel) <==> Fixed(f.default, sel)
  {
    var m := FieldJson(f).members;
    assert !EntityLike(m) && !TypeDefLike(m);
    assert Fixed(m["name"], sel) && Fixed(m["type"], sel) && Fixed(m["required"], sel);
    if !f.default.Null? { assert m["default"] == f.default; }
    assert Fixed(Obj(m), sel) <==> forall k :: k in m ==> Fixed(m[k], sel);
    assert forall k :: k in m ==> k in {"name", "type", "required", "default"};
  }

  predicate FixedDefaults(fields: seq<FieldDef>, sel: Selection) {
    forall i :: 0 <= i < |fields| ==> Fixed(fields[i].default, sel)
  }

  lemma FieldsFixed(items: seq<Json>, fields: seq<FieldDef>, sel: Selection)
    requires |items| == |fields| && forall i :: 0 <= i < |fields| ==> items[i] == FieldJson(fields[i])
    ensures Fixed(Arr(items), sel) <==> FixedDefaults(fields, sel)
  {
    forall i | 0 <= i < |fields| ensures Fixed(items[i], sel) <==> Fixed(fields[i].default, sel) { FieldFixed(fields[i], sel); }
    if Fixed(Arr(items), sel) {
      forall i | 0 <= i < |fields| ensures Fixed(fields[i].default, sel) { assert Fixed(items[i], sel); }
    }
  }

  predicate FixedKept(m: Data, sel: Selection) {
    forall k :: k in sel.keep && k in m ==> Fixed(m[k], sel)
  }

  lemma NamelessSettles(m: Data, sel: Selection)
    requires !EntityLike(m) && TypeDefLike(m) && "name" !in sel.keep
    ensures Settles(Obj(m), sel) <==> FixedKept(m, sel)
  {
  }

  /** The description of an entity type, shown without its name: projecting it again changes it exactly when the default of
      one of its fields is not fixed. */
  lemma DescribedType(def: TypeDef, sel: Selection)
    requires "fields" in sel.keep && "name" !in sel.keep
    ensures Settles(Obj(DefinitionData(EntityKind, def)), sel) <==> FixedDefaults(def.fields, sel)
  {
    var m := DefinitionData(EntityKind, def);
    FieldsFixed(m["fields"].items, def.fields, sel);
    NamelessSettles(m, sel);
    assert forall k :: k in m && k != "fields" ==> m[k].Str? && Fixed(m[k], sel);
    hide Fixed, Settles;
    assert FixedKept(m, sel) <==> Fixed(m["fields"], sel);
  }

  /** Such a default is an object that looks like an entity. */
  lemma DescriptionsCanChangeTwice(def: TypeDef, i: int, sel: Selection)
    requires sel == Selection({"fields"}, map[]) && 0 <= i < |def.fields| && def.fields[i].default == Obj(map["data" := Obj(map["a" := Null])])
    ensures var reply := Obj(DefinitionData(EntityKind, def)); Walk(Walk(reply, sel), sel) != Walk(reply, sel)
  {
    hide Walk;
    var inner: Data := map["data" := Obj(map["a" := Null])];
    assert inner["data"] == Obj(map["a" := Null]) && EntityLike(inner);
    assert "a" in inner["data"].members && !FixedEntity(inner, sel);
    assert !Fixed(def.fields[i].default, sel);
    DescribedType(def, sel);
    ProjectingTwice(Obj(DefinitionData(EntityKind, def)), sel);
  }
}
