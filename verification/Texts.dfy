/** Texts: their order, byte by byte as the database indexes and Go's string comparison have it, and decimal digits. */
module Texts {
  predicate TextLess(a: string, b: string) {
    if b == "" then false
    else if a == "" then true
    else a[0] < b[0] || (a[0] == b[0] && TextLess(a[1..], b[1..]))
  }

  lemma TextLessPrefix(p: string, a: string, b: string)
    ensures TextLess(p + a, p + b) <==> TextLess(a, b)
  {
    if p == "" {
      assert p + a == a && p + b == b;
    } else {
      assert (p + a)[1..] == p[1..] + a && (p + b)[1..] == p[1..] + b;
      TextLessPrefix(p[1..], a, b);
    }
  }

  /** The first place where two texts differ decides their order. */
  lemma TextLessAt(a: string, b: string, k: nat)
    requires k < |a| && k < |b| && a[..k] == b[..k] && a[k] != b[k]
    ensures TextLess(a, b) <==> a[k] < b[k]
  {
    assert a == a[..k] + a[k..] && b == b[..k] + b[k..];
    TextLessPrefix(a[..k], a[k..], b[k..]);
  }

  lemma TextIrreflexive(s: string)
    ensures !TextLess(s, s)
  {
  }

  lemma TextTotal(a: string, b: string)
    ensures a == b || TextLess(a, b) || TextLess(b, a)
  {
    if a != "" && b != "" && a[0] == b[0] {
      assert a == [a[0]] + a[1..] && b == [b[0]] + b[1..];
      TextTotal(a[1..], b[1..]);
    }
  }

  lemma TextTransitive(a: string, b: string, c: string)
    requires TextLess(a, b) && TextLess(b, c)
    ensures TextLess(a, c)
  {
  }

  predicate SortedTexts(names: seq<string>) {
    forall i, j :: 0 <= i < j < |names| ==> TextLess(names[i], names[j])
  }

  /** The position of a new name in a sorted list: the names before it are smaller, the others larger. */
  method PlaceOf(names: seq<string>, name: string) returns (k: nat)
    requires SortedTexts(names) && name !in names
    ensures k <= |names|
    ensures forall i :: 0 <= i < k ==> TextLess(names[i], name)
    ensures forall i :: k <= i < |names| ==> TextLess(name, names[i])
  {
    k := |names|;
    while k > 0 && TextLess(name, names[k - 1])
      invariant k <= |names|
      invariant forall i :: k <= i < |names| ==> TextLess(name, names[i])
    {
      k := k - 1;
    }
    if k > 0 {
      TextTotal(names[k - 1], name);
      forall i | 0 <= i < k - 1 ensures TextLess(names[i], name) {
        TextTransitive(names[i], names[k - 1], name);
      }
    }
  }

  /** The least of a set of texts. */
  ghost predicate Least(keys: set<string>, least: string) {
    least in keys && forall n :: n in keys && n != least ==> TextLess(least, n)
  }

  lemma {:induction false} LeastExists(keys: set<string>) returns (least: string)
    requires keys != {}
    ensures Least(keys, least)
    decreases |keys|
  {
    var name :| name in keys;
    var rest := keys - {name};
    if rest == {} {
      least := name;
      assert forall n :: n in keys && n != name ==> n in rest;
    } else {
      var other := LeastExists(rest);
      TextTotal(name, other);
      least := if TextLess(name, other) then name else other;
      forall n | n in keys && n != least ensures TextLess(least, n) {
        if n != name && least == name && n != other { TextTransitive(name, other, n); }
      }
    }
  }

  /** The texts of a set, in order. */
  ghost function InOrder(keys: set<string>): (names: seq<string>)
    ensures SortedTexts(names)
    ensures forall n :: n in names <==> n in keys
    decreases |keys|
  {
    if keys == {} then []
    else
      assert exists least :: Least(keys, least) by { var l := LeastExists(keys); }
      var least :| Least(keys, least);
      var rest := InOrder(keys - {least});
      assert forall i :: 0 <= i < |rest| ==> rest[i] in rest;
      [least] + rest
  }

  /** A sorted list of given texts is unique. */
  lemma {:induction false} SortedUnique(a: seq<string>, b: seq<string>)
    requires SortedTexts(a) && SortedTexts(b) && forall n :: n in a <==> n in b
    ensures a == b
    decreases |a|
  {
    if a != [] { assert a[0] in b; }
    if b != [] { assert b[0] in a; }
    if a != [] && b != [] {
      SameFirst(a, b);
      forall n ensures n in a[1..] <==> n in b[1..] {
        RestOfSorted(a, n);
        RestOfSorted(b, n);
      }
      SortedUnique(a[1..], b[1..]);
      assert a == [a[0]] + a[1..] && b == [b[0]] + b[1..];
    }
  }

  lemma SameFirst(a: seq<string>, b: seq<string>)
    requires SortedTexts(a) && SortedTexts(b) && a != [] && b != [] && a[0] in b && b[0] in a
    ensures a[0] == b[0]
  {
    if a[0] != b[0] {
      assert TextLess(a[0], b[0]) && TextLess(b[0], a[0]);
      TextTransitive(a[0], b[0], a[0]);
      TextIrreflexive(a[0]);
    }
  }

  lemma RestOfSorted(names: seq<string>, name: string)
    requires SortedTexts(names) && names != []
    ensures name in names[1..] <==> name in names && name != names[0]
  {
    if name in names[1..] {
      var i :| 0 <= i < |names| - 1 && names[1..][i] == name;
      assert TextLess(names[0], names[i + 1]);
      TextIrreflexive(name);
    }
  }

  method SortTexts(keys: set<string>) returns (names: seq<string>)
    ensures names == InOrder(keys)
    ensures SortedTexts(names)
    ensures forall n :: n in names <==> n in keys
  {
    names := [];
    var todo := keys;
    while todo != {}
      invariant todo <= keys && SortedTexts(names)
      invariant forall n :: n in names <==> n in keys && n !in todo
      decreases |todo|
    {
      var name :| name in todo;
      todo := todo - {name};
      var k := PlaceOf(names, name);
      names := names[..k] + [name] + names[k..];
    }
    SortedUnique(names, InOrder(keys));
  }

  predicate AllDigits(s: string) {
    forall i :: 0 <= i < |s| ==> '0' <= s[i] <= '9'
  }

  /** The number a text of decimal digits denotes. */
  function Number(s: string): nat
    requires AllDigits(s)
  {
    if s == "" then 0 else Number(s[..|s| - 1]) * 10 + (s[|s| - 1] as int - '0' as int)
  }
}
