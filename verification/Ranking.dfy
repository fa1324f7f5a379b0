/** Orders: ids newest first (the order of every entity and relation listing), and events
    oldest first (the order of the replay). */
module Ranking {
  import opened Types

  /** `a` is listed before `b`: later creation time first, then larger id. */
  predicate Above(created: map<Id, Time>, a: Id, b: Id)
    requires a in created && b in created
  {
    created[a] > created[b] || (created[a] == created[b] && a > b)
  }

  ghost predicate Ranked(created: map<Id, Time>, ids: seq<Id>) {
    && (forall i :: 0 <= i < |ids| ==> ids[i] in created)
    && (forall i, j :: 0 <= i < j < |ids| ==> Above(created, ids[i], ids[j]))
  }

  ghost predicate IsTop(created: map<Id, Time>, top: Id) {
    top in created && forall x :: x in created && x != top ==> Above(created, top, x)
  }

  lemma {:induction false} TopExists(created: map<Id, Time>) returns (top: Id)
    requires created != map[]
    ensures IsTop(created, top)
    decreases |created|
  {
    var x :| x in created;
    var rest := created - {x};
    if rest == map[] {
      assert forall y :: y in created && y != x ==> y in rest;
      top := x;
    } else {
      assert |rest.Keys| < |created.Keys| by { assert rest.Keys == created.Keys - {x}; }
      var t := TopExists(rest);
      top := if Above(created, x, t) then x else t;
      assert forall y :: y in created && y != x ==> y in rest;
    }
  }

  lemma PutOnTop(created: map<Id, Time>, top: Id, ids: seq<Id>)
    requires IsTop(created, top) && Ranked(created - {top}, ids) && forall x :: x in created - {top} <==> x in ids
    ensures Ranked(created, [top] + ids) && forall x :: x in created <==> x in [top] + ids
  {
    forall i, j | 0 <= i < j < |ids| ensures Above(created, ids[i], ids[j]) { assert Above(created - {top}, ids[i], ids[j]); }
  }

  /** The ids of a table, newest first. */
  ghost function Rank(created: map<Id, Time>): (ids: seq<Id>)
    ensures Ranked(created, ids)
    ensures forall x :: x in created <==> x in ids
    decreases |created|
  {
    if created == map[] then []
    else
      assert exists top :: IsTop(created, top) by { var t := TopExists(created); }
      var top :| IsTop(created, top);
      var rest := created - {top};
      assert |rest.Keys| < |created.Keys| by { assert rest.Keys == created.Keys - {top}; }
      var ids := Rank(rest);
      assert Ranked(created, [top] + ids) && forall x :: x in created <==> x in [top] + ids by { PutOnTop(created, top, ids); }
      [top] + ids
  }

  /** A ranked listing of a given set of ids is unique. */
  lemma {:induction false} RankUnique(created: map<Id, Time>, a: seq<Id>, b: seq<Id>)
    requires Ranked(created, a) && Ranked(created, b)
    requires forall x :: x in a <==> x in b
    ensures a == b
    decreases |a|
  {
    if a != [] { assert a[0] in b; }
    if b != [] { assert b[0] in a; }
    if a != [] && b != [] {
      assert a[0] == b[0];
      forall x ensures x in a[1..] <==> x in b[1..] {
        assert x in a <==> x == a[0] || x in a[1..];
        assert x in b <==> x == b[0] || x in b[1..];
      }
      RankUnique(created, a[1..], b[1..]);
    }
  }

  function Keep(ids: seq<Id>, keep: set<Id>): (out: seq<Id>)
    ensures forall x :: x in out <==> x in ids && x in keep
  {
    if ids == [] then []
    else (if ids[0] in keep then [ids[0]] else []) + Keep(ids[1..], keep)
  }

  lemma {:induction false} KeepRanked(created: map<Id, Time>, ids: seq<Id>, keep: set<Id>)
    requires Ranked(created, ids)
    ensures Ranked(created, Keep(ids, keep))
  {
    if ids != [] {
      KeepRanked(created, ids[1..], keep);
      var rest := Keep(ids[1..], keep);
      forall j | 0 <= j < |rest| ensures Above(created, ids[0], rest[j]) {
        assert rest[j] in ids[1..];
      }
    }
  }

  function Part(created: map<Id, Time>, keep: set<Id>): map<Id, Time> {
    map x | x in created && x in keep :: created[x]
  }

  /** Ranking a part of a table keeps the order of the whole. */
  lemma RankOfPart(created: map<Id, Time>, keep: set<Id>)
    ensures Rank(Part(created, keep)) == Keep(Rank(created), keep)
  {
    var part := Part(created, keep);
    KeepRanked(created, Rank(created), keep);
    assert Ranked(created, Rank(part)) by {
      forall i, j | 0 <= i < j < |Rank(part)| ensures Above(created, Rank(part)[i], Rank(part)[j]) {
        assert Above(part, Rank(part)[i], Rank(part)[j]);
      }
    }
    RankUnique(created, Rank(part), Keep(Rank(created), keep));
  }

  function Take<T>(s: seq<T>, n: nat): seq<T> {
    if |s| <= n then s else s[..n]
  }

  /** Filtering commutes with truncation exactly when the truncated listing loses nothing
      to the filter. */
  lemma {:induction false} TakeKeep(ids: seq<Id>, keep: set<Id>, n: nat)
    ensures (Take(Keep(ids, keep), n) == Take(ids, n)) <==> (forall x :: x in Take(ids, n) ==> x in keep)
  {
    if Take(Keep(ids, keep), n) == Take(ids, n) {
      forall x | x in Take(ids, n) ensures x in keep {
        assert x in Keep(ids, keep);
      }
    } else if forall x :: x in Take(ids, n) ==> x in keep {
      TakeOfKept(ids, keep, n);
    }
  }

  lemma {:induction false} TakeOfKept(ids: seq<Id>, keep: set<Id>, n: nat)
    requires forall x :: x in Take(ids, n) ==> x in keep
    ensures Take(Keep(ids, keep), n) == Take(ids, n)
  {
    if ids != [] && n > 0 {
      var rest := Take(ids[1..], n - 1);
      assert Take(ids, n) == [ids[0]] + rest;
      assert ids[0] in Take(ids, n) && forall x :: x in rest ==> x in Take(ids, n);
      TakeOfKept(ids[1..], keep, n - 1);
      assert Keep(ids, keep) == [ids[0]] + Keep(ids[1..], keep);
    }
  }

  predicate EventLeq(a: Event, b: Event) {
    a.timestamp < b.timestamp || (a.timestamp == b.timestamp && a.id <= b.id)
  }

  ghost predicate SortedEvents(log: seq<Event>) {
    forall i, j :: 0 <= i < j < |log| ==> EventLeq(log[i], log[j])
  }

  function InsertEvent(log: seq<Event>, ev: Event): seq<Event> {
    if log == [] || EventLeq(log[|log| - 1], ev) then log + [ev]
    else InsertEvent(log[..|log| - 1], ev) + [log[|log| - 1]]
  }

  /** ORDER BY timestamp ASC, id ASC. */
  function SortEvents(log: seq<Event>): seq<Event> {
    if log == [] then [] else InsertEvent(SortEvents(log[..|log| - 1]), log[|log| - 1])
  }

  lemma {:induction false} InsertEventSorted(log: seq<Event>, ev: Event)
    requires SortedEvents(log)
    ensures SortedEvents(InsertEvent(log, ev))
    ensures multiset(InsertEvent(log, ev)) == multiset(log) + multiset{ev}
  {
    if log != [] && !EventLeq(log[|log| - 1], ev) {
      var before, last := log[..|log| - 1], log[|log| - 1];
      InsertEventSorted(before, ev);
      var ins := InsertEvent(before, ev);
      assert log == before + [last] && InsertEvent(log, ev) == ins + [last];
      hide InsertEvent;
      forall i | 0 <= i < |ins| ensures EventLeq(ins[i], last) {
        assert ins[i] in multiset(ins);
        assert ins[i] == ev || ins[i] in before;
      }
    }
  }

  lemma {:induction false} SortEventsSorts(log: seq<Event>)
    ensures SortedEvents(SortEvents(log)) && multiset(SortEvents(log)) == multiset(log)
  {
    if log != [] {
      var before, last := log[..|log| - 1], log[|log| - 1];
      SortEventsSorts(before);
      InsertEventSorted(SortEvents(before), last);
      assert log == before + [last];
      assert SortEvents(log) == InsertEvent(SortEvents(before), last);
      hide SortEvents, InsertEvent, SortedEvents;
    }
  }

  lemma {:induction false} SortEventsStable(log: seq<Event>)
    requires SortedEvents(log)
    ensures SortEvents(log) == log
  {
    if log != [] {
      var before, last := log[..|log| - 1], log[|log| - 1];
      SortEventsStable(before);
      assert SortEvents(log) == InsertEvent(before, last);
      hide SortEvents;
      if before != [] { assert EventLeq(before[|before| - 1], last); }
      assert InsertEvent(before, last) == before + [last];
    }
  }
}
