/** The listing of events as the database computes it: the bounds of a range and the order compare timestamp texts. */
module TextListing {
  import opened Types
  import opened Texts
  import opened EventLog
  import opened Ranking
  import opened Queries
  import C = TimeText

  // ---- times and their texts ----

  /** A time is the number of nanoseconds since the zero time. */
  predicate Denotes(i: C.Instant, t: Time) {
    C.Valid(i) && C.Nanos(i) == C.Nanos(C.ZERO) + t
  }

  /** The times before the year 10000. */
  ghost predicate Dateable(t: Time) {
    exists i :: Denotes(i, t)
  }

  ghost function Date(t: Time): C.Instant {
    if Dateable(t) then var i :| Denotes(i, t); i else C.ZERO
  }

  ghost function Text(t: Time): string {
    C.FormatTime(Date(t))
  }

  /** Two times of one second, the fraction of one being the beginning of the other's. */
  ghost predicate Clash(s: Time, t: Time) {
    C.Collide(Date(s), Date(t))
  }

  /** Texts compare as times do, but for times that clash, which compare the other way round. */
  lemma TextOrder(s: Time, t: Time)
    requires Dateable(s) && Dateable(t)
    ensures TextLess(Text(s), Text(t)) <==> if Clash(s, t) then t < s else s < t
    ensures Clash(s, t) <==> Clash(t, s)
    ensures Clash(s, t) ==> s != t
  {
    hide C.Nanos, C.FormatTime, C.Fraction, TextLess;
    C.CollideSymmetric(Date(s), Date(t));
    if s == t {
      TextIrreflexive(Text(s));
      NeverWithItself(Date(s));
    } else {
      C.TextOrderIsTimeOrder(Date(s), Date(t));
    }
  }

  lemma NeverWithItself(i: C.Instant)
    ensures !C.Collide(i, i)
  {
  }

  // ---- the listing by text ----

  ghost predicate TextInRange(ev: Event, since: Time, until: Time) {
    && (since == ZERO_TIME || !TextLess(Text(ev.timestamp), Text(since)))
    && (until == ZERO_TIME || !TextLess(Text(until), Text(ev.timestamp)))
  }

  ghost predicate TextLeq(a: Event, b: Event) {
    TextLess(Text(a.timestamp), Text(b.timestamp)) || (Text(a.timestamp) == Text(b.timestamp) && a.id <= b.id)
  }

  ghost function InsertByText(evs: seq<Event>, ev: Event): seq<Event> {
    if evs == [] || TextLeq(evs[|evs| - 1], ev) then evs + [ev]
    else InsertByText(evs[..|evs| - 1], ev) + [evs[|evs| - 1]]
  }

  ghost function ListByText(log: seq<Event>, peer: Did, since: Time, until: Time): seq<Event> {
    if log == [] then []
    else
      var before, ev := ListByText(log[..|log| - 1], peer, since, until), log[|log| - 1];
      if ev.peer == peer && TextInRange(ev, since, until) then InsertByText(before, ev) else before
  }

  lemma ListByTextAppend(log: seq<Event>, ev: Event, peer: Did, since: Time, until: Time)
    ensures ListByText(log + [ev], peer, since, until)
         == if ev.peer == peer && TextInRange(ev, since, until) then InsertByText(ListByText(log, peer, since, until), ev)
            else ListByText(log, peer, since, until)
  {
    assert (log + [ev])[..|log|] == log;
  }

  ghost predicate Ordered(evs: seq<Event>) {
    forall i, j :: 0 <= i < j < |evs| ==> TextLeq(evs[i], evs[j])
  }

  lemma TextLeqTotal(a: Event, b: Event)
    ensures TextLeq(a, b) || TextLeq(b, a)
  {
    TextTotal(Text(a.timestamp), Text(b.timestamp));
  }

  lemma TextLeqTransitive(a: Event, b: Event, c: Event)
    requires TextLeq(a, b) && TextLeq(b, c)
    ensures TextLeq(a, c)
  {
    var s, t, u := Text(a.timestamp), Text(b.timestamp), Text(c.timestamp);
    if TextLess(s, t) && TextLess(t, u) { TextTransitive(s, t, u); }
  }

  lemma {:induction false} InsertByTextOrders(evs: seq<Event>, ev: Event)
    requires Ordered(evs)
    ensures Ordered(InsertByText(evs, ev))
    ensures forall x :: x in InsertByText(evs, ev) <==> x in evs || x == ev
  {
    hide TextLeq;
    if evs != [] {
      var before, last := evs[..|evs| - 1], evs[|evs| - 1];
      assert evs == before + [last];
      if TextLeq(last, ev) {
        forall i | 0 <= i < |evs| ensures TextLeq(evs[i], ev) {
          if i < |before| { TextLeqTransitive(evs[i], last, ev); }
        }
      } else {
        InsertByTextOrders(before, ev);
        var ins := InsertByText(before, ev);
        TextLeqTotal(last, ev);
        forall i | 0 <= i < |ins| ensures TextLeq(ins[i], last) {
          assert ins[i] in ins;
          if ins[i] != ev {
            var j :| 0 <= j < |before| && before[j] == ins[i];
            assert TextLeq(evs[j], evs[|evs| - 1]);
          }
        }
      }
    }
  }

  /** The listing by text is what SQL promises: the peer's events in the range of texts, in the order of texts and ids. */
  lemma {:induction false} ListByTextOrders(log: seq<Event>, peer: Did, since: Time, until: Time)
    ensures Ordered(ListByText(log, peer, since, until))
    ensures forall x :: x in ListByText(log, peer, since, until) <==> x in log && x.peer == peer && TextInRange(x, since, until)
  {
    hide TextLeq, TextInRange, InsertByText;
    if log != [] {
      var before, ev := log[..|log| - 1], log[|log| - 1];
      assert log == before + [ev];
      ListByTextOrders(before, peer, since, until);
      ListByTextAppend(before, ev, peer, since, until);
      InsertByTextOrders(ListByText(before, peer, since, until), ev);
    }
  }

  lemma ListEventsOrders(log: seq<Event>, peer: Did, since: Time, until: Time)
    ensures SortedEvents(ListEvents(log, peer, since, until))
    ensures forall x :: x in ListEvents(log, peer, since, until) <==> x in log && x.peer == peer && InRange(x, since, until)
  {
    hide SortedEvents;
    RangeMembers(log, peer, since, until);
    SortEventsSorts(Between(OfPeer(log, peer), since, until));
  }

  // ---- against the listing by instant ----

  ghost predicate AllDateable(log: seq<Event>, since: Time, until: Time) {
    Dateable(since) && Dateable(until) && forall i :: 0 <= i < |log| ==> Dateable(log[i].timestamp)
  }

  /** The bounds admit the same of the peer's events by text and by time. */
  ghost predicate SameRange(log: seq<Event>, peer: Did, since: Time, until: Time) {
    forall ev :: ev in log && ev.peer == peer ==> (TextInRange(ev, since, until) <==> InRange(ev, since, until))
  }

  /** No two of the peer's events in the range clash. */
  ghost predicate NoneClash(log: seq<Event>, peer: Did, since: Time, until: Time) {
    forall a, b :: a in log && b in log && a.peer == peer && b.peer == peer && InRange(a, since, until) && InRange(b, since, until) ==>
      !Clash(a.timestamp, b.timestamp)
  }

  lemma SameLeq(a: Event, b: Event)
    requires Dateable(a.timestamp) && Dateable(b.timestamp) && !Clash(a.timestamp, b.timestamp)
    ensures TextLeq(a, b) <==> EventLeq(a, b)
  {
    hide Text, Clash, Dateable;
    TextOrder(a.timestamp, b.timestamp);
    TextOrder(b.timestamp, a.timestamp);
    TextTotal(Text(a.timestamp), Text(b.timestamp));
    TextIrreflexive(Text(a.timestamp));
  }

  lemma {:induction false} SameInsert(evs: seq<Event>, ev: Event)
    requires Dateable(ev.timestamp) && forall i :: 0 <= i < |evs| ==> Dateable(evs[i].timestamp) && !Clash(evs[i].timestamp, ev.timestamp)
    ensures InsertByText(evs, ev) == InsertEvent(evs, ev)
  {
    hide TextLeq, EventLeq, Dateable, Clash;
    if evs != [] {
      SameLeq(evs[|evs| - 1], ev);
      SameInsert(evs[..|evs| - 1], ev);
    }
  }

  /** A listed event clashes with no later one in the range. */
  lemma ListedApart(log: seq<Event>, ev: Event, since: Time, until: Time)
    requires AllDateable(log + [ev], since, until) && NoneClash(log + [ev], ev.peer, since, until) && InRange(ev, since, until)
    ensures var evs := ListEvents(log, ev.peer, since, until);
      Dateable(ev.timestamp) && forall i :: 0 <= i < |evs| ==> Dateable(evs[i].timestamp) && !Clash(evs[i].timestamp, ev.timestamp)
  {
    ListEventsOrders(log, ev.peer, since, until);
    LoggedDateable(log + [ev], since, until, ev);
    hide InRange, Dateable, Clash, ListEvents, AllDateable;
    var evs := ListEvents(log, ev.peer, since, until);
    forall i | 0 <= i < |evs| ensures Dateable(evs[i].timestamp) && !Clash(evs[i].timestamp, ev.timestamp) {
      assert evs[i] in evs;
      LoggedDateable(log + [ev], since, until, evs[i]);
    }
  }

  lemma EarlierHypotheses(log: seq<Event>, ev: Event, peer: Did, since: Time, until: Time)
    requires AllDateable(log + [ev], since, until) && SameRange(log + [ev], peer, since, until) && NoneClash(log + [ev], peer, since, until)
    ensures AllDateable(log, since, until) && SameRange(log, peer, since, until) && NoneClash(log, peer, since, until)
    ensures ev.peer == peer ==> (TextInRange(ev, since, until) <==> InRange(ev, since, until))
  {
    hide TextInRange, InRange, Dateable, Clash;
    assert forall i :: 0 <= i < |log| ==> (log + [ev])[i] == log[i];
    assert forall x :: x in log || x == ev ==> x in log + [ev];
  }

  lemma {:induction false} SameListings(log: seq<Event>, peer: Did, since: Time, until: Time)
    requires AllDateable(log, since, until) && SameRange(log, peer, since, until) && NoneClash(log, peer, since, until)
    ensures ListByText(log, peer, since, until) == ListEvents(log, peer, since, until)
  {
    hide TextInRange, InRange, Dateable, Clash, AllDateable, SameRange, NoneClash;
    if log != [] {
      var before, ev := log[..|log| - 1], log[|log| - 1];
      assert log == before + [ev];
      EarlierHypotheses(before, ev, peer, since, until);
      SameListings(before, peer, since, until);
      ListByTextAppend(before, ev, peer, since, until);
      ListEventsAppend(before, ev, peer, since, until);
      hide ListEvents, ListByText, InsertEvent, InsertByText;
      if ev.peer == peer && InRange(ev, since, until) {
        ListedApart(before, ev, since, until);
        SameInsert(ListEvents(before, peer, since, until), ev);
      }
    }
  }

  lemma ClashReverses(a: Event, b: Event)
    requires Dateable(a.timestamp) && Dateable(b.timestamp) && Clash(a.timestamp, b.timestamp)
    ensures EventLeq(a, b) ==> !TextLeq(a, b)
  {
    hide Text, Dateable, Clash;
    TextOrder(a.timestamp, b.timestamp);
    TextOrder(b.timestamp, a.timestamp);
    TextIrreflexive(Text(a.timestamp));
  }

  lemma ClashingDiffer(evs: seq<Event>, a: Event, b: Event)
    requires a in evs && b in evs && Dateable(a.timestamp) && Dateable(b.timestamp) && Clash(a.timestamp, b.timestamp)
    ensures !(SortedEvents(evs) && Ordered(evs))
  {
    hide TextLeq, Dateable, Clash;
    var i :| 0 <= i < |evs| && evs[i] == a;
    var j :| 0 <= j < |evs| && evs[j] == b;
    TextOrder(a.timestamp, b.timestamp);
    ClashReverses(a, b);
    ClashReverses(b, a);
  }

  /** Listing by text is listing by time exactly when the bounds admit the same events and no two events listed clash. */
  lemma ListingByText(log: seq<Event>, peer: Did, since: Time, until: Time)
    requires AllDateable(log, since, until)
    ensures ListByText(log, peer, since, until) == ListEvents(log, peer, since, until)
       <==> SameRange(log, peer, since, until) && NoneClash(log, peer, since, until)
  {
    hide TextInRange, InRange, Dateable, Clash, ListEvents, ListByText, Ordered, SortedEvents;
    ListEventsOrders(log, peer, since, until);
    ListByTextOrders(log, peer, since, until);
    var evs := ListEvents(log, peer, since, until);
    if SameRange(log, peer, since, until) && NoneClash(log, peer, since, until) {
      SameListings(log, peer, since, until);
    }
    if ListByText(log, peer, since, until) == evs {
      forall a, b | a in log && b in log && a.peer == peer && b.peer == peer && InRange(a, since, until) && InRange(b, since, until)
        ensures !Clash(a.timestamp, b.timestamp)
      {
        LoggedDateable(log, since, until, a);
        LoggedDateable(log, since, until, b);
        if Clash(a.timestamp, b.timestamp) { ClashingDiffer(evs, a, b); }
      }
    }
  }

  lemma LoggedDateable(log: seq<Event>, since: Time, until: Time, ev: Event)
    requires AllDateable(log, since, until) && ev in log
    ensures Dateable(ev.timestamp)
  {
    var i :| 0 <= i < |log| && log[i] == ev;
  }

  /** A bound misplaces exactly the events that clash with it. */
  lemma BoundByText(ev: Event, until: Time)
    requires Dateable(ev.timestamp) && Dateable(until) && until != ZERO_TIME
    ensures (TextInRange(ev, ZERO_TIME, until) <==> InRange(ev, ZERO_TIME, until)) <==> !Clash(ev.timestamp, until)
    ensures (TextInRange(ev, until, ZERO_TIME) <==> InRange(ev, until, ZERO_TIME)) <==> !Clash(ev.timestamp, until)
  {
    hide Text, Clash, Dateable;
    TextOrder(ev.timestamp, until);
    TextOrder(until, ev.timestamp);
  }

  /** So time travel, which bounds the listing above, replays the events up to an instant exactly when none of the peer's
      events clashes with the instant and no two of those up to it clash. */
  lemma TimeTravelByText(log: seq<Event>, peer: Did, asOf: Time)
    requires AllDateable(log, ZERO_TIME, asOf) && asOf != ZERO_TIME
    ensures ListByText(log, peer, ZERO_TIME, asOf) == ListEvents(log, peer, ZERO_TIME, asOf)
       <==> (forall ev :: ev in log && ev.peer == peer ==> !Clash(ev.timestamp, asOf)) && NoneClash(log, peer, ZERO_TIME, asOf)
  {
    hide TextInRange, InRange, Clash, Dateable, ListByText, ListEvents;
    ListingByText(log, peer, ZERO_TIME, asOf);
    forall ev | ev in log ensures (TextInRange(ev, ZERO_TIME, asOf) <==> InRange(ev, ZERO_TIME, asOf)) <==> !Clash(ev.timestamp, asOf) {
      LoggedDateable(log, ZERO_TIME, asOf, ev);
      BoundByText(ev, asOf);
    }
  }

  /** An instant at a whole second admits by text every later event of that second. */
  lemma WholeSecondAdmitsLater(ev: Event, asOf: Time)
    requires Dateable(ev.timestamp) && Dateable(asOf) && asOf != ZERO_TIME
    requires C.Head(Date(ev.timestamp)) == C.Head(Date(asOf)) && Date(asOf).nano == 0 < Date(ev.timestamp).nano
    ensures TextInRange(ev, ZERO_TIME, asOf) && !InRange(ev, ZERO_TIME, asOf)
  {
    hide C.Nanos, C.FormatTime, TextLess;
    C.WholeSecondSortsLast(Date(asOf), Date(ev.timestamp));
    TextOrder(asOf, ev.timestamp);
    TextOrder(ev.timestamp, asOf);
  }

  // ---- what replay makes of it ----

  /** All of the peer's events so far are listed before `ev`, by time and by text. */
  ghost predicate After(log: seq<Event>, peer: Did, ev: Event) {
    forall x :: x in log && x.peer == peer ==> EventLeq(x, ev) && TextLeq(x, ev)
  }

  ghost predicate IsCreation(ev: Event, e: Entity) {
    ev.etype.EntityCreated? && ev.payload == EntityPayload(e) && e.id != NO_ID
  }

  ghost predicate IsUpdate(ev: Event, e: Entity) {
    ev.etype.EntityUpdated? && ev.payload == EntityPayload(e) && e.id != NO_ID && e.data.Some?
  }

  lemma InsertAtEnd(evs: seq<Event>, ev: Event)
    ensures (forall x :: x in evs ==> EventLeq(x, ev)) ==> InsertEvent(evs, ev) == evs + [ev]
    ensures (forall x :: x in evs ==> TextLeq(x, ev)) ==> InsertByText(evs, ev) == evs + [ev]
  {
    hide TextLeq, EventLeq;
    if evs != [] { assert evs[|evs| - 1] in evs; }
  }

  lemma ListedInOrder(log: seq<Event>, x: Event, y: Event)
    requires After(log, x.peer, x) && After(log, x.peer, y) && EventLeq(x, y) && x.peer == y.peer
    ensures ListEvents(log + [x] + [y], x.peer, ZERO_TIME, ZERO_TIME) == ListEvents(log, x.peer, ZERO_TIME, ZERO_TIME) + [x] + [y]
  {
    ListEventsAppend(log, x, x.peer, ZERO_TIME, ZERO_TIME);
    ListEventsAppend(log + [x], y, x.peer, ZERO_TIME, ZERO_TIME);
    ListEventsOrders(log, x.peer, ZERO_TIME, ZERO_TIME);
    hide ListEvents, TextLeq, EventLeq, InsertEvent;
    InsertAtEnd(ListEvents(log, x.peer, ZERO_TIME, ZERO_TIME), x);
    InsertAtEnd(ListEvents(log, x.peer, ZERO_TIME, ZERO_TIME) + [x], y);
  }

  lemma ListedInReverse(log: seq<Event>, x: Event, y: Event)
    requires After(log, x.peer, x) && After(log, x.peer, y) && !TextLeq(x, y) && x.peer == y.peer
    ensures ListByText(log + [x] + [y], x.peer, ZERO_TIME, ZERO_TIME) == ListByText(log, x.peer, ZERO_TIME, ZERO_TIME) + [y] + [x]
  {
    var b := ListByText(log, x.peer, ZERO_TIME, ZERO_TIME);
    ListByTextAppend(log, x, x.peer, ZERO_TIME, ZERO_TIME);
    ListByTextAppend(log + [x], y, x.peer, ZERO_TIME, ZERO_TIME);
    ListByTextOrders(log, x.peer, ZERO_TIME, ZERO_TIME);
    assert TextInRange(x, ZERO_TIME, ZERO_TIME) && TextInRange(y, ZERO_TIME, ZERO_TIME);
    hide ListByText, TextLeq, EventLeq, TextInRange;
    InsertAtEnd(b, x);
    InsertAtEnd(b, y);
    InsertBeforeLast(b, x, y);
  }

  lemma InsertBeforeLast(evs: seq<Event>, last: Event, ev: Event)
    requires !TextLeq(last, ev)
    ensures InsertByText(evs + [last], ev) == InsertByText(evs, ev) + [last]
  {
    hide TextLeq;
    assert (evs + [last])[..|evs|] == evs;
  }

  lemma UpdateWins(evs: seq<Event>, x: Event, y: Event, e: Entity, f: Entity)
    requires IsCreation(x, e) && IsUpdate(y, f) && e.id == f.id
    ensures var s := Fold(evs + [x] + [y]); e.id in s && s[e.id].data == f.data
  {
    FoldAppend(evs, x);
    FoldAppend(evs + [x], y);
  }

  lemma CreationWins(evs: seq<Event>, x: Event, y: Event, e: Entity)
    requires IsCreation(x, e)
    ensures var s := Fold(evs + [y] + [x]); e.id in s && s[e.id].data == e.data
  {
    FoldAppend(evs + [y], x);
  }

  /** An entity is created and then updated at clashing times: listed by time the replay ends with the update, listed by
      text with the creation. */
  lemma ClashingUpdateIsLost(log: seq<Event>, x: Event, y: Event, e: Entity, f: Entity)
    requires IsCreation(x, e) && IsUpdate(y, f) && e.id == f.id && x.peer == y.peer
    requires After(log, x.peer, x) && After(log, x.peer, y)
    requires Dateable(x.timestamp) && Dateable(y.timestamp) && x.timestamp < y.timestamp && Clash(x.timestamp, y.timestamp)
    ensures var byTime, byText := Fold(ListEvents(log + [x] + [y], x.peer, ZERO_TIME, ZERO_TIME)),
                                  Fold(ListByText(log + [x] + [y], x.peer, ZERO_TIME, ZERO_TIME));
      e.id in byTime && e.id in byText && byTime[e.id].data == f.data && byText[e.id].data == e.data
  {
    ClashReverses(x, y);
    ListedInOrder(log, x, y);
    ListedInReverse(log, x, y);
    UpdateWins(ListEvents(log, x.peer, ZERO_TIME, ZERO_TIME), x, y, e, f);
    CreationWins(ListByText(log, x.peer, ZERO_TIME, ZERO_TIME), x, y, e);
    hide Fold, ListEvents, ListByText, TextLeq, Dateable, Clash, After;
  }
}
