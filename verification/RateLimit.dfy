/** The gateway's limiter: one token bucket per authenticated email, with idle buckets reaped by a periodic sweep. */
module RateLimit {
  // Ten minutes, in nanoseconds. A bucket is reaped when it has been idle for longer than this.
  const IDLE := 600_000_000_000

  /** A bucket of `burst` tokens; `refill` units flow in each nanosecond and `unit` units make one token. */
  datatype Config = Config(refill: nat, unit: nat, burst: nat)

  datatype Bucket = Bucket(units: nat, last: nat, lastSeen: nat)

  /** A request by an email, or a turn of the sweeper, which works with the instant stamped on its tick. */
  datatype Action = Request(email: string, at: nat) | Tick(stamp: nat, at: nat)

  predicate ValidConfig(c: Config) {
    c.unit > 0
  }

  function Capacity(c: Config): nat {
    c.burst * c.unit
  }

  function Min(a: int, b: int): int {
    if a <= b then a else b
  }

  function LowerChar(ch: char): char {
    if 'A' <= ch <= 'Z' then ch + 'a' - 'A' else ch
  }

  function Lower(s: string): (r: string)
    ensures |r| == |s|
  {
    seq(|s|, i requires 0 <= i < |s| => LowerChar(s[i]))
  }

  // ---- Letter case ----

  /** The same letter, or a letter A to Z and its small form. */
  predicate SameLetter(a: char, b: char) {
    || a == b
    || ('A' <= a <= 'Z' && b as int == a as int + 32)
    || ('A' <= b <= 'Z' && a as int == b as int + 32)
  }

  /** The same email up to the case of its letters. */
  predicate Variant(a: string, b: string) {
    |a| == |b| && forall i :: 0 <= i < |a| ==> SameLetter(a[i], b[i])
  }

  lemma LowerLetters(a: char, b: char)
    ensures LowerChar(a) == LowerChar(b) <==> SameLetter(a, b)
  {
  }

  /** Emails share a bucket exactly when they are the same up to case. */
  lemma LowerMeans(a: string, b: string)
    ensures Lower(a) == Lower(b) <==> Variant(a, b)
  {
    hide LowerChar, SameLetter;
    forall i | 0 <= i < |a| && i < |b| ensures Lower(a)[i] == Lower(b)[i] <==> SameLetter(a[i], b[i]) { LowerLetters(a[i], b[i]); }
    if |a| == |b| && Variant(a, b) {
      assert forall i :: 0 <= i < |a| ==> Lower(a)[i] == Lower(b)[i];
    }
  }

  // ---- Buckets ----

  function FreshBucket(c: Config): Bucket {
    Bucket(Capacity(c), 0, 0)
  }

  function Elapsed(b: Bucket, now: nat): nat {
    if now < b.last then 0 else now - b.last
  }

  function Available(c: Config, b: Bucket, now: nat): nat {
    Min(Capacity(c), b.units + c.refill * Elapsed(b, now))
  }

  /** Only an accepted request changes what a bucket holds. */
  function Take(c: Config, b: Bucket, now: nat): (r: (Bucket, bool)) {
    var units := Available(c, b, now);
    if units >= c.unit then (Bucket(units - c.unit, if now < b.last then b.last else now, now), true)
    else (b.(lastSeen := now), false)
  }

  function BucketOf(c: Config, m: map<string, Bucket>, key: string): Bucket {
    if key in m then m[key] else FreshBucket(c)
  }

  function Swept(m: map<string, Bucket>, stamp: nat): map<string, Bucket> {
    map key | key in m && !Idle(m[key], stamp) :: m[key]
  }

  predicate Idle(b: Bucket, stamp: nat) {
    stamp - b.lastSeen > IDLE
  }

  /** One action. With `reap` off the sweeper does nothing, which is the limiter that never forgets an email. */
  function Step(c: Config, m: map<string, Bucket>, a: Action, reap: bool): (map<string, Bucket>, bool) {
    match a
    case Request(email, at) =>
      var r := Take(c, BucketOf(c, m, Lower(email)), at);
      (m[Lower(email) := r.0], r.1)
    case Tick(stamp, _) =>
      (if reap then Swept(m, stamp) else m, false)
  }

  /** Which actions of a run are admitted requests. */
  function Decisions(c: Config, m: map<string, Bucket>, run: seq<Action>, reap: bool): (ds: seq<bool>)
    ensures |ds| == |run|
    decreases run
  {
    if run == [] then []
    else
      var r := Step(c, m, run[0], reap);
      [r.1] + Decisions(c, r.0, run[1..], reap)
  }

  /** The clock never goes back, and a tick is handled no earlier than the instant stamped on it. */
  predicate Timed(run: seq<Action>, clock: nat) {
    run == [] ||
    (clock <= run[0].at && (run[0].Tick? ==> run[0].stamp <= run[0].at) && Timed(run[1..], run[0].at))
  }

  /** The buckets that come back full during the shortest idle time after which they are reaped. */
  predicate RefillsWhileIdle(c: Config) {
    c.burst * c.unit <= c.refill * 600_000_000_001
  }

  // ---- Whose requests matter to an email ----

  predicate Matches(a: Action, b: Action) {
    match a
    case Request(email, at) => b.Request? && b.at == at && Variant(email, b.email)
    case Tick(_, _) => b == a
  }

  /** In any run, writing emails in another case changes no decision. */
  lemma {:induction false} CaseIsIgnored(c: Config, m: map<string, Bucket>, run: seq<Action>, other: seq<Action>, reap: bool)
    requires |other| == |run| && forall i :: 0 <= i < |run| ==> Matches(run[i], other[i])
    ensures Decisions(c, m, other, reap) == Decisions(c, m, run, reap)
    decreases run
  {
    if run != [] {
      assert Matches(run[0], other[0]);
      if run[0].Request? { LowerMeans(run[0].email, other[0].email); }
      hide Lower, Take, Swept, Variant;
      CaseIsIgnored(c, Step(c, m, run[0], reap).0, run[1..], other[1..], reap);
    }
  }

  predicate Of(a: Action, email: string) {
    a.Request? && Variant(a.email, email)
  }

  /** A run without the requests of other emails. */
  function Alone(run: seq<Action>, email: string): seq<Action> {
    if run == [] then []
    else (if run[0].Tick? || Of(run[0], email) then [run[0]] else []) + Alone(run[1..], email)
  }

  /** The decisions on the requests of one email, in order. */
  function DecisionsOn(run: seq<Action>, ds: seq<bool>, email: string): seq<bool>
    requires |ds| == |run|
  {
    if run == [] then []
    else (if Of(run[0], email) then [ds[0]] else []) + DecisionsOn(run[1..], ds[1..], email)
  }

  predicate SameAt(a: map<string, Bucket>, b: map<string, Bucket>, key: string) {
    (key in a <==> key in b) && (key in a ==> a[key] == b[key])
  }

  lemma StepAlone(c: Config, a: map<string, Bucket>, b: map<string, Bucket>, act: Action, email: string, reap: bool)
    requires SameAt(a, b, Lower(email))
    ensures var kept := act.Tick? || Of(act, email);
      && (kept ==> Step(c, b, act, reap).1 == Step(c, a, act, reap).1)
      && SameAt(Step(c, a, act, reap).0, if kept then Step(c, b, act, reap).0 else b, Lower(email))
  {
    if act.Request? { LowerMeans(act.email, email); }
    hide Lower, Take, Variant;
  }

  lemma {:induction false} RunAlone(c: Config, a: map<string, Bucket>, b: map<string, Bucket>, run: seq<Action>, email: string, reap: bool)
    requires SameAt(a, b, Lower(email))
    ensures var alone := Alone(run, email);
      DecisionsOn(run, Decisions(c, a, run, reap), email) == DecisionsOn(alone, Decisions(c, b, alone, reap), email)
    decreases run
  {
    hide Step, Lower, Variant;
    if run != [] {
      var kept, r := run[0].Tick? || Of(run[0], email), Step(c, a, run[0], reap);
      StepAlone(c, a, b, run[0], email, reap);
      RunAlone(c, r.0, if kept then Step(c, b, run[0], reap).0 else b, run[1..], email, reap);
      assert Decisions(c, a, run, reap)[1..] == Decisions(c, r.0, run[1..], reap);
      if kept {
        var alone := Alone(run, email);
        assert alone[0] == run[0] && alone[1..] == Alone(run[1..], email);
        assert Decisions(c, b, alone, reap)[1..] == Decisions(c, Step(c, b, run[0], reap).0, alone[1..], reap);
      } else {
        assert Alone(run, email) == Alone(run[1..], email);
      }
    }
  }

  /** In any run, the requests of other emails change no decision on an email's own. */
  lemma OthersDoNotCount(c: Config, m: map<string, Bucket>, run: seq<Action>, email: string, reap: bool)
    ensures var alone := Alone(run, email);
      DecisionsOn(alone, Decisions(c, m, alone, reap), email) == DecisionsOn(run, Decisions(c, m, run, reap), email)
  {
    RunAlone(c, m, m, run, email, reap);
  }

  // ---- Reaping goes unnoticed ----

  predicate Plausible(c: Config, b: Bucket, clock: nat) {
    b.last <= b.lastSeen <= clock && b.units <= Capacity(c) && (c.burst == 0 ==> b.last == 0)
  }

  /** The reaping limiter knows a part of the emails; every other email's bucket would be full by now. */
  predicate Simulates(c: Config, swept: map<string, Bucket>, kept: map<string, Bucket>, clock: nat) {
    && (forall key :: key in swept ==> key in kept && swept[key] == kept[key])
    && (forall key :: key in kept ==> Plausible(c, kept[key], clock))
    && (forall key :: key in kept && key !in swept ==> Available(c, kept[key], clock) == Capacity(c))
  }

  lemma MulMonotone(r: nat, s: nat, t: nat)
    requires s <= t
    ensures r * s <= r * t
  {
    assert r * t == r * s + r * (t - s);
  }

  lemma FullStaysFull(c: Config, b: Bucket, clock: nat, now: nat)
    requires clock <= now && Available(c, b, clock) == Capacity(c)
    ensures Available(c, b, now) == Capacity(c)
  {
    MulMonotone(c.refill, Elapsed(b, clock), Elapsed(b, now));
  }

  lemma IdleIsFull(c: Config, b: Bucket, stamp: nat, now: nat)
    requires RefillsWhileIdle(c) && Plausible(c, b, now) && Idle(b, stamp) && stamp <= now
    ensures Available(c, b, now) == Capacity(c)
  {
    MulMonotone(c.refill, IDLE + 1, Elapsed(b, now));
  }

  lemma TakeFull(c: Config, b: Bucket, now: nat)
    requires ValidConfig(c) && Plausible(c, b, now) && Available(c, b, now) == Capacity(c)
    ensures Take(c, b, now) == Take(c, FreshBucket(c), now)
  {
    MulMonotone(c.refill, 0, now);
    if c.burst > 0 {
      MulMonotone(c.unit, 1, c.burst);
    } else {
      assert Capacity(c) == 0;
    }
  }

  lemma TakePlausible(c: Config, b: Bucket, clock: nat, now: nat)
    requires ValidConfig(c) && Plausible(c, b, clock) && clock <= now
    ensures Plausible(c, Take(c, b, now).0, now)
  {
    if c.burst == 0 { assert Capacity(c) == 0; }
  }

  lemma StepSimulates(c: Config, swept: map<string, Bucket>, kept: map<string, Bucket>, clock: nat, a: Action)
    requires ValidConfig(c) && RefillsWhileIdle(c) && Simulates(c, swept, kept, clock) && Timed([a], clock)
    ensures Step(c, swept, a, true).1 == Step(c, kept, a, false).1
    ensures Simulates(c, Step(c, swept, a, true).0, Step(c, kept, a, false).0, a.at)
  {
    hide Available, Take, RefillsWhileIdle;
    forall key | key in kept && key !in swept ensures Available(c, kept[key], a.at) == Capacity(c) {
      FullStaysFull(c, kept[key], clock, a.at);
    }
    match a {
      case Request(email, at) =>
        var key := Lower(email);
        TakePlausible(c, BucketOf(c, kept, key), clock, at);
        if key in kept && key !in swept {
          TakeFull(c, kept[key], at);
        }
      case Tick(stamp, at) =>
        forall key | key in kept && key in swept && Idle(kept[key], stamp)
          ensures Available(c, kept[key], at) == Capacity(c)
        {
          IdleIsFull(c, kept[key], stamp, at);
        }
    }
  }

  lemma {:induction false} RunSimulates(c: Config, swept: map<string, Bucket>, kept: map<string, Bucket>, clock: nat,
                                        run: seq<Action>)
    requires ValidConfig(c) && RefillsWhileIdle(c) && Simulates(c, swept, kept, clock) && Timed(run, clock)
    ensures Decisions(c, swept, run, true) == Decisions(c, kept, run, false)
    decreases run
  {
    if run != [] {
      StepSimulates(c, swept, kept, clock, run[0]);
      RunSimulates(c, Step(c, swept, run[0], true).0, Step(c, kept, run[0], false).0, run[0].at, run[1..]);
    }
  }

  // ---- How much is admitted ----

  /** Admitted requests of one email, whatever its letter case. */
  function Admitted(run: seq<Action>, ds: seq<bool>, email: string): (n: nat)
    requires |ds| == |run|
  {
    if run == [] then 0 else Admitted(run[..|run| - 1], ds[..|run| - 1], email) + Counted(run[|run| - 1], ds[|run| - 1], email)
  }

  function Counted(a: Action, admitted: bool, email: string): nat {
    if admitted && a.Request? && Variant(a.email, email) then 1 else 0
  }

  function Last(run: seq<Action>): (t: nat) {
    if run == [] then 0 else run[|run| - 1].at
  }

  /** The buckets after a run in which none is reaped. */
  function After(c: Config, run: seq<Action>): map<string, Bucket> {
    if run == [] then map[] else Step(c, After(c, run[..|run| - 1]), run[|run| - 1], false).0
  }

  predicate AllPlausible(c: Config, m: map<string, Bucket>, clock: nat) {
    forall key :: key in m ==> Plausible(c, m[key], clock)
  }

  /** What an email may spend at once. */
  function Credit(c: Config, m: map<string, Bucket>, email: string, now: nat): nat {
    Available(c, BucketOf(c, m, Lower(email)), now)
  }

  lemma {:induction false} TimedInit(run: seq<Action>, clock: nat)
    requires Timed(run, clock) && run != []
    ensures var init, a := run[..|run| - 1], run[|run| - 1];
      Timed(init, clock) && Last(init) <= a.at && clock <= a.at && (a.Tick? ==> a.stamp <= a.at)
  {
    if |run| > 1 {
      TimedInit(run[1..], run[0].at);
      assert run[1..][..|run| - 2] == run[..|run| - 1][1..];
    }
  }

  lemma {:induction false} DecisionsInit(c: Config, m: map<string, Bucket>, run: seq<Action>, reap: bool)
    requires run != []
    ensures Decisions(c, m, run[..|run| - 1], reap) == Decisions(c, m, run, reap)[..|run| - 1]
    decreases run
  {
    hide Step;
    if |run| > 1 {
      DecisionsInit(c, Step(c, m, run[0], reap).0, run[1..], reap);
      assert run[1..][..|run| - 2] == run[..|run| - 1][1..];
    }
  }

  /** The last action of a run decides on the buckets that those before it leave. */
  lemma {:induction false} LastDecision(c: Config, m: map<string, Bucket>, rest: seq<Action>, done: seq<Action>)
    requires rest != [] && m == After(c, done)
    ensures Decisions(c, m, rest, false)[|rest| - 1] == Step(c, After(c, done + rest[..|rest| - 1]), rest[|rest| - 1], false).1
    decreases rest
  {
    hide Step;
    if |rest| == 1 {
      assert done + rest[..0] == done;
    } else {
      var more := done + [rest[0]];
      assert more[..|done|] == done;
      LastDecision(c, Step(c, m, rest[0], false).0, rest[1..], more);
      assert more + rest[1..][..|rest| - 2] == done + rest[..|rest| - 1];
    }
  }

  lemma CreditFlows(c: Config, b: Bucket, clock: nat, now: nat)
    requires clock <= now && b.last <= clock
    ensures Available(c, b, now) == Min(Capacity(c), Available(c, b, clock) + c.refill * (now - clock))
  {
    assert c.refill * Elapsed(b, now) == c.refill * Elapsed(b, clock) + c.refill * (now - clock);
    MulMonotone(c.refill, 0, now - clock);
  }

  /** A request is admitted when a token is left, and only an admitted one of its own costs an email a token. */
  lemma StepCredit(c: Config, m: map<string, Bucket>, clock: nat, a: Action, email: string, now: nat)
    requires ValidConfig(c) && AllPlausible(c, m, clock) && clock <= a.at <= now
    ensures var r := Step(c, m, a, false);
      && AllPlausible(c, r.0, a.at)
      && Credit(c, r.0, email, now)
         == Min(Capacity(c), Credit(c, m, email, a.at) - c.unit * Counted(a, r.1, email) + c.refill * (now - a.at))
      && (a.Request? && Variant(a.email, email) ==> (r.1 <==> Credit(c, m, email, a.at) >= c.unit))
  {
    var key, r := Lower(email), Step(c, m, a, false);
    if a.Request? {
      LowerMeans(a.email, email);
      TakePlausible(c, BucketOf(c, m, Lower(a.email)), clock, a.at);
    }
    CreditFlows(c, BucketOf(c, r.0, key), a.at, now);
    hide Lower, Variant;
    assert c.refill * 0 == 0;
  }

  /** What an email could have spent since action `i`, less what it has. */
  function Balance(c: Config, run: seq<Action>, ds: seq<bool>, email: string, i: nat, now: nat): int
    requires |ds| == |run| && i < |run|
  {
    c.burst * c.unit + c.refill * (now - run[i].at) - c.unit * Admitted(run[i..], ds[i..], email)
  }

  lemma BalanceStep(c: Config, run: seq<Action>, ds: seq<bool>, email: string, i: nat, now: nat)
    requires |ds| == |run| && i < |run|
    ensures var n := |run| - 1;
      Balance(c, run, ds, email, i, now) == c.refill * (now - run[n].at) - c.unit * Counted(run[n], ds[n], email)
        + if i < n then Balance(c, run[..n], ds[..n], email, i, run[n].at) else c.burst * c.unit
  {
    var n := |run| - 1;
    var window, dw := run[i..], ds[i..];
    assert window[..|window| - 1] == run[..n][i..] && dw[..|dw| - 1] == ds[..n][i..];
    var here, there := Counted(run[n], ds[n], email), Admitted(run[..n][i..], ds[..n][i..], email);
    assert i == n ==> there == 0 by { if i == n { assert run[..n][i..] == []; } }
    assert c.unit * (there + here) == c.unit * there + c.unit * here;
    assert c.refill * (now - run[i].at) == c.refill * (now - run[n].at) + c.refill * (run[n].at - run[i].at);
  }

  /** Without reaping, an email's credit is the least of its burst and all its balances. */
  ghost predicate LeastBalance(c: Config, run: seq<Action>, ds: seq<bool>, email: string, now: nat, credit: int)
    requires |ds| == |run|
  {
    && credit <= c.burst * c.unit
    && (forall i :: 0 <= i < |run| ==> credit <= Balance(c, run, ds, email, i, now))
    && (credit == c.burst * c.unit || exists i :: 0 <= i < |run| && credit == Balance(c, run, ds, email, i, now))
  }

  lemma {:induction false} CreditIsLeast(c: Config, run: seq<Action>, email: string, now: nat)
    requires ValidConfig(c) && Timed(run, 0) && Last(run) <= now
    ensures AllPlausible(c, After(c, run), Last(run))
    ensures LeastBalance(c, run, Decisions(c, map[], run, false), email, now, Credit(c, After(c, run), email, now))
    decreases |run|
  {
    hide Step, Available, Plausible, Lower, Variant, Balance;
    if run == [] {
      FullAtFirst(c, email, now);
    } else {
      var n, ds := |run| - 1, Decisions(c, map[], run, false);
      var a, init := run[n], run[..n];
      TimedInit(run, 0);
      CreditIsLeast(c, init, email, a.at);
      DecisionsInit(c, map[], run, false);
      LastDecision(c, map[], run, []);
      assert [] + init == init;
      StepCredit(c, After(c, init), Last(init), a, email, now);
      hide Decisions, Last, After, Credit, Timed, AllPlausible, Counted;
      LeastStep(c, run, ds, email, now, Credit(c, After(c, init), email, a.at), Credit(c, After(c, run), email, now));
    }
  }

  lemma LeastStep(c: Config, run: seq<Action>, ds: seq<bool>, email: string, now: nat, before: int, credit: int)
    requires run != [] && |ds| == |run|
    requires LeastBalance(c, run[..|run| - 1], ds[..|run| - 1], email, run[|run| - 1].at, before)
    requires run[|run| - 1].at <= now
    requires credit == Min(c.burst * c.unit, before - c.unit * Counted(run[|run| - 1], ds[|run| - 1], email) + c.refill * (now - run[|run| - 1].at))
    ensures LeastBalance(c, run, ds, email, now, credit)
  {
    hide Balance, Counted;
    var n := |run| - 1;
    forall i | 0 <= i < |run|
      ensures Balance(c, run, ds, email, i, now) == c.refill * (now - run[n].at) - c.unit * Counted(run[n], ds[n], email)
        + if i < n then Balance(c, run[..n], ds[..n], email, i, run[n].at) else c.burst * c.unit
    {
      BalanceStep(c, run, ds, email, i, now);
    }
    if before == c.burst * c.unit {
      assert credit == c.burst * c.unit || credit == Balance(c, run, ds, email, n, now);
    } else {
      var i :| 0 <= i < n && before == Balance(c, run[..n], ds[..n], email, i, run[n].at);
      assert credit == c.burst * c.unit || credit == Balance(c, run, ds, email, i, now);
    }
  }

  /** In any window of any run, sweeps included, an email is admitted at most a burst and what flows in meanwhile. */
  lemma AdmissionBound(c: Config, run: seq<Action>, i: nat, email: string)
    requires ValidConfig(c) && RefillsWhileIdle(c) && Timed(run, 0) && i < |run|
    ensures c.unit * Admitted(run[i..], Decisions(c, map[], run, true)[i..], email)
      <= c.burst * c.unit + c.refill * (run[|run| - 1].at - run[i].at)
  {
    hide Step, Available, RefillsWhileIdle, Credit, Admitted, Timed;
    RunSimulates(c, map[], map[], 0, run);
    CreditIsLeast(c, run, email, Last(run));
    assert Balance(c, run, Decisions(c, map[], run, false), email, i, Last(run)) >= 0;
  }

  /** One more admission keeps the bound for the window since action `i`. */
  predicate OneMoreFits(c: Config, run: seq<Action>, ds: seq<bool>, email: string, i: nat, at: nat)
    requires |ds| >= |run| && i < |run|
  {
    c.unit * (Admitted(run[i..], ds[i..|run|], email) + 1) <= c.burst * c.unit + c.refill * (at - run[i].at)
  }

  /** And exactly that: with sweeps, a request is refused if and only if there is no burst at all, or one more admission
      would break the bound for the window since some earlier action. */
  lemma AdmittedExactly(c: Config, before: seq<Action>, email: string, at: nat)
    requires ValidConfig(c) && RefillsWhileIdle(c) && Timed(before + [Request(email, at)], 0)
    ensures var ds := Decisions(c, map[], before + [Request(email, at)], true);
      ds[|before|] <==> c.burst > 0 && forall i :: 0 <= i < |before| ==> OneMoreFits(c, before, ds, email, i, at)
  {
    hide Decisions, RefillsWhileIdle, Timed, LeastBalance, Credit, After, OneMoreFits;
    var run := before + [Request(email, at)];
    RunSimulates(c, map[], map[], 0, run);
    DecidedByCredit(c, before, email, at);
    FitsByCredit(c, before, Decisions(c, map[], run, false), email, at, Credit(c, After(c, before), email, at));
  }

  lemma DecidedByCredit(c: Config, before: seq<Action>, email: string, at: nat)
    requires ValidConfig(c) && Timed(before + [Request(email, at)], 0)
    ensures var ds, credit := Decisions(c, map[], before + [Request(email, at)], false), Credit(c, After(c, before), email, at);
      (ds[|before|] <==> credit >= c.unit) && LeastBalance(c, before, ds[..|before|], email, at, credit)
  {
    hide Step, Available, Credit, Timed, LeastBalance, Lower, Variant;
    var run, n := before + [Request(email, at)], |before|;
    TimedInit(run, 0);
    assert run[..n] == before && [] + before == before;
    CreditIsLeast(c, before, email, at);
    DecisionsInit(c, map[], run, false);
    LastDecision(c, map[], run, []);
    SameEmail(email);
    StepCredit(c, After(c, before), Last(before), run[n], email, at);
  }

  lemma FitsByCredit(c: Config, run: seq<Action>, ds: seq<bool>, email: string, at: nat, credit: int)
    requires ValidConfig(c) && |ds| >= |run| && LeastBalance(c, run, ds[..|run|], email, at, credit)
    ensures credit >= c.unit <==> c.burst > 0 && forall i :: 0 <= i < |run| ==> OneMoreFits(c, run, ds, email, i, at)
  {
    hide Balance, OneMoreFits;
    forall i | 0 <= i < |run| ensures OneMoreFits(c, run, ds, email, i, at) <==> Balance(c, run, ds[..|run|], email, i, at) >= c.unit {
      FitsMeans(c, run, ds, email, i, at);
    }
    BurstOrNone(c);
  }

  lemma FitsMeans(c: Config, run: seq<Action>, ds: seq<bool>, email: string, i: nat, at: nat)
    requires |ds| >= |run| && i < |run|
    ensures OneMoreFits(c, run, ds, email, i, at) <==> Balance(c, run, ds[..|run|], email, i, at) >= c.unit
  {
    assert ds[..|run|][i..] == ds[i..|run|];
    var n := Admitted(run[i..], ds[i..|run|], email);
    assert c.unit * (n + 1) == c.unit * n + c.unit;
  }

  lemma SameEmail(email: string)
    ensures Variant(email, email)
  {
  }

  lemma BurstOrNone(c: Config)
    requires ValidConfig(c)
    ensures c.burst * c.unit >= c.unit <==> c.burst > 0
  {
    if c.burst > 0 { MulMonotone(c.unit, 1, c.burst); } else { assert c.burst * c.unit == 0; }
  }

  // ---- And is noticed otherwise ----

  function Volley(email: string, n: nat, at: nat): seq<Action> {
    if n == 0 then [] else [Request(email, at)] + Volley(email, n - 1, at)
  }

  /** A burst at once, the sweeper's turn as soon as it may reap the bucket, and another burst. */
  function Comeback(c: Config, email: string): seq<Action> {
    Volley(email, c.burst, 0) + ([Tick(600_000_000_001, 600_000_000_001)] + Volley(email, c.burst, 600_000_000_001))
  }

  lemma {:induction false} VolleyTimed(email: string, n: nat, at: nat, clock: nat, rest: seq<Action>)
    requires clock <= at && Timed(rest, at)
    ensures Timed(Volley(email, n, at) + rest, clock)
  {
    if n == 0 {
      assert Volley(email, n, at) + rest == rest;
    } else {
      assert (Volley(email, n, at) + rest)[1..] == Volley(email, n - 1, at) + rest;
      VolleyTimed(email, n - 1, at, at, rest);
    }
  }

  lemma {:induction false} VolleyAt(email: string, n: nat, at: nat)
    ensures |Volley(email, n, at)| == n && forall i :: 0 <= i < n ==> Volley(email, n, at)[i].at == at
  {
    if n > 0 { VolleyAt(email, n - 1, at); }
  }

  lemma {:induction false} AdmittedFirst(run: seq<Action>, ds: seq<bool>, email: string)
    requires |ds| == |run| > 0
    ensures Admitted(run, ds, email) == Counted(run[0], ds[0], email) + Admitted(run[1..], ds[1..], email)
  {
    hide Counted;
    if |run| > 1 {
      var n := |run| - 1;
      AdmittedFirst(run[..n], ds[..n], email);
      assert run[..n][1..] == run[1..][..n - 1] && ds[..n][1..] == ds[1..][..n - 1];
    } else {
      assert run[..0] == [] && run[1..] == [];
    }
  }

  lemma TokenTaken(c: Config, m: map<string, Bucket>, email: string, n: nat, at: nat)
    requires ValidConfig(c) && n > 0 && Credit(c, m, email, at) == n * c.unit
    requires Lower(email) in m ==> m[Lower(email)].last <= at
    ensures var r := Step(c, m, Request(email, at), true);
            && r == (m[Lower(email) := Bucket((n - 1) * c.unit, at, at)], true)
            && Credit(c, r.0, email, at) == (n - 1) * c.unit
  {
    assert n * c.unit == (n - 1) * c.unit + c.unit;
    MulMonotone(c.unit, 0, n - 1);
    assert c.refill * 0 == 0;
  }

  /** A bucket holding n tokens admits n requests at one instant and is then empty. */
  lemma {:induction false} VolleyAdmitted(c: Config, m: map<string, Bucket>, email: string, n: nat, at: nat,
                                          rest: seq<Action>)
    requires ValidConfig(c) && n > 0 && Credit(c, m, email, at) == n * c.unit
    requires Lower(email) in m ==> m[Lower(email)].last <= at
    ensures var m' := m[Lower(email) := Bucket(0, at, at)];
            Admitted(Volley(email, n, at) + rest, Decisions(c, m, Volley(email, n, at) + rest, true), email)
            == n + Admitted(rest, Decisions(c, m', rest, true), email)
    decreases n
  {
    hide Step, Available, Take, Credit, Lower, Admitted;
    var key, run := Lower(email), Volley(email, n, at) + rest;
    var r := Step(c, m, run[0], true);
    assert run[0] == Request(email, at) && run[1..] == Volley(email, n - 1, at) + rest;
    TokenTaken(c, m, email, n, at);
    SameEmail(email);
    AdmittedFirst(run, Decisions(c, m, run, true), email);
    assert Decisions(c, m, run, true)[1..] == Decisions(c, r.0, run[1..], true);
    if n == 1 {
      assert run[1..] == rest;
    } else {
      VolleyAdmitted(c, r.0, email, n - 1, at, rest);
      assert r.0[key := Bucket(0, at, at)] == m[key := Bucket(0, at, at)];
    }
  }

  lemma FullAtFirst(c: Config, email: string, at: nat)
    ensures Credit(c, map[], email, at) == Capacity(c)
  {
    MulMonotone(c.refill, 0, at);
  }

  /** A burst, ten idle minutes, and another burst: the reaping limiter admits both bursts in full. */
  lemma ComebackAdmitted(c: Config, email: string)
    requires ValidConfig(c) && c.burst > 0
    ensures var run := Comeback(c, email);
      && Timed(run, 0) && run != [] && run[0].at == 0 && run[|run| - 1].at == 600_000_000_001
      && Admitted(run, Decisions(c, map[], run, true), email) == 2 * c.burst
  {
    hide Available, Take, Decisions, Admitted;
    var at := 600_000_000_001;
    var key, back := Lower(email), Volley(email, c.burst, at);
    var later := [Tick(at, at)] + back;
    assert back + [] == back;
    VolleyTimed(email, c.burst, at, at, []);
    assert later[1..] == back;
    VolleyTimed(email, c.burst, 0, 0, later);
    VolleyAt(email, c.burst, 0);
    VolleyAt(email, c.burst, at);
    FullAtFirst(c, email, 0);
    FullAtFirst(c, email, at);
    VolleyAdmitted(c, map[], email, c.burst, 0, later);
    VolleyAdmitted(c, map[], email, c.burst, at, []);
    TickForgets(c, key, email, later);
    NoneAdmitted(c, map[key := Bucket(0, at, at)], email);
  }

  lemma NoneAdmitted(c: Config, m: map<string, Bucket>, email: string)
    ensures Admitted([], Decisions(c, m, [], true), email) == 0
  {
  }

  lemma TickForgets(c: Config, key: string, email: string, later: seq<Action>)
    requires later != [] && later[0] == Tick(600_000_000_001, 600_000_000_001)
    ensures Admitted(later, Decisions(c, map[key := Bucket(0, 0, 0)], later, true), email)
         == Admitted(later[1..], Decisions(c, map[], later[1..], true), email)
  {
    var m: map<string, Bucket> := map[key := Bucket(0, 0, 0)];
    assert Swept(m, 600_000_000_001) == map[];
    assert Decisions(c, m, later, true)[1..] == Decisions(c, map[], later[1..], true);
    AdmittedFirst(later, Decisions(c, m, later, true), email);
  }

  /** Reaping is invisible in every run exactly when an idle bucket refills before it can be reaped. */
  lemma ReapingIsInvisible(c: Config)
    requires ValidConfig(c)
    ensures (forall run :: Timed(run, 0) ==> Decisions(c, map[], run, true) == Decisions(c, map[], run, false))
       <==> c.burst * c.unit <= c.refill * 600_000_000_001
  {
    hide Step, Available, Take, Decisions, Admitted;
    if RefillsWhileIdle(c) {
      forall run | Timed(run, 0) ensures Decisions(c, map[], run, true) == Decisions(c, map[], run, false) {
        RunSimulates(c, map[], map[], 0, run);
      }
    } else {
      assert c.burst > 0 by { assert c.burst == 0 ==> Capacity(c) == 0; MulMonotone(c.refill, 0, 600_000_000_001); }
      var run := Comeback(c, "");
      ComebackAdmitted(c, "");
      CreditIsLeast(c, run, "", Last(run));
      var ds := Decisions(c, map[], run, false);
      assert run[0..] == run && ds[0..] == ds;
      assert Balance(c, run, ds, "", 0, Last(run)) >= 0;
      assert c.unit * (2 * c.burst) == c.burst * c.unit + c.burst * c.unit;
      assert Decisions(c, map[], run, true) != ds;
    }
  }

  /** Ten requests a minute with bursts of thirty, the gateway's defaults: a unit is the flow of one nanosecond at one a minute. */
  lemma DefaultsQualify()
    ensures RefillsWhileIdle(Config(10, 60_000_000_000, 30))
  {
  }

  // ---- The limiter itself ----

  class PerEmailLimiter {
    const config: Config
    var buckets: map<string, Bucket>

    constructor (config: Config)
      ensures this.config == config && buckets == map[]
    {
      this.config := config;
      buckets := map[];
    }

    /** The request is stamped on the bucket before it is judged, so a refused request keeps the bucket alive too. */
    method Allow(email: string, now: nat) returns (ok: bool)
      modifies this`buckets
      ensures (buckets, ok) == Step(config, old(buckets), Request(email, now), true)
      ensures Lower(email) in buckets && buckets[Lower(email)].lastSeen == now
      ensures forall key :: key in buckets || key in old(buckets) ==>
        key == Lower(email) || (key in buckets && key in old(buckets) && buckets[key] == old(buckets)[key])
    {
      var key := Lower(email);
      if key !in buckets {
        buckets := buckets[key := FreshBucket(config)];
      }
      buckets := buckets[key := buckets[key].(lastSeen := now)];
      var b := buckets[key];
      assert Available(config, b, now) == Available(config, BucketOf(config, old(buckets), key), now);
      assert buckets == old(buckets)[key := BucketOf(config, old(buckets), key).(lastSeen := now)];
      var units := Available(config, b, now);
      ok := units >= config.unit;
      if ok {
        buckets := buckets[key := Bucket(units - config.unit, if now < b.last then b.last else now, now)];
      }
      assert buckets == old(buckets)[key := Take(config, BucketOf(config, old(buckets), key), now).0];
    }

    method Sweep(stamp: nat)
      modifies this`buckets
      ensures buckets == Swept(old(buckets), stamp)
      ensures buckets == map key | key in old(buckets) && stamp - old(buckets)[key].lastSeen <= 600_000_000_000 :: old(buckets)[key]
    {
      var all, keys := buckets, buckets.Keys;
      while keys != {}
        invariant keys <= all.Keys
        invariant buckets == map key | key in all && (key in keys || !Idle(all[key], stamp)) :: all[key]
        decreases |keys|
      {
        var k :| k in keys;
        if stamp - buckets[k].lastSeen > IDLE {
          buckets := buckets - {k};
        }
        keys := keys - {k};
      }
    }
  }
}
