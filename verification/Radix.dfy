/** Positional notation: big-endian digit strings in any base, and the numbers they denote. */
module Radix {
  predicate Digits(base: nat, ds: seq<nat>) {
    forall i :: 0 <= i < |ds| ==> ds[i] < base
  }

  /** The number a big-endian digit string denotes. */
  function Value(base: nat, ds: seq<nat>): nat {
    if ds == [] then 0 else Value(base, ds[..|ds| - 1]) * base + ds[|ds| - 1]
  }

  /** The digits of a number without leading zeros; zero has none. */
  function Expand(base: nat, n: nat): seq<nat>
    requires base >= 2
  {
    if n == 0 then [] else Expand(base, n / base) + [n % base]
  }

  function Zeros(n: nat): (zs: seq<nat>)
    ensures |zs| == n && forall i :: 0 <= i < n ==> zs[i] == 0
  {
    seq(n, _ => 0)
  }

  function LeadingZeros(ds: seq<nat>): (n: nat)
    ensures n <= |ds|
    ensures forall i :: 0 <= i < n ==> ds[i] == 0
    ensures n < |ds| ==> ds[n] != 0
  {
    if ds == [] || ds[0] != 0 then 0 else 1 + LeadingZeros(ds[1..])
  }

  lemma LeadingZerosUnique(ds: seq<nat>, n: nat)
    requires n <= |ds| && (forall i :: 0 <= i < n ==> ds[i] == 0) && (n < |ds| ==> ds[n] != 0)
    ensures LeadingZeros(ds) == n
  {
    if ds != [] && n > 0 {
      LeadingZerosUnique(ds[1..], n - 1);
    }
  }

  lemma ValueAppend(base: nat, ds: seq<nat>, d: nat)
    ensures Value(base, ds + [d]) == Value(base, ds) * base + d
  {
    assert (ds + [d])[..|ds|] == ds;
  }

  lemma {:induction false} ExpandIsDigits(base: nat, n: nat)
    requires base >= 2
    ensures Digits(base, Expand(base, n)) && (n > 0 ==> Expand(base, n)[0] != 0) && (n == 0 <==> Expand(base, n) == [])
  {
    if n > 0 {
      var q, d := n / base, n % base;
      ExpandNext(base, n, q, d);
      QuotientSmaller(base, n);
      if q == 0 { DivModSum(base, n); }
      assert d < base;
      ExpandIsDigits(base, q);
      hide Expand;
    }
  }

  /** Expanding a number and reading the digits back gives the number. */
  lemma {:induction false} ValueOfExpand(base: nat, n: nat)
    requires base >= 2
    ensures Value(base, Expand(base, n)) == n
  {
    if n > 0 {
      var q, d := n / base, n % base;
      ExpandNext(base, n, q, d);
      DivModSum(base, n);
      QuotientSmaller(base, n);
      ValueOfExpand(base, q);
      ValueAppend(base, Expand(base, q), d);
      hide Expand, Value;
    }
  }

  lemma ExpandNext(base: nat, n: nat, q: nat, d: nat)
    requires base >= 2 && n > 0 && q == n / base && d == n % base
    ensures Expand(base, n) == Expand(base, q) + [d]
  {
  }

  lemma QuotientSmaller(base: nat, n: nat)
    requires base >= 2 && n > 0
    ensures 0 <= n / base < n
  {
  }

  function Stripped(ds: seq<nat>): seq<nat> {
    ds[LeadingZeros(ds)..]
  }

  lemma StrippedAppend(ds: seq<nat>, d: nat)
    ensures Stripped(ds + [d]) == if Stripped(ds) == [] && d == 0 then [] else Stripped(ds) + [d]
  {
    var z, more := LeadingZeros(ds), ds + [d];
    if z < |ds| {
      LeadingZerosUnique(more, z);
    } else {
      LeadingZerosUnique(more, if d == 0 then |ds| + 1 else |ds|);
    }
  }

  lemma ValueStep(base: nat, v: nat, d: nat)
    requires base >= 2 && d < base
    ensures Expand(base, v * base + d) == if v == 0 && d == 0 then [] else Expand(base, v) + [d]
  {
    if v == 0 && d == 0 { assert v * base == 0; }
    if v > 0 { MulStrict(0, v, base); }
    if v * base + d > 0 { DivModUnique(base, v, d); }
  }

  /** Reading digits and expanding the number gives the digits without leading zeros. */
  lemma {:induction false} ExpandOfValue(base: nat, ds: seq<nat>)
    requires base >= 2 && Digits(base, ds)
    ensures Expand(base, Value(base, ds)) == Stripped(ds)
  {
    if ds != [] {
      var init, d := ds[..|ds| - 1], ds[|ds| - 1];
      assert ds == init + [d];
      ExpandOfValue(base, init);
      StrippedAppend(init, d);
      ValueStep(base, Value(base, init), d);
      ExpandIsDigits(base, Value(base, init));
    }
  }

  lemma MulStrict(x: int, y: int, b: int)
    requires x < y && b > 0
    ensures x * b + b <= y * b
  {
    assert (y - x - 1) * b >= 0;
    assert y * b == x * b + b + (y - x - 1) * b;
  }

  lemma DivModSum(base: nat, n: nat)
    requires base > 0
    ensures n == n / base * base + n % base
  {
    assert n == base * (n / base) + n % base;
  }

  /** Division with remainder is unique. */
  lemma DivModUnique(base: nat, q: nat, r: nat)
    requires r < base
    ensures (q * base + r) / base == q && (q * base + r) % base == r
  {
    var n := q * base + r;
    DivModSum(base, n);
    if q < n / base { MulStrict(q, n / base, base); }
    if n / base < q { MulStrict(n / base, q, base); }
  }

  /** Leading zeros do not change the number. */
  lemma {:induction false} ValueOfZeros(base: nat, z: nat, ds: seq<nat>)
    ensures Value(base, Zeros(z) + ds) == Value(base, ds)
  {
    if ds != [] {
      ValueOfZeros(base, z, ds[..|ds| - 1]);
      assert (Zeros(z) + ds)[..z + |ds| - 1] == Zeros(z) + ds[..|ds| - 1];
    } else if z > 0 {
      ValueOfZeros(base, z - 1, []);
      assert (Zeros(z) + ds)[..z - 1] == Zeros(z - 1) + [];
    }
  }

  function Power(base: nat, n: nat): nat {
    if n == 0 then 1 else base * Power(base, n - 1)
  }

  lemma Regroup(x: nat, p: nat, b: nat, y: nat, d: nat)
    ensures (x * p + y) * b + d == x * (b * p) + (y * b + d)
  {
    assert x * p * b == x * (b * p);
  }

  /** Splitting a digit string splits its number. */
  lemma {:induction false} ValueConcat(base: nat, a: seq<nat>, b: seq<nat>)
    ensures Value(base, a + b) == Value(base, a) * Power(base, |b|) + Value(base, b)
  {
    if b == [] {
      assert a + b == a;
    } else {
      var b', d := b[..|b| - 1], b[|b| - 1];
      ValueConcat(base, a, b');
      assert (a + b)[..|a + b| - 1] == a + b';
      Regroup(Value(base, a), Power(base, |b'|), base, Value(base, b'), d);
    }
  }

  lemma {:induction false} ValueBound(base: nat, ds: seq<nat>)
    requires base >= 2 && Digits(base, ds)
    ensures Value(base, ds) < Power(base, |ds|)
  {
    if ds != [] {
      ValueBound(base, ds[..|ds| - 1]);
      MulStrict(Value(base, ds[..|ds| - 1]), Power(base, |ds| - 1), base);
      assert Power(base, |ds| - 1) * base == base * Power(base, |ds| - 1);
    }
  }
}
