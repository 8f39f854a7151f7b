/** Decimal file names: which names are canonical, and what they stand for. */
module Decimals {
  predicate AllDigits(s: string) {
    s != [] && forall i :: 0 <= i < |s| ==> '0' <= s[i] <= '9'
  }

  function Digit(d: nat): char
    requires d < 10
  {
    '0' + d as char
  }

  /** `str(n)`. */
  function Decimal(n: nat): (s: string) {
    if n < 10 then [Digit(n)] else Decimal(n / 10) + [Digit(n % 10)]
  }

  /** `int(s)`. */
  function Number(s: string): nat
    requires forall i :: 0 <= i < |s| ==> '0' <= s[i] <= '9'
  {
    if s == [] then 0
    else Number(s[..|s| - 1]) * 10 + (s[|s| - 1] as int - '0' as int)
  }

  lemma {:induction false} DecimalRoundTrip(n: nat)
    ensures AllDigits(Decimal(n)) && Number(Decimal(n)) == n
  {
    if n < 10 {
      assert Decimal(n)[..0] == [];
    } else {
      DecimalRoundTrip(n / 10);
      assert Decimal(n)[..|Decimal(n)| - 1] == Decimal(n / 10);
    }
  }

  /** Decimal notation: the digits, and what one more digit makes of a number. */
  lemma DecimalNotation(n: nat, d: nat)
    requires d < 10
    ensures Decimal(d) == ["0123456789"[d]]
    ensures n > 0 ==> Decimal(10 * n + d) == Decimal(n) + ["0123456789"[d]]
  {
    assert n > 0 ==> (10 * n + d) / 10 == n && (10 * n + d) % 10 == d;
  }

  /** A name the program takes for an epoch: digits, and spelled as `str` spells it. */
  predicate Canonical(s: string) {
    AllDigits(s) && Decimal(Number(s)) == s
  }

  /** Different numbers have different names. */
  lemma DecimalInjective(m: nat, n: nat)
    requires Decimal(m) == Decimal(n)
    ensures m == n
  {
    DecimalRoundTrip(m);
    DecimalRoundTrip(n);
  }

  /** The epoch a canonical name stands for. */
  function EpochOf(s: string): nat
    requires Canonical(s)
  {
    Number(s)
  }

  lemma NameOfEpoch(s: string)
    requires Canonical(s)
    ensures Decimal(EpochOf(s)) == s
  {
  }

  lemma CanonicalIffDecimal(s: string)
    ensures Canonical(s) <==> exists n: nat :: s == Decimal(n)
  {
    if n: nat :| s == Decimal(n) {
      DecimalRoundTrip(n);
    }
  }

  // ---------------------------------------------------------------------
  // Sorted lists of epochs
  // ---------------------------------------------------------------------

  predicate Increasing(s: seq<nat>) {
    forall i, j :: 0 <= i < j < |s| ==> s[i] < s[j]
  }

  /** Insertion into an increasing list. */
  function Insert(s: seq<nat>, x: nat): (r: seq<nat>)
    requires Increasing(s) && x !in s
    ensures Increasing(r) && |r| == |s| + 1
    ensures forall y :: y in r <==> y == x || y in s
  {
    if s == [] || x < s[0] then [x] + s
    else
      var rest := Insert(s[1..], x);
      assert forall y :: y in s <==> y == s[0] || y in s[1..];
      assert forall i :: 0 <= i < |rest| ==> rest[i] in rest;
      assert forall i :: 0 < i < |s| ==> s[i] == s[1..][i - 1];
      [s[0]] + rest
  }

  predicate Distinct(s: seq<nat>) {
    forall i, j :: 0 <= i < j < |s| ==> s[i] != s[j]
  }

  lemma NoneTwice()
    ensures Distinct([])
  {
  }

  lemma DistinctMore(s: seq<nat>, x: nat)
    requires Distinct(s) && x !in s
    ensures Distinct(s + [x])
  {
  }

  /** `sort`, on a list without repetitions. */
  function Sorted(s: seq<nat>): (r: seq<nat>)
    requires Distinct(s)
    ensures Increasing(r) && |r| == |s| && forall x :: x in r <==> x in s
  {
    if s == [] then [] else Insert(Sorted(s[1..]), s[0])
  }

  /** `[0, 1, ..., n - 1]` in order. */
  predicate CountsUp(s: seq<nat>) {
    forall i :: 0 <= i < |s| ==> s[i] == i
  }

  lemma {:induction false} IncreasingAtLeast(s: seq<nat>, i: nat)
    requires Increasing(s) && i < |s|
    ensures i <= s[i]
  {
    if i > 0 {
      IncreasingAtLeast(s, i - 1);
    }
  }

  lemma {:induction false} CountsTo(s: seq<nat>, n: nat, k: nat)
    requires Increasing(s) && k <= n && forall x: nat :: x < n ==> x in s
    ensures k <= |s| && forall i :: 0 <= i < k ==> s[i] == i
  {
    if k > 0 {
      CountsTo(s, n, k - 1);
      var x: nat := k - 1;
      assert x in s;
      var j :| 0 <= j < |s| && s[j] == k - 1;
      IncreasingAtLeast(s, j);
    }
  }

  /** An increasing list counts from zero exactly when it holds an initial segment. */
  lemma CountsUpIff(s: seq<nat>, n: nat)
    requires Increasing(s)
    ensures CountsUp(s) && |s| == n <==> forall x: nat :: x in s <==> x < n
  {
    if forall x: nat :: x in s <==> x < n {
      CountsTo(s, n, n);
      if s != [] {
        IncreasingAtLeast(s, |s| - 1);
        assert s[|s| - 1] in s;
      }
    }
    if CountsUp(s) && |s| == n {
      forall x: nat
        ensures x in s <==> x < n
      {
        if x < n {
          assert s[x] == x;
        }
      }
    }
  }
}
