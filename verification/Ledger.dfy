/** Bookkeeping shared by the jobs' theorems: resources that are taken and given back once, counts,
    and progress values. */
module Ledger {
  datatype Resource = Idle | Held | Released

  ghost function Count<T>(log: seq<T>, p: T -> bool): nat {
    if log == [] then 0 else Count(log[..|log| - 1], p) + (if p(log[|log| - 1]) then 1 else 0)
  }

  lemma {:induction false} CountAppend<T>(a: seq<T>, b: seq<T>, p: T -> bool)
    ensures Count(a + b, p) == Count(a, p) + Count(b, p)
    decreases |b|
  {
    if b == [] {
      assert a + b == a;
    } else {
      assert (a + b)[..|a + b| - 1] == a + b[..|b| - 1];
      CountAppend(a, b[..|b| - 1], p);
    }
  }

  lemma CountSingle<T>(e: T, p: T -> bool)
    ensures Count([e], p) == One(p(e))
  {
  }

  lemma {:induction false} CountNone<T>(log: seq<T>, p: T -> bool)
    requires forall i | 0 <= i < |log| :: !p(log[i])
    ensures Count(log, p) == 0
    decreases |log|
  {
    if log != [] { CountNone(log[..|log| - 1], p); }
  }

  function One(b: bool): nat { if b then 1 else 0 }

  /** All progress values lie in lo..hi and never fall; `percent` is negative for other events. */
  ghost predicate Rising<T>(es: seq<T>, percent: T -> int, lo: nat, hi: nat) {
    && (forall i | 0 <= i < |es| && percent(es[i]) >= 0 :: lo <= percent(es[i]) <= hi)
    && forall i, j | 0 <= i < j < |es| && percent(es[i]) >= 0 && percent(es[j]) >= 0 :: percent(es[i]) <= percent(es[j])
  }

  lemma RisingAppend<T>(a: seq<T>, b: seq<T>, percent: T -> int, lo: nat, mid: nat, hi: nat)
    requires Rising(a, percent, lo, mid) && Rising(b, percent, mid, hi) && lo <= mid <= hi
    ensures Rising(a + b, percent, lo, hi)
  {
  }

  lemma RisingNone<T>(percent: T -> int, p: nat)
    ensures Rising([], percent, p, p)
  {
  }

  lemma RisingOne<T>(e: T, percent: T -> int, lo: nat, hi: nat)
    requires percent(e) >= 0 ==> lo <= percent(e) <= hi
    ensures Rising([e], percent, lo, hi)
  {
  }

  /** A stretch that only reports `hi`, or nothing. */
  lemma RisingEnd<T>(es: seq<T>, percent: T -> int, lo: nat, hi: nat)
    requires lo <= hi && forall i | 0 <= i < |es| && percent(es[i]) >= 0 :: percent(es[i]) == hi
    ensures Rising(es, percent, lo, hi)
  {
  }

  lemma DivMonotone(x: nat, y: nat, d: nat)
    requires x <= y && 0 < d
    ensures x / d <= y / d
  {
    var p, q := x / d, y / d;
    assert d * p <= x && y < d * q + d;
    assert d * p < d * (q + 1);
  }
}
