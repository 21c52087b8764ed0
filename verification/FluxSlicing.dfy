/** Cutting a captured flux stream into revolutions at the index pulses. */
module FluxSlicing {
  type uint32 = x: int | 0 <= x < 0x1_0000_0000

  /** Time of the first `p` transitions. */
  function PrefixSum(ts: seq<uint32>, p: nat): nat
    requires p <= |ts|
  {
    if p == 0 then 0 else PrefixSum(ts, p - 1) + ts[p - 1]
  }

  lemma {:induction false} PrefixSumMonotone(ts: seq<uint32>, p: nat, q: nat)
    requires p <= q <= |ts|
    ensures PrefixSum(ts, p) <= PrefixSum(ts, q)
    decreases q
  {
    if p < q {
      PrefixSumMonotone(ts, p, q - 1);
    }
  }

  /** The least position from `p` on whose prefix sum reaches `target`, or the end of the flux. */
  function BoundaryFrom(ts: seq<uint32>, p: nat, target: nat): (b: nat)
    requires p <= |ts|
    ensures p <= b <= |ts|
    ensures b < |ts| ==> PrefixSum(ts, b) >= target
    ensures forall k | p <= k < b :: PrefixSum(ts, k) < target
    decreases |ts| - p
  {
    if p == |ts| || PrefixSum(ts, p) >= target then p else BoundaryFrom(ts, p + 1, target)
  }

  function Boundary(ts: seq<uint32>, target: nat): (b: nat)
    ensures b <= |ts|
  {
    BoundaryFrom(ts, 0, target)
  }

  function Max(a: nat, b: nat): nat { if a < b then b else a }

  /** The latest of the first `r` index times. */
  function Latest(times: seq<uint32>, r: nat): nat
    requires r <= |times|
  {
    if r == 0 then 0 else Max(Latest(times, r - 1), times[r - 1])
  }

  /** Where the flux has been cut after `r` index pulses: at the least position that reaches the
      latest of them. */
  function Cut(ts: seq<uint32>, times: seq<uint32>, r: nat): (c: nat)
    requires r <= |times|
    ensures c <= |ts|
  {
    Boundary(ts, Latest(times, r))
  }

  function Previous(times: seq<uint32>, r: nat): uint32
    requires r <= |times|
  {
    if r == 0 then 0 else times[r - 1]
  }

  /** A stored revolution: transitions [start, end) in writer slot `slot`, closed by index pulse
      `pulse`, with the duration the writer is given. */
  datatype Slice = Slice(slot: nat, start: nat, end: nat, pulse: nat, duration: uint32)

  function Sub32(a: uint32, b: uint32): uint32 { (a - b) % 0x1_0000_0000 }

  /** The revolutions stored from pulse `r` on, when slot `slot` is next and `limit` slots exist. */
  function Slices(ts: seq<uint32>, times: seq<uint32>, r: nat, slot: nat, limit: nat): (ss: seq<Slice>)
    requires r <= |times|
    ensures forall i | 0 <= i < |ss| :: ss[i].start <= ss[i].end <= |ts|
    decreases |times| - r
  {
    if r == |times| || slot >= limit then []
    else if Cut(ts, times, r) < Cut(ts, times, r + 1) then
      [Slice(slot, Cut(ts, times, r), Cut(ts, times, r + 1), r, Sub32(times[r], Previous(times, r)))]
        + Slices(ts, times, r + 1, slot + 1, limit)
    else Slices(ts, times, r + 1, slot, limit)
  }

  // ---------- Boundaries ----------

  lemma BoundaryLeast(ts: seq<uint32>, target: nat, b: nat)
    requires b <= |ts| && (b < |ts| ==> PrefixSum(ts, b) >= target)
    requires forall k | 0 <= k < b :: PrefixSum(ts, k) < target
    ensures Boundary(ts, target) == b
  {
  }

  /** Searching on from the last cut for the next index time finds the next cut. */
  lemma CutStep(ts: seq<uint32>, times: seq<uint32>, r: nat)
    requires r < |times|
    ensures BoundaryFrom(ts, Cut(ts, times, r), times[r]) == Cut(ts, times, r + 1)
  {
    var a := Cut(ts, times, r);
    var b := BoundaryFrom(ts, a, times[r]);
    var latest := Latest(times, r);
    forall k | 0 <= k < b ensures PrefixSum(ts, k) < Latest(times, r + 1) {
      if k < a { assert PrefixSum(ts, k) < latest; }
    }
    if b < |ts| { PrefixSumMonotone(ts, a, b); }
    BoundaryLeast(ts, Latest(times, r + 1), b);
  }

  lemma CutMonotone(ts: seq<uint32>, times: seq<uint32>, r: nat)
    requires r < |times|
    ensures Cut(ts, times, r) <= Cut(ts, times, r + 1)
  {
    CutStep(ts, times, r);
  }

  /** A stored revolution's duration never wraps and is positive, for any index list. */
  lemma NoWrap(ts: seq<uint32>, times: seq<uint32>, r: nat)
    requires r < |times| && Cut(ts, times, r) < Cut(ts, times, r + 1)
    ensures Previous(times, r) < times[r]
    ensures Sub32(times[r], Previous(times, r)) == times[r] - Previous(times, r)
  {
    var a := Cut(ts, times, r);
    CutStep(ts, times, r);
    assert PrefixSum(ts, a) < times[r];
    assert PrefixSum(ts, a) >= Latest(times, r) >= Previous(times, r);
  }

  // ---------- Conservation ----------

  ghost predicate Chained(ss: seq<Slice>, start: nat, slot: nat, n: nat) {
    forall i | 0 <= i < |ss| ::
      && ss[i].slot == slot + i
      && ss[i].start < ss[i].end <= n
      && ss[i].start == EndBefore(ss, i, start)
  }

  function EndBefore(ss: seq<Slice>, i: nat, start: nat): nat
    requires i <= |ss|
  {
    if i == 0 then start else ss[i - 1].end
  }

  function LastEnd(ss: seq<Slice>, start: nat): nat { if ss == [] then start else ss[|ss| - 1].end }

  /** The transitions the writer is given, in the order of the calls. */
  function Stored(ts: seq<uint32>, ss: seq<Slice>): seq<uint32>
    requires forall i | 0 <= i < |ss| :: ss[i].start <= ss[i].end <= |ts|
  {
    if ss == [] then [] else Stored(ts, ss[..|ss| - 1]) + ts[ss[|ss| - 1].start..ss[|ss| - 1].end]
  }

  lemma {:induction false} SlicesChained(ts: seq<uint32>, times: seq<uint32>, r: nat, slot: nat, limit: nat)
    requires r <= |times| && slot <= limit
    ensures var ss := Slices(ts, times, r, slot, limit);
      && Chained(ss, Cut(ts, times, r), slot, |ts|)
      && slot + |ss| <= limit
      && (slot + |ss| < limit ==> LastEnd(ss, Cut(ts, times, r)) == Cut(ts, times, |times|))
    decreases |times| - r
  {
    hide Cut, Sub32, Previous;
    if r < |times| && slot < limit {
      CutMonotone(ts, times, r);
      var a, b := Cut(ts, times, r), Cut(ts, times, r + 1);
      if a < b {
        SlicesChained(ts, times, r + 1, slot + 1, limit);
        var first := Slice(slot, a, b, r, Sub32(times[r], Previous(times, r)));
        ChainCons(first, Slices(ts, times, r + 1, slot + 1, limit), |ts|);
      } else {
        SlicesChained(ts, times, r + 1, slot, limit);
      }
    }
  }

  lemma ChainCons(s: Slice, ss: seq<Slice>, n: nat)
    requires s.start < s.end <= n && Chained(ss, s.end, s.slot + 1, n)
    ensures Chained([s] + ss, s.start, s.slot, n)
    ensures LastEnd([s] + ss, s.start) == LastEnd(ss, s.end)
  {
    var all := [s] + ss;
    forall i | 0 <= i < |all|
      ensures all[i].slot == s.slot + i && all[i].start < all[i].end <= n
      ensures all[i].start == EndBefore(all, i, s.start)
    {
      if i > 0 { assert all[i] == ss[i - 1] && ss[i - 1].start == EndBefore(ss, i - 1, s.end); }
    }
  }

  lemma ChainFront(ss: seq<Slice>, n: nat)
    requires ss != [] && Chained(ss, 0, 0, n)
    ensures Chained(ss[..|ss| - 1], 0, 0, n) && ss[|ss| - 1].start == LastEnd(ss[..|ss| - 1], 0)
  {
    hide EndBefore;
    forall i | 0 <= i < |ss| ensures EndBefore(ss[..|ss| - 1], i, 0) == EndBefore(ss, i, 0) {
      EndBeforeFront(ss, i);
    }
    assert ss[|ss| - 1].start == LastEnd(ss[..|ss| - 1], 0) by { EndBeforeLast(ss[..|ss| - 1]); }
  }

  lemma EndBeforeFront(ss: seq<Slice>, i: nat)
    requires i < |ss|
    ensures EndBefore(ss[..|ss| - 1], i, 0) == EndBefore(ss, i, 0)
  {
  }

  lemma EndBeforeLast(ss: seq<Slice>)
    ensures EndBefore(ss, |ss|, 0) == LastEnd(ss, 0)
  {
  }

  lemma {:induction false} ChainStores(ts: seq<uint32>, ss: seq<Slice>)
    requires Chained(ss, 0, 0, |ts|)
    ensures LastEnd(ss, 0) <= |ts| && Stored(ts, ss) == ts[..LastEnd(ss, 0)]
    decreases |ss|
  {
    if ss != [] {
      var n := |ss| - 1;
      ChainFront(ss, |ts|);
      ChainStores(ts, ss[..n]);
      assert ts[..ss[n].end] == ts[..ss[n].start] + ts[ss[n].start..ss[n].end];
    }
  }

  /** Conservation, for every flux and every index list, sorted or not: the stored revolutions
      are a prefix of the flux, cut without gap or overlap, in slots 0, 1, 2, ...; when slots are
      left over, the prefix reaches the last cut. */
  lemma SlicesConserve(ts: seq<uint32>, times: seq<uint32>, limit: nat)
    ensures var ss := Slices(ts, times, 0, 0, limit);
      && |ss| <= limit
      && (forall i | 0 <= i < |ss| :: ss[i].slot == i && ss[i].start < ss[i].end <= |ts|)
      && LastEnd(ss, 0) <= |ts|
      && Stored(ts, ss) == ts[..LastEnd(ss, 0)]
      && (|ss| < limit ==> LastEnd(ss, 0) == Cut(ts, times, |times|))
  {
    SlicesChained(ts, times, 0, 0, limit);
    assert Cut(ts, times, 0) == 0;
    ChainStores(ts, Slices(ts, times, 0, 0, limit));
  }

  // ---------- Accuracy ----------

  ghost predicate Sorted(times: seq<uint32>) {
    forall i, j | 0 <= i <= j < |times| :: times[i] <= times[j]
  }

  lemma {:induction false} LatestSorted(times: seq<uint32>, r: nat)
    requires Sorted(times) && r < |times|
    ensures Latest(times, r + 1) == times[r]
  {
    if r > 0 {
      LatestSorted(times, r - 1);
    }
  }

  /** A cut overshoots its index time by less than one transition. */
  lemma Overshoot(ts: seq<uint32>, target: nat, longest: nat)
    requires forall i | 0 <= i < |ts| :: ts[i] <= longest
    requires 0 < target && PrefixSum(ts, Boundary(ts, target)) >= target
    ensures PrefixSum(ts, Boundary(ts, target)) - target < longest
  {
    var b := Boundary(ts, target);
    assert PrefixSum(ts, b - 1) < target;
  }

  /** With index times in order and flux left, a stored revolution runs from one exact boundary
      to the next, and its flux differs from the recorded duration by less than the longest
      transition. */
  lemma RevolutionAccurate(ts: seq<uint32>, times: seq<uint32>, r: nat, longest: nat)
    requires Sorted(times) && r < |times|
    requires forall i | 0 <= i < |ts| :: ts[i] <= longest
    requires Cut(ts, times, r) < Cut(ts, times, r + 1)
    requires PrefixSum(ts, Cut(ts, times, r + 1)) >= times[r]
    ensures Cut(ts, times, r + 1) == Boundary(ts, times[r])
    ensures var flux: int, duration: int :=
        PrefixSum(ts, Cut(ts, times, r + 1)) - PrefixSum(ts, Cut(ts, times, r)), Sub32(times[r], Previous(times, r));
      duration - longest < flux < duration + longest
  {
    hide Boundary, Sub32;
    LatestSorted(times, r);
    NoWrap(ts, times, r);
    Overshoot(ts, times[r], longest);
    if r > 0 && times[r - 1] > 0 {
      LatestSorted(times, r - 1);
      assert Cut(ts, times, r) == Boundary(ts, times[r - 1]);
      BoundaryReaches(ts, times[r - 1]);
      Overshoot(ts, times[r - 1], longest);
    } else {
      assert Latest(times, r) == 0 by { if r > 0 { LatestSorted(times, r - 1); } }
      BoundaryLeast(ts, 0, 0);
    }
  }

  lemma BoundaryReaches(ts: seq<uint32>, target: nat)
    requires Boundary(ts, target) < |ts|
    ensures PrefixSum(ts, Boundary(ts, target)) >= target
  {
  }

  /** Every stored revolution runs between consecutive cuts, and its recorded duration is the
      true, positive distance of its two index times. */
  lemma {:induction false} SliceFacts(ts: seq<uint32>, times: seq<uint32>, r: nat, slot: nat, limit: nat, i: nat)
    requires r <= |times| && i < |Slices(ts, times, r, slot, limit)|
    ensures var s := Slices(ts, times, r, slot, limit)[i];
      && r <= s.pulse < |times|
      && s.start == Cut(ts, times, s.pulse) < Cut(ts, times, s.pulse + 1) == s.end
      && s.duration == times[s.pulse] - Previous(times, s.pulse) > 0
    decreases |times| - r
  {
    hide Cut, Sub32, Previous;
    if Cut(ts, times, r) < Cut(ts, times, r + 1) {
      NoWrap(ts, times, r);
      if i > 0 { SliceFacts(ts, times, r + 1, slot + 1, limit, i - 1); }
    } else {
      SliceFacts(ts, times, r + 1, slot, limit, i);
    }
  }
}
