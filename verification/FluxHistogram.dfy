/** The flux histogram: binning, peak finding and the encoding guess. */
module FluxHistogram {
  // ---------- Binning ----------

  /** Conversion of a floating-point number to an integer truncates toward zero. */
  function Truncate(x: real): int { if x >= 0.0 then x.Floor else -((-x).Floor) }

  /** Integer division truncates toward zero. */
  function Quotient(a: int, b: int): int
    requires 0 < b
  {
    if a >= 0 then a / b else -((-a) / b)
  }

  function BinOf(x: real, visibleMin: int, binWidth: int): int
    requires 0 < binWidth
  {
    Quotient(Truncate(x) - visibleMin, binWidth)
  }

  /** How many of the samples fall into bin `b`. */
  function CountIn(xs: seq<real>, b: int, visibleMin: int, binWidth: int): nat
    requires 0 < binWidth
  {
    if xs == [] then 0
    else CountIn(xs[..|xs| - 1], b, visibleMin, binWidth)
         + (if BinOf(xs[|xs| - 1], visibleMin, binWidth) == b then 1 else 0)
  }

  /** How many of the samples fall into one of `n` bins. */
  function InRange(xs: seq<real>, n: nat, visibleMin: int, binWidth: int): nat
    requires 0 < binWidth
  {
    if xs == [] then 0
    else InRange(xs[..|xs| - 1], n, visibleMin, binWidth)
         + (if 0 <= BinOf(xs[|xs| - 1], visibleMin, binWidth) < n then 1 else 0)
  }

  function Sum(bins: seq<nat>): nat {
    if bins == [] then 0 else Sum(bins[..|bins| - 1]) + bins[|bins| - 1]
  }

  lemma {:induction false} SumBump(bins: seq<nat>, b: nat)
    requires b < |bins|
    ensures Sum(bins[b := bins[b] + 1]) == Sum(bins) + 1
    decreases |bins|
  {
    var n := |bins| - 1;
    var more := bins[b := bins[b] + 1];
    if b < n {
      SumBump(bins[..n], b);
      assert more[..n] == bins[..n][b := bins[b] + 1];
    } else {
      assert more[..n] == bins[..n];
    }
  }

  lemma {:induction false} SumZeros(n: nat)
    ensures Sum(seq(n, _ => 0)) == 0
  {
    if n > 0 {
      SumZeros(n - 1);
      assert seq(n, _ => 0)[..n - 1] == seq(n - 1, _ => 0);
    }
  }

  /** `m` is the largest bin. */
  ghost predicate IsMax(bins: seq<nat>, m: nat) {
    && (forall b | 0 <= b < |bins| :: bins[b] <= m)
    && (m == 0 || exists b :: 0 <= b < |bins| && bins[b] == m)
  }

  lemma MaxZeros(n: nat)
    ensures IsMax(seq(n, _ => 0), 0)
  {
  }

  lemma MaxBump(bins: seq<nat>, b: nat, m: nat)
    requires b < |bins| && IsMax(bins, m)
    ensures IsMax(bins[b := bins[b] + 1], if bins[b] + 1 > m then bins[b] + 1 else m)
  {
    var more := bins[b := bins[b] + 1];
    if bins[b] + 1 > m {
      assert more[b] == bins[b] + 1;
    } else if k :| 0 <= k < |bins| && bins[k] == m {
      assert k != b && more[k] == m;
    }
  }

  lemma CountStep(xs: seq<real>, i: nat, n: nat, visibleMin: int, binWidth: int)
    requires i < |xs| && 0 < binWidth
    ensures var bin := BinOf(xs[i], visibleMin, binWidth);
      && InRange(xs[..i + 1], n, visibleMin, binWidth)
         == InRange(xs[..i], n, visibleMin, binWidth) + (if 0 <= bin < n then 1 else 0)
      && forall b :: CountIn(xs[..i + 1], b, visibleMin, binWidth)
                     == CountIn(xs[..i], b, visibleMin, binWidth) + (if bin == b then 1 else 0)
  {
    hide BinOf;
    assert xs[..i + 1][..i] == xs[..i];
  }

  // ---------- Peaks ----------

  datatype Peak = Peak(position: nat, count: nat, center: real, name: string)

  /** A strict maximum among its two neighbours on either side, not below the threshold. */
  predicate Qualifies(bins: seq<nat>, threshold: nat, i: int) {
    && 2 <= i < |bins| - 2
    && threshold <= bins[i]
    && bins[i - 1] < bins[i] && bins[i + 1] < bins[i] && bins[i - 2] < bins[i] && bins[i + 2] < bins[i]
  }

  function Weight(bins: seq<nat>, i: int): nat
    requires 2 <= i < |bins| - 2
  {
    bins[i - 2] + bins[i - 1] + bins[i] + bins[i + 1] + bins[i + 2]
  }

  function Moment(bins: seq<nat>, i: int): int
    requires 2 <= i < |bins| - 2
  {
    (i - 2) * bins[i - 2] + (i - 1) * bins[i - 1] + i * bins[i] + (i + 1) * bins[i + 1] + (i + 2) * bins[i + 2]
  }

  function Center(bins: seq<nat>, i: int): real
    requires 2 <= i < |bins| - 2 && 0 < Weight(bins, i)
  {
    (Moment(bins, i) as real) / (Weight(bins, i) as real)
  }

  /** The weighted center lies strictly within one bin of its peak. */
  lemma CenterNear(bins: seq<nat>, threshold: nat, i: int)
    requires Qualifies(bins, threshold, i)
    ensures 0 < Weight(bins, i)
    ensures i as real - 1.0 < Center(bins, i) < i as real + 1.0
  {
    var w, m := Weight(bins, i), Moment(bins, i);
    var a: int, b: int, c: int, d: int := bins[i - 2], bins[i - 1], bins[i + 1], bins[i + 2];
    assert m == i * w + (2 * d + c - b - 2 * a);
    assert (i - 1) * w == i * w - w && (i + 1) * w == i * w + w;
    DivideBounds(m, w, i);
  }

  lemma DivideBounds(m: int, w: int, i: int)
    requires 0 < w && (i - 1) * w < m < (i + 1) * w
    ensures i as real - 1.0 < (m as real) / (w as real) < i as real + 1.0
  {
    var q := (m as real) / (w as real);
    assert q * (w as real) == m as real;
    assert ((i - 1) as real) * (w as real) < m as real < ((i + 1) as real) * (w as real);
    RealOrder((i - 1) as real, q, w as real);
    RealOrder(q, (i + 1) as real, w as real);
  }

  lemma RealOrder(a: real, b: real, w: real)
    requires 0.0 < w && a * w < b * w
    ensures a < b
  {
  }

  /** The peaks are chosen greedily from the left: a qualifying bin becomes a peak exactly when no
      peak lies less than minDistance before it. */
  ghost predicate IsSelection(bins: seq<nat>, threshold: nat, minDistance: nat, ps: seq<Peak>, n: int) {
    && (forall k | 0 <= k < |ps| :: Qualifies(bins, threshold, ps[k].position) && ps[k].position < n)
    && (forall j, k | 0 <= j < k < |ps| :: ps[j].position < ps[k].position)
    && (forall j, k | 0 <= j < k < |ps| :: minDistance <= ps[k].position - ps[j].position)
    && (forall i | 2 <= i < n && Qualifies(bins, threshold, i) :: IsPeak(ps, i) || TooClose(ps, i, minDistance))
  }

  predicate IsPeak(ps: seq<Peak>, i: int) { exists k | 0 <= k < |ps| :: ps[k].position == i }

  /** Some peak lies less than minDistance before `i`. */
  predicate TooClose(ps: seq<Peak>, i: int, minDistance: nat) {
    exists k | 0 <= k < |ps| :: ps[k].position < i && i - ps[k].position < minDistance
  }

  /** Strict maxima of width two are at least three bins apart. */
  lemma PeaksThreeApart(bins: seq<nat>, threshold: nat, i: int, k: int)
    requires Qualifies(bins, threshold, i) && Qualifies(bins, threshold, k) && i < k
    ensures 3 <= k - i
  {
  }

  /** The bins and the two limits leave only one selection: greedy choice is deterministic. */
  lemma {:induction false} SelectionUnique(bins: seq<nat>, threshold: nat, minDistance: nat,
                                           ps: seq<Peak>, qs: seq<Peak>, n: int, i: int)
    requires IsSelection(bins, threshold, minDistance, ps, n) && IsSelection(bins, threshold, minDistance, qs, n)
    ensures IsPeak(ps, i) <==> IsPeak(qs, i)
    decreases if i < 0 then 0 else i
  {
    if IsPeak(ps, i) { PeakOfBoth(bins, threshold, minDistance, ps, qs, n, i); }
    if IsPeak(qs, i) { PeakOfBoth(bins, threshold, minDistance, qs, ps, n, i); }
  }

  lemma {:induction false} PeakOfBoth(bins: seq<nat>, threshold: nat, minDistance: nat,
                                      ps: seq<Peak>, qs: seq<Peak>, n: int, i: int)
    requires IsSelection(bins, threshold, minDistance, ps, n) && IsSelection(bins, threshold, minDistance, qs, n)
    requires IsPeak(ps, i)
    ensures IsPeak(qs, i)
    decreases if i < 0 then 0 else i, 1
  {
    hide Qualifies;
    var k :| 0 <= k < |ps| && ps[k].position == i;
    assert Qualifies(bins, threshold, i) && 2 <= i by { QualifiesInside(bins, threshold, i); }
    if TooClose(qs, i, minDistance) {
      var m :| 0 <= m < |qs| && qs[m].position < i && i - qs[m].position < minDistance;
      var j := qs[m].position;
      assert IsPeak(qs, j);
      SelectionUnique(bins, threshold, minDistance, ps, qs, n, j);
    }
  }

  lemma QualifiesInside(bins: seq<nat>, threshold: nat, i: int)
    ensures Qualifies(bins, threshold, i) ==> 2 <= i
  {
  }

  // ---------- Peak times ----------

  /** The time in nanoseconds of a position on the bin axis. */
  function TimeAt(c: real, visibleMin: int, binWidth: int): real {
    visibleMin as real + c * (binWidth as real)
  }

  function PeakTime(p: Peak, visibleMin: int, binWidth: int): real {
    TimeAt(p.center, visibleMin, binWidth)
  }

  /** The peaks of the bins, each with its height and weighted center. */
  ghost predicate PeaksOf(bins: seq<nat>, threshold: nat, minDistance: nat, ps: seq<Peak>) {
    && IsSelection(bins, threshold, minDistance, ps, |bins|)
    && forall k | 0 <= k < |ps| ::
      && ps[k].count == bins[ps[k].position]
      && 0 < Weight(bins, ps[k].position)
      && ps[k].center == Center(bins, ps[k].position)
  }

  /** Peak times are positive and strictly increasing, so every ratio to the first peak is above 1;
      two peaks lie at least max(3, minDistance) bins apart. */
  lemma PeakTimesIncrease(bins: seq<nat>, threshold: nat, minDistance: nat, ps: seq<Peak>,
                          visibleMin: int, binWidth: int, j: int, k: int)
    requires PeaksOf(bins, threshold, minDistance, ps) && 0 <= visibleMin && 1 <= binWidth
    requires 0 <= j < k < |ps|
    ensures ps[k].position - ps[j].position >= (if minDistance > 3 then minDistance else 3)
    ensures var a, b := PeakTime(ps[j], visibleMin, binWidth), PeakTime(ps[k], visibleMin, binWidth);
      0.0 < a < b && b / a > 1.0
  {
    hide Center, Weight, TooClose, IsPeak, TimeAt;
    var p, q := ps[j], ps[k];
    CenterNear(bins, threshold, p.position);
    CenterNear(bins, threshold, q.position);
    PeaksThreeApart(bins, threshold, p.position, q.position);
    assert 0.0 < p.center < q.center by { QualifiesInside(bins, threshold, p.position); }
    TimesOf(p.center, q.center, visibleMin, binWidth);
    RatioWithin(PeakTime(p, visibleMin, binWidth), PeakTime(q, visibleMin, binWidth), 1.0);
  }

  lemma TimesOf(c: real, d: real, visibleMin: int, binWidth: int)
    requires 0.0 < c < d && 0 <= visibleMin && 1 <= binWidth
    ensures 0.0 < TimeAt(c, visibleMin, binWidth) < TimeAt(d, visibleMin, binWidth)
  {
    RealScale(0.0, c, binWidth as real);
    RealScale(c, d, binWidth as real);
  }

  lemma RealScale(x: real, y: real, w: real)
    requires 0.0 < w && x < y
    ensures x * w < y * w
  {
    var d := y - x;
    assert 0.0 < d * w;
    assert (x + d) * w == x * w + d * w;
  }

  /** Comparing a ratio is comparing with a multiple. */
  lemma RatioWithin(a: real, b: real, r: real)
    requires 0.0 < a
    ensures b / a > r <==> b > r * a
    ensures b / a < r <==> b < r * a
  {
    var q := b / a;
    assert q * a == b;
    if q > r {
      RealScale(r, q, a);
    } else if q < r {
      RealScale(q, r, a);
    }
  }

  /** The times of MFM: the second peak at one and a half cells, the third at two, each within 0.2. */
  predicate LooksMfm(t: seq<real>) {
    |t| >= 3 && 1.3 * t[0] < t[1] < 1.7 * t[0] && 1.8 * t[0] < t[2] < 2.2 * t[0]
  }

  /** The times of FM: the second peak at two cells within 0.2. */
  predicate LooksFm(t: seq<real>) {
    |t| >= 2 && 1.8 * t[0] < t[1] < 2.2 * t[0]
  }

  // ---------- The widget's state ----------

  datatype Encoding = Auto | Fm | Mfm

  class Histogram {
    var bins: seq<nat>
    var binWidth: int
    var visibleMin: int
    var maxCount: nat
    var totalSamples: nat
    var peaks: seq<Peak>
    var encoding: Encoding
    var cellTime: real

    /** What every setter keeps: 1 to 1000 nanoseconds a bin, no negative start. */
    predicate Valid()
      reads this
    {
      1 <= binWidth <= 1000 && 0 <= visibleMin
    }

    constructor ()
      ensures Valid() && |bins| == 1001 && Sum(bins) == 0 && peaks == []
    {
      binWidth, visibleMin, maxCount, totalSamples := 10, 0, 0, 0;
      bins := seq(1001, _ => 0);
      peaks, encoding, cellTime := [], Auto, 0.0;
      new;
      SumZeros(1001);
    }

    method BuildHistogram(xs: seq<real>)
      requires Valid()
      modifies this`bins, this`maxCount, this`totalSamples
      ensures |bins| == old(|bins|)
      ensures forall b | 0 <= b < |bins| :: bins[b] == CountIn(xs, b, visibleMin, binWidth)
      ensures Sum(bins) == InRange(xs, |bins|, visibleMin, binWidth)
      ensures IsMax(bins, maxCount)
      ensures totalSamples == |xs|
    {
      hide BinOf, Sum, IsMax;
      var n := |bins|;
      bins := seq(n, _ => 0);
      SumZeros(n);
      MaxZeros(n);
      maxCount, totalSamples := 0, |xs|;
      var i := 0;
      while i < |xs|
        invariant 0 <= i <= |xs| && |bins| == n
        invariant forall b | 0 <= b < n :: bins[b] == CountIn(xs[..i], b, visibleMin, binWidth)
        invariant Sum(bins) == InRange(xs[..i], n, visibleMin, binWidth)
        invariant IsMax(bins, maxCount) && totalSamples == |xs|
      {
        CountStep(xs, i, n, visibleMin, binWidth);
        var bin := BinOf(xs[i], visibleMin, binWidth);
        if 0 <= bin < n {
          SumBump(bins, bin);
          MaxBump(bins, bin, maxCount);
          bins := bins[bin := bins[bin] + 1];
          if bins[bin] > maxCount { maxCount := bins[bin]; }
        }
        i := i + 1;
      }
      assert xs[..|xs|] == xs;
    }

    function Threshold(): nat
      reads this
    {
      maxCount / 20
    }

    function MinDistance(): nat
      requires Valid()
      reads this
    {
      500 / binWidth
    }

    method DetectPeaks()
      requires Valid()
      requires maxCount == 0 ==> forall b | 0 <= b < |bins| :: bins[b] == 0
      modifies this`peaks
      ensures PeaksOf(bins, Threshold(), MinDistance(), peaks)
      ensures forall k | 0 <= k < |peaks| :: peaks[k].name == ""
    {
      hide Center, Weight, Moment, IsSelection, TooClose;
      peaks := [];
      NoPeaks(bins, maxCount / 20, 500 / binWidth);
      if maxCount == 0 { return; }
      var threshold, minDistance := maxCount / 20, 500 / binWidth;
      var i := 2;
      while i < |bins| - 2
        invariant 2 <= i
        invariant IsSelection(bins, threshold, minDistance, peaks, i)
        invariant forall k | 0 <= k < |peaks| :: peaks[k].name == ""
        invariant forall k | 0 <= k < |peaks| ::
          && 2 <= peaks[k].position < |bins| - 2
          && peaks[k].count == bins[peaks[k].position]
          && 0 < Weight(bins, peaks[k].position)
          && peaks[k].center == Center(bins, peaks[k].position)
      {
        if && threshold <= bins[i]
           && bins[i - 1] < bins[i] && bins[i + 1] < bins[i] && bins[i - 2] < bins[i] && bins[i + 2] < bins[i] {
          SelectionBelow(bins, threshold, minDistance, peaks, i);
          var tooClose := CloseToPeak(i, minDistance);
          if !tooClose {
            CenterNear(bins, threshold, i);
            var center := ComputeCenter(i);
            ExtendSelection(bins, threshold, minDistance, peaks, Peak(i, bins[i], center, ""));
            peaks := peaks + [Peak(i, bins[i], center, "")];
          } else {
            PassOver(bins, threshold, minDistance, peaks, i);
          }
        } else {
          PassOver(bins, threshold, minDistance, peaks, i);
        }
        i := i + 1;
      }
      SelectionToEnd(bins, threshold, minDistance, peaks, i);
    }

    function PeakTimes(): (t: seq<real>)
      reads this
      ensures |t| == |peaks|
    {
      seq(|peaks|, k requires 0 <= k < |peaks| reads this => PeakTime(peaks[k], visibleMin, binWidth))
    }

    /** The name of peak `k`. */
    function NameOf(e: Encoding, k: nat): string {
      match e
      case Mfm => if k == 0 then "1T" else if k == 1 then "1.5T" else if k == 2 then "2T" else ""
      case Fm => if k == 0 then "1T" else if k == 1 then "2T" else ""
      case Auto => ""
    }

    /** Peaks with the given names on the first ones. */
    predicate Named(before: seq<Peak>, names: seq<string>)
      reads this
    {
      && |peaks| == |before| >= |names|
      && forall k | 0 <= k < |peaks| :: peaks[k] == if k < |names| then before[k].(name := names[k]) else before[k]
    }

    method DetectEncoding()
      requires forall k | 0 <= k < |peaks| :: 0.0 < PeakTime(peaks[k], visibleMin, binWidth)
      modifies this`peaks, this`encoding, this`cellTime
      ensures var t := old(PeakTimes());
        && encoding == (if LooksMfm(t) then Mfm else if LooksFm(t) then Fm else Auto)
        && cellTime == (if |t| < 2 then 0.0 else t[0])
      ensures Named(old(peaks), match encoding
                                case Mfm => ["1T", "1.5T", "2T"]
                                case Fm => ["1T", "2T"]
                                case Auto => [])
    {
      if |peaks| < 2 {
        encoding, cellTime := Auto, 0.0;
        return;
      }
      var peakNs := [];
      var k := 0;
      while k < |peaks|
        invariant 0 <= k <= |peaks| && |peakNs| == k
        invariant forall j | 0 <= j < k :: peakNs[j] == PeakTime(peaks[j], visibleMin, binWidth)
      {
        peakNs := peakNs + [PeakTime(peaks[k], visibleMin, binWidth)];
        k := k + 1;
      }
      assert peakNs == PeakTimes();
      var p1, p2 := peakNs[0], peakNs[1];
      assert 0.0 < p1;
      if |peaks| >= 3 {
        var p3 := peakNs[2];
        RatiosAre(p1, p2, p3);
        var ratio1, ratio2 := p2 / p1, p3 / p1;
        if ratio1 > 1.3 && ratio1 < 1.7 && ratio2 > 1.8 && ratio2 < 2.2 {
          encoding, cellTime := Mfm, p1;
          peaks := peaks[0 := peaks[0].(name := "1T")][1 := peaks[1].(name := "1.5T")][2 := peaks[2].(name := "2T")];
          return;
        }
      }
      RatiosAre(p1, p2, p2);
      var ratio := p2 / p1;
      if ratio > 1.8 && ratio < 2.2 {
        encoding, cellTime := Fm, p1;
        peaks := peaks[0 := peaks[0].(name := "1T")][1 := peaks[1].(name := "2T")];
        return;
      }
      encoding, cellTime := Auto, peakNs[0];
    }

    /** New flux data: histogram, peaks and encoding are all functions of the samples and the view. */
    method SetFluxData(xs: seq<real>)
      requires Valid()
      modifies this
      ensures Valid() && visibleMin == old(visibleMin) && binWidth == old(binWidth) && |bins| == old(|bins|)
      ensures forall b | 0 <= b < |bins| :: bins[b] == CountIn(xs, b, visibleMin, binWidth)
      ensures Sum(bins) == InRange(xs, |bins|, visibleMin, binWidth) && IsMax(bins, maxCount) && totalSamples == |xs|
      ensures PeaksOf(bins, Threshold(), MinDistance(), peaks)
      ensures forall i: nat :: IsPeak(peaks, i) <==> PeakAt(bins, maxCount, binWidth, peaks, i)
      ensures forall k | 0 <= k < |peaks| :: 0.0 < PeakTime(peaks[k], visibleMin, binWidth)
      ensures forall j, k | 0 <= j < k < |peaks| ::
        PeakTime(peaks[j], visibleMin, binWidth) < PeakTime(peaks[k], visibleMin, binWidth)
      ensures var t := PeakTimes();
        && encoding == (if LooksMfm(t) then Mfm else if LooksFm(t) then Fm else Auto)
        && cellTime == (if |t| < 2 then 0.0 else t[0])
        && (|t| >= 2 ==> cellTime > 0.0)
      ensures forall k | 0 <= k < |peaks| :: peaks[k].name == NameOf(encoding, k)
    {
      hide CountIn, InRange, Sum, PeaksOf, PeakTime, LooksMfm, LooksFm;
      BuildHistogram(xs);
      assert maxCount == 0 ==> forall b | 0 <= b < |bins| :: bins[b] == 0;
      hide IsMax;
      DetectPeaks();
      FirstTimePositive(bins, Threshold(), MinDistance(), peaks, visibleMin, binWidth);
      ghost var before, times := peaks, PeakTimes();
      DetectEncoding();
      RenamedPeaks(bins, Threshold(), MinDistance(), before, peaks, visibleMin, binWidth);
      assert PeakTimes() == times;
      AllTimesIncrease(bins, Threshold(), MinDistance(), peaks, visibleMin, binWidth);
      hide PeakAt, IsPeak;
      forall i: nat ensures IsPeak(peaks, i) <==> PeakAt(bins, maxCount, binWidth, peaks, i) {
        PeaksInNumbers(bins, maxCount, binWidth, peaks, i);
      }
    }

    method Clear()
      requires Valid()
      modifies this
      ensures Valid() && visibleMin == old(visibleMin) && binWidth == old(binWidth) && |bins| == old(|bins|)
      ensures Sum(bins) == 0 && IsMax(bins, maxCount) && totalSamples == 0
      ensures peaks == [] && encoding == Auto && cellTime == 0.0
    {
      SumZeros(|bins|);
      bins := seq(|bins|, _ => 0);
      peaks, maxCount, totalSamples, encoding, cellTime := [], 0, 0, Auto, 0.0;
    }

    /** The distance loop over the peaks found so far. */
    method CloseToPeak(i: int, minDistance: nat) returns (tooClose: bool)
      requires forall k | 0 <= k < |peaks| :: peaks[k].position < i
      ensures tooClose <==> TooClose(peaks, i, minDistance)
    {
      tooClose := false;
      var k := 0;
      while k < |peaks|
        invariant 0 <= k <= |peaks|
        invariant !TooClose(peaks[..k], i, minDistance)
      {
        if i - peaks[k].position < minDistance { return true; }
        k := k + 1;
      }
      assert peaks[..|peaks|] == peaks;
    }

    method ComputeCenter(i: int) returns (center: real)
      requires 2 <= i < |bins| - 2 && 0 < Weight(bins, i)
      ensures center == Center(bins, i)
    {
      var weightedSum: int, totalWeight: nat := 0, 0;
      var j := i - 2;
      while j <= i + 2
        invariant i - 2 <= j <= i + 3
        invariant weightedSum == PartialMoment(bins, i, j) && totalWeight == PartialWeight(bins, i, j)
      {
        weightedSum := weightedSum + j * bins[j];
        totalWeight := totalWeight + bins[j];
        j := j + 1;
      }
      WindowSums(bins, i);
      center := (weightedSum as real) / (totalWeight as real);
    }
  }

  lemma RatiosAre(p1: real, p2: real, p3: real)
    requires 0.0 < p1
    ensures (p2 / p1 > 1.3 && p2 / p1 < 1.7 && p3 / p1 > 1.8 && p3 / p1 < 2.2)
       <==> (1.3 * p1 < p2 < 1.7 * p1 && 1.8 * p1 < p3 < 2.2 * p1)
    ensures (p3 / p1 > 1.8 && p3 / p1 < 2.2) <==> 1.8 * p1 < p3 < 2.2 * p1
  {
    RatioWithin(p1, p2, 1.3);
    RatioWithin(p1, p2, 1.7);
    RatioWithin(p1, p3, 1.8);
    RatioWithin(p1, p3, 2.2);
  }

  lemma FirstTimePositive(bins: seq<nat>, threshold: nat, minDistance: nat, ps: seq<Peak>,
                          visibleMin: int, binWidth: int)
    requires PeaksOf(bins, threshold, minDistance, ps) && 0 <= visibleMin && 1 <= binWidth
    ensures forall k | 0 <= k < |ps| :: 0.0 < PeakTime(ps[k], visibleMin, binWidth)
  {
    hide Center, Weight, TooClose, IsPeak;
    forall k | 0 <= k < |ps| ensures 0.0 < PeakTime(ps[k], visibleMin, binWidth) {
      CenterNear(bins, threshold, ps[k].position);
      QualifiesInside(bins, threshold, ps[k].position);
      TimesOf(ps[k].center, ps[k].center + 1.0, visibleMin, binWidth);
    }
  }

  lemma AllTimesIncrease(bins: seq<nat>, threshold: nat, minDistance: nat, ps: seq<Peak>,
                         visibleMin: int, binWidth: int)
    requires PeaksOf(bins, threshold, minDistance, ps) && 0 <= visibleMin && 1 <= binWidth
    ensures forall j, k | 0 <= j < k < |ps| ::
      PeakTime(ps[j], visibleMin, binWidth) < PeakTime(ps[k], visibleMin, binWidth)
  {
    hide PeaksOf, TimeAt;
    forall j, k | 0 <= j < k < |ps|
      ensures PeakTime(ps[j], visibleMin, binWidth) < PeakTime(ps[k], visibleMin, binWidth)
    {
      PeakTimesIncrease(bins, threshold, minDistance, ps, visibleMin, binWidth, j, k);
    }
  }

  /** Naming peaks changes neither where they are nor how they were chosen. */
  lemma RenamedPeaks(bins: seq<nat>, threshold: nat, minDistance: nat, ps: seq<Peak>, qs: seq<Peak>,
                     visibleMin: int, binWidth: int)
    requires PeaksOf(bins, threshold, minDistance, ps) && |ps| == |qs|
    requires forall k | 0 <= k < |ps| :: qs[k] == ps[k].(name := qs[k].name)
    ensures PeaksOf(bins, threshold, minDistance, qs)
    ensures forall k | 0 <= k < |ps| :: PeakTime(qs[k], visibleMin, binWidth) == PeakTime(ps[k], visibleMin, binWidth)
  {
    hide Center, Weight, Qualifies;
    forall i | 2 <= i < |bins| && Qualifies(bins, threshold, i) ensures IsPeak(qs, i) || TooClose(qs, i, minDistance) {
      if k :| 0 <= k < |ps| && ps[k].position == i {
        assert qs[k].position == i;
      } else {
        var m :| 0 <= m < |ps| && ps[m].position < i && i - ps[m].position < minDistance;
        assert qs[m].position == ps[m].position;
      }
    }
  }

  /** The sums over the window from i - 2 up to, not including, `j`. */
  function PartialWeight(bins: seq<nat>, i: int, j: int): nat
    requires 2 <= i < |bins| - 2 && i - 2 <= j <= i + 3
    decreases j
  {
    if j == i - 2 then 0 else PartialWeight(bins, i, j - 1) + bins[j - 1]
  }

  function PartialMoment(bins: seq<nat>, i: int, j: int): int
    requires 2 <= i < |bins| - 2 && i - 2 <= j <= i + 3
    decreases j
  {
    if j == i - 2 then 0 else PartialMoment(bins, i, j - 1) + (j - 1) * bins[j - 1]
  }

  lemma WindowSums(bins: seq<nat>, i: int)
    requires 2 <= i < |bins| - 2
    ensures PartialWeight(bins, i, i + 3) == Weight(bins, i) && PartialMoment(bins, i, i + 3) == Moment(bins, i)
  {
    assert PartialWeight(bins, i, i - 1) == bins[i - 2] && PartialMoment(bins, i, i - 1) == (i - 2) * bins[i - 2];
    assert PartialWeight(bins, i, i + 1) == PartialWeight(bins, i, i - 1) + bins[i - 1] + bins[i];
    assert PartialMoment(bins, i, i + 1) == PartialMoment(bins, i, i - 1) + (i - 1) * bins[i - 1] + i * bins[i];
  }

  /** Nothing qualifies before bin 2, and nothing at all when every bin is empty. */
  lemma NoPeaks(bins: seq<nat>, threshold: nat, minDistance: nat)
    ensures IsSelection(bins, threshold, minDistance, [], 2)
    ensures (forall b | 0 <= b < |bins| :: bins[b] == 0) ==> IsSelection(bins, threshold, minDistance, [], |bins|)
  {
  }

  lemma SelectionBelow(bins: seq<nat>, threshold: nat, minDistance: nat, ps: seq<Peak>, n: int)
    requires IsSelection(bins, threshold, minDistance, ps, n)
    ensures forall k | 0 <= k < |ps| :: ps[k].position < n
  {
  }

  lemma ExtendSelection(bins: seq<nat>, threshold: nat, minDistance: nat, ps: seq<Peak>, p: Peak)
    requires IsSelection(bins, threshold, minDistance, ps, p.position) && Qualifies(bins, threshold, p.position)
    requires !TooClose(ps, p.position, minDistance)
    ensures IsSelection(bins, threshold, minDistance, ps + [p], p.position + 1)
  {
    var more := ps + [p];
    forall k | 0 <= k < |ps| ensures minDistance <= p.position - ps[k].position {
      assert !TooClose(ps, p.position, minDistance);
    }
    forall i | 2 <= i < p.position + 1 && Qualifies(bins, threshold, i)
      ensures IsPeak(more, i) || TooClose(more, i, minDistance)
    {
      if i == p.position {
        assert more[|ps|].position == i;
      } else {
        Widen(ps, p, i, minDistance);
      }
    }
  }

  lemma Widen(ps: seq<Peak>, p: Peak, i: int, minDistance: nat)
    requires IsPeak(ps, i) || TooClose(ps, i, minDistance)
    ensures IsPeak(ps + [p], i) || TooClose(ps + [p], i, minDistance)
  {
    var more := ps + [p];
    if k :| 0 <= k < |ps| && ps[k].position == i {
      assert more[k].position == i;
    } else {
      var m :| 0 <= m < |ps| && ps[m].position < i && i - ps[m].position < minDistance;
      assert more[m] == ps[m];
    }
  }

  lemma PassOver(bins: seq<nat>, threshold: nat, minDistance: nat, ps: seq<Peak>, i: int)
    requires IsSelection(bins, threshold, minDistance, ps, i)
    requires Qualifies(bins, threshold, i) ==> TooClose(ps, i, minDistance)
    ensures IsSelection(bins, threshold, minDistance, ps, i + 1)
  {
  }

  lemma SelectionToEnd(bins: seq<nat>, threshold: nat, minDistance: nat, ps: seq<Peak>, i: int)
    requires IsSelection(bins, threshold, minDistance, ps, i) && 2 <= i && |bins| - 2 <= i
    ensures IsSelection(bins, threshold, minDistance, ps, |bins|)
  {
  }

  // ---------- In numbers ----------

  /** Bin `b` begins at visibleMin + b * binWidth nanoseconds; the first bin also takes what lies less
      than one bin width before it. */
  lemma BinInNumbers(x: real, b: nat, visibleMin: int, binWidth: int)
    requires 0 < binWidth && 0.0 <= x
    ensures var ns := x.Floor;
      BinOf(x, visibleMin, binWidth) == b <==>
        && (if b == 0 then visibleMin - binWidth < ns else visibleMin + b * binWidth <= ns)
        && ns < visibleMin + (b + 1) * binWidth
  {
    var d := x.Floor - visibleMin;
    if d >= 0 {
      QuotientIs(d, binWidth, b);
    } else {
      QuotientIs(-d, binWidth, 0);
      assert b * binWidth >= 0 && (b + 1) * binWidth == b * binWidth + binWidth;
      assert (-d) / binWidth >= 0;
    }
  }

  lemma QuotientIs(d: nat, w: int, b: nat)
    requires 0 < w
    ensures d / w == b <==> b * w <= d < (b + 1) * w
  {
    var q := d / w;
    assert q * w <= d < (q + 1) * w;
    if b < q { Multiples(b + 1, q, w); } else if q < b { Multiples(q + 1, b, w); }
  }

  lemma Multiples(a: nat, b: nat, w: int)
    requires a <= b && 0 < w
    ensures a * w <= b * w
  {
  }

  /** A height reaches the threshold exactly when it is at least the twentieth part of the largest,
      rounded down. */
  lemma ThresholdInNumbers(h: nat, largest: nat)
    ensures largest / 20 <= h <==> largest < 20 * h + 20
  {
  }

  lemma DistanceInNumbers(d: nat, binWidth: int)
    requires 0 < binWidth
    ensures d < 500 / binWidth <==> (d + 1) * binWidth <= 500
  {
    var q := 500 / binWidth;
    assert q * binWidth <= 500 < (q + 1) * binWidth;
    if d < q { Multiples(d + 1, q, binWidth); } else { Multiples(q + 1, d + 1, binWidth); }
  }

  ghost predicate PeakAt(bins: seq<nat>, largest: nat, binWidth: int, ps: seq<Peak>, i: nat) {
    && 2 <= i && i + 2 < |bins|
    && largest < 20 * bins[i] + 20
    && bins[i - 2] < bins[i] && bins[i - 1] < bins[i] && bins[i + 1] < bins[i] && bins[i + 2] < bins[i]
    && forall p: nat | p < i && IsPeak(ps, p) :: 500 < (i - p + 1) * binWidth
  }

  /** Which bins are peaks: strictly higher than the two bins on either side, at least a twentieth of
      the largest, and 500 nanoseconds behind every earlier peak, in whole bins. */
  lemma PeaksInNumbers(bins: seq<nat>, largest: nat, binWidth: int, ps: seq<Peak>, i: nat)
    requires 0 < binWidth && PeaksOf(bins, largest / 20, 500 / binWidth, ps)
    ensures IsPeak(ps, i) <==> PeakAt(bins, largest, binWidth, ps, i)
  {
    hide Center, Weight;
    var threshold, minDistance := largest / 20, 500 / binWidth;
    if 2 <= i && i + 2 < |bins| { ThresholdInNumbers(bins[i], largest); }
    assert Qualifies(bins, threshold, i) <==>
      && 2 <= i && i + 2 < |bins|
      && largest < 20 * bins[i] + 20
      && bins[i - 2] < bins[i] && bins[i - 1] < bins[i] && bins[i + 1] < bins[i] && bins[i + 2] < bins[i];
    NearInNumbers(ps, i, binWidth);
    PeakIff(bins, threshold, minDistance, ps, i);
  }

  lemma NearInNumbers(ps: seq<Peak>, i: nat, binWidth: int)
    requires 0 < binWidth
    ensures TooClose(ps, i, 500 / binWidth) <==>
      exists p: nat | p < i && IsPeak(ps, p) :: (i - p + 1) * binWidth <= 500
  {
    if TooClose(ps, i, 500 / binWidth) {
      var k :| 0 <= k < |ps| && ps[k].position < i && i - ps[k].position < 500 / binWidth;
      assert IsPeak(ps, ps[k].position);
      DistanceInNumbers(i - ps[k].position, binWidth);
    }
    if p: nat :| p < i && IsPeak(ps, p) && (i - p + 1) * binWidth <= 500 {
      var k :| 0 <= k < |ps| && ps[k].position == p;
      DistanceInNumbers(i - p, binWidth);
      assert ps[k].position < i && i - ps[k].position < 500 / binWidth;
    }
  }

  lemma PeakIff(bins: seq<nat>, threshold: nat, minDistance: nat, ps: seq<Peak>, i: nat)
    requires PeaksOf(bins, threshold, minDistance, ps)
    ensures IsPeak(ps, i) <==> Qualifies(bins, threshold, i) && !TooClose(ps, i, minDistance)
  {
    hide Center, Weight, Qualifies;
    QualifiesInside(bins, threshold, i);
    QualifiesBelow(bins, threshold, i);
    if k :| 0 <= k < |ps| && ps[k].position == i {
      forall m | 0 <= m < |ps| && ps[m].position < i ensures minDistance <= i - ps[m].position {
        assert m < k;
      }
    }
  }

  lemma QualifiesBelow(bins: seq<nat>, threshold: nat, i: int)
    ensures Qualifies(bins, threshold, i) ==> i < |bins|
  {
  }

  /** The center is the mean of the five positions around a peak, weighted with their heights. */
  lemma CenterInNumbers(bins: seq<nat>, threshold: nat, i: nat)
    requires Qualifies(bins, threshold, i)
    ensures 0 < Weight(bins, i)
    ensures Center(bins, i) * ((bins[i - 2] + bins[i - 1] + bins[i] + bins[i + 1] + bins[i + 2]) as real)
         == ((i - 2) * bins[i - 2] + (i - 1) * bins[i - 1] + i * bins[i] + (i + 1) * bins[i + 1]
             + (i + 2) * bins[i + 2]) as real
  {
  }

  /** A peak's time lies within one bin width of where its bin begins. */
  lemma TimeInNumbers(bins: seq<nat>, threshold: nat, p: Peak, visibleMin: int, binWidth: int)
    requires 0 < binWidth && Qualifies(bins, threshold, p.position)
    requires 0 < Weight(bins, p.position) && p.center == Center(bins, p.position)
    ensures var begin := (visibleMin + p.position * binWidth) as real;
      && begin - (binWidth as real) < PeakTime(p, visibleMin, binWidth) < begin + (binWidth as real)
      && PeakTime(p, visibleMin, binWidth) - begin == (p.center - (p.position as real)) * (binWidth as real)
  {
    hide Center, Weight, Qualifies, PeakTime, TimeAt;
    CenterNear(bins, threshold, p.position);
    TimeNear(p, visibleMin, binWidth);
  }

  lemma TimeNear(p: Peak, visibleMin: int, binWidth: int)
    requires 0 < binWidth && (p.position as real) - 1.0 < p.center < (p.position as real) + 1.0
    ensures var begin := (visibleMin + p.position * binWidth) as real;
      && begin - (binWidth as real) < PeakTime(p, visibleMin, binWidth) < begin + (binWidth as real)
      && PeakTime(p, visibleMin, binWidth) - begin == (p.center - (p.position as real)) * (binWidth as real)
  {
    hide TimeAt;
    var begin, time := (visibleMin + p.position * binWidth) as real, PeakTime(p, visibleMin, binWidth);
    var away := TimeOffset(p.center, p.position, visibleMin, binWidth, begin);
    assert time == begin + away;
  }

  lemma ScaleNear(off: real, w: real)
    requires -1.0 < off < 1.0 && 0.0 < w
    ensures -w < off * w < w
  {
    RealScale(-1.0, off, w);
    RealScale(off, 1.0, w);
  }

  /** How far the time of `c` is from where bin `b` begins. */
  lemma TimeOffset(c: real, b: nat, visibleMin: int, binWidth: int, begin: real) returns (away: real)
    requires 0 < binWidth && begin == (visibleMin + b * binWidth) as real
    requires (b as real) - 1.0 < c < (b as real) + 1.0
    ensures away == (c - (b as real)) * (binWidth as real)
    ensures TimeAt(c, visibleMin, binWidth) == begin + away && -(binWidth as real) < away < binWidth as real
  {
    var bw, w := b * binWidth, binWidth as real;
    WholeProduct(b, binWidth);
    assert begin == (visibleMin as real) + (bw as real);
    away := Distribute(c, b as real, w);
  }

  lemma Distribute(a: real, b: real, w: real) returns (away: real)
    requires 0.0 < w && b - 1.0 < a < b + 1.0
    ensures away == (a - b) * w && away == a * w - b * w && -w < away < w
  {
    var off := a - b;
    away := off * w;
    ScaleNear(off, w);
    assert a * w == (b + off) * w == b * w + off * w;
  }

  lemma WholeProduct(a: int, b: int)
    ensures (a * b) as real == (a as real) * (b as real)
  {
  }

  /** MFM: the second and third peak at one and a half and two cells, within 0.2; FM: the second peak
      at two cells, within 0.2. */
  lemma EncodingInNumbers(t: seq<real>)
    requires t != [] && 0.0 < t[0]
    ensures LooksMfm(t) <==>
      |t| >= 3 && -0.2 < t[1] / t[0] - 1.5 < 0.2 && -0.2 < t[2] / t[0] - 2.0 < 0.2
    ensures LooksFm(t) <==> |t| >= 2 && -0.2 < t[1] / t[0] - 2.0 < 0.2
  {
    if |t| >= 2 {
      RatioWithin(t[0], t[1], 1.3);
      RatioWithin(t[0], t[1], 1.7);
      RatioWithin(t[0], t[1], 1.8);
      RatioWithin(t[0], t[1], 2.2);
    }
    if |t| >= 3 {
      RatioWithin(t[0], t[2], 1.8);
      RatioWithin(t[0], t[2], 2.2);
    }
  }
}
