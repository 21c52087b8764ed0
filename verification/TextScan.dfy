/** The forensic scan for hidden text and empty blocks. */
module TextScan {
  predicate Printable(b: bv8) { 0x20 <= b <= 0x7E }

  predicate AllPrintable(data: seq<bv8>, from: int, to: int) {
    0 <= from <= to <= |data| && forall k | from <= k < to :: Printable(data[k])
  }

  /** A maximal printable run starts at `k` and is at least eight bytes long. */
  predicate LongRunAt(data: seq<bv8>, k: int) {
    0 < |data| && AllPrintable(data, k, k + 8) && (k == 0 || !Printable(data[k - 1]))
  }

  /** The starts of long runs before position `n`. */
  function LongRuns(data: seq<bv8>, n: int): set<int> {
    set k | 0 <= k < n && LongRunAt(data, k)
  }

  /** Counts text strings, jumping over each one found and over the byte behind it. */
  method CountText(data: seq<bv8>) returns (textFound: nat)
    ensures textFound == |LongRuns(data, |data|)|
  {
    textFound := 0;
    var i := 0;
    while i < |data| - 4
      invariant 0 <= i <= |data| + 1
      invariant textFound == |LongRuns(data, i)|
      invariant 0 < i < |data| && Printable(data[i - 1]) ==> !AllPrintable(data, i, i + 7)
    {
      if Printable(data[i]) {
        var len := RunLength(data, i);
        if len >= 8 {
          textFound := textFound + 1;
          JumpRun(data, i, len);
          i := i + len;
        } else {
          StepRun(data, i, len);
        }
      } else {
        StepOver(data, i);
      }
      i := i + 1;
    }
    assert LongRuns(data, i) == LongRuns(data, |data|);
  }

  /** The printable bytes from `i` on. */
  method RunLength(data: seq<bv8>, i: int) returns (len: nat)
    requires 0 <= i < |data|
    ensures AllPrintable(data, i, i + len) && (i + len < |data| ==> !Printable(data[i + len]))
  {
    len := 0;
    while i + len < |data| && Printable(data[i + len])
      invariant AllPrintable(data, i, i + len)
    {
      len := len + 1;
    }
  }

  lemma JumpRun(data: seq<bv8>, i: int, len: nat)
    requires 0 <= i < |data| && 8 <= len && AllPrintable(data, i, i + len)
    requires i + len < |data| ==> !Printable(data[i + len])
    requires 0 < i && Printable(data[i - 1]) ==> !AllPrintable(data, i, i + 7)
    ensures |LongRuns(data, i + len + 1)| == |LongRuns(data, i)| + 1
  {
    assert LongRunAt(data, i);
    forall k | i < k <= i + len ensures !LongRunAt(data, k) {
      if k < i + len { assert Printable(data[k - 1]); }
    }
    assert LongRuns(data, i + len + 1) == LongRuns(data, i) + {i};
  }

  lemma StepRun(data: seq<bv8>, i: int, len: nat)
    requires 0 <= i < |data| && 0 < len < 8 && AllPrintable(data, i, i + len)
    requires i + len < |data| ==> !Printable(data[i + len])
    ensures |LongRuns(data, i + 1)| == |LongRuns(data, i)|
    ensures !AllPrintable(data, i + 1, i + 8)
  {
    assert LongRuns(data, i + 1) == LongRuns(data, i);
  }

  lemma StepOver(data: seq<bv8>, i: int)
    requires 0 <= i < |data| && !Printable(data[i])
    ensures LongRuns(data, i + 1) == LongRuns(data, i)
  {
  }

  lemma NoRunBetween(data: seq<bv8>, k: int, n: int)
    requires LongRunAt(data, n) && n - 8 <= k < n
    ensures !LongRunAt(data, k)
  {
  }

  /** Long runs never touch: with the byte between them each takes at least nine positions. */
  lemma {:induction false} RunsNeedRoom(data: seq<bv8>, n: int)
    requires 0 <= n <= |data|
    ensures 9 * |LongRuns(data, n)| <= n + 8
  {
    hide LongRunAt;
    if n > 0 {
      if LongRunAt(data, n - 1) {
        var m := if n > 9 then n - 9 else 0;
        RunsNeedRoom(data, m);
        forall k | m <= k < n - 1 ensures !LongRunAt(data, k) { NoRunBetween(data, k, n - 1); }
        assert LongRuns(data, n) == LongRuns(data, m) + {n - 1};
      } else {
        RunsNeedRoom(data, n - 1);
        assert LongRuns(data, n) == LongRuns(data, n - 1);
      }
    }
  }

  // ---------- Empty blocks ----------

  /** Every byte of block `b` is zero; the last block may be short. */
  predicate ZeroBlock(data: seq<bv8>, b: int) {
    && 0 <= 256 * b < |data|
    && forall k | 256 * b <= k < 256 * b + 256 && k < |data| :: data[k] == 0
  }

  function ZeroBlocks(data: seq<bv8>, n: int): set<int> {
    set b | 0 <= b < n && ZeroBlock(data, b)
  }

  method CountZeroBlocks(data: seq<bv8>) returns (zeroBlocks: nat)
    ensures zeroBlocks == |set b | 0 <= b < |data| && ZeroBlock(data, b)|
  {
    zeroBlocks := 0;
    var i := 0;
    ghost var n := 0;
    while i < |data|
      invariant i == 256 * n && 0 <= n
      invariant zeroBlocks == |ZeroBlocks(data, n)|
    {
      var allZero := true;
      var j := 0;
      while j < 256 && i + j < |data|
        invariant 0 <= j <= 256 && i + j <= |data|
        invariant allZero <==> forall k | i <= k < i + j :: data[k] == 0
      {
        if data[i + j] != 0 {
          allZero := false;
          break;
        }
        j := j + 1;
      }
      assert allZero <==> ZeroBlock(data, n);
      assert ZeroBlocks(data, n + 1) == ZeroBlocks(data, n) + (if allZero then {n} else {});
      if allZero { zeroBlocks := zeroBlocks + 1; }
      i, n := i + 256, n + 1;
    }
    assert ZeroBlocks(data, n) == set b | 0 <= b < |data| && ZeroBlock(data, b);
  }

  /** What is counted: starts of runs of at least eight bytes from 0x20 to 0x7E. */
  lemma LongRunInNumbers(data: seq<bv8>, k: int)
    ensures LongRunAt(data, k) <==>
      && 0 <= k && k + 8 <= |data|
      && (forall j | k <= j < k + 8 :: 0x20 <= data[j] && data[j] <= 0x7E)
      && (k == 0 || data[k - 1] < 0x20 || 0x7E < data[k - 1])
  {
  }

  /** An empty block: 256 zero bytes, or fewer at the end of the data. */
  lemma ZeroBlockInNumbers(data: seq<bv8>, b: nat)
    ensures ZeroBlock(data, b) <==>
      256 * b < |data| && forall k | 256 * b <= k < 256 * (b + 1) && k < |data| :: data[k] == 0
  {
  }
}
