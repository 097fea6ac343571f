/**
 * The read side of the estimator: what its query methods compute from the
 * per-component histories, as functions.  A history is seen only through
 * the three reads the estimator makes of it (`get`, `getTotal`,
 * `getCount`), with the one promise it relies on: `get` answers with as
 * many values as it was asked for.
 */
module Queries {
  import opened Wrappers
  import opened Constants
  import opened Registry
  import opened Aggregation

  /**
   * The reads made of one component's history: `get(uid, iteration, count)`,
   * `getTotal(uid, windowType)` and `getCount(uid, windowType)`.
   */
  datatype HistoryReader = HistoryReader(
    get: (int, int, int) -> seq<int>,
    total: (int, int) -> int,
    count: (int, int) -> int)

  /** `get` returns `count` values whenever `count` is not negative. */
  ghost predicate Conforms(h: HistoryReader) {
    forall uid, iteration, n :: n >= 0 ==> |h.get(uid, iteration, n)| == n
  }

  ghost predicate AllConform(readers: seq<HistoryReader>) {
    forall i :: 0 <= i < |readers| ==> Conforms(readers[i])
  }

  // ---------------------------------------------------------------------
  // Java arithmetic
  // ---------------------------------------------------------------------

  lemma DivBounds(a: int, b: int)
    requires a >= 0 && b > 0
    ensures 0 <= (a / b) * b <= a < (a / b) * b + b
  {
    assert a == (a / b) * b + a % b;
    assert 0 <= a / b;
  }

  /**
   * Java's `/` on integers, for the positive divisors used here: the
   * quotient is rounded toward zero, so its product with the divisor lies
   * between 0 and the dividend, less than one divisor away from it.
   */
  function JavaDiv(a: int, b: int): (q: int)
    requires b > 0
    ensures 0 <= a ==> 0 <= q * b <= a < q * b + b
    ensures a < 0 ==> q * b - b < a <= q * b <= 0
  {
    if a >= 0 then DivBounds(a, b); a / b
    else DivBounds(-a, b); -((-a) / b)
  }

  /** The quotient takes the dividend's sign, and dividing by 1 changes nothing. */
  lemma JavaDivSign(a: int, b: int)
    requires b > 0
    ensures a >= 0 ==> JavaDiv(a, b) >= 0
    ensures a < 0 ==> JavaDiv(a, b) <= 0
    ensures b == 1 ==> JavaDiv(a, b) == a
  {
    if a >= 0 {
      DivBounds(a, b);
    } else {
      DivBounds(-a, b);
    }
  }

  /**
   * The `* ITERATION_INTERVAL / 1000` scaling of the totals and runtimes is
   * the identity while an iteration lasts one second, whatever the sign.
   */
  lemma ScalingIsIdentity(x: int)
    ensures JavaDiv(x * ITERATION_INTERVAL, 1000) == x
  {
  }

  /** Bit `i` of a Java `int` mask, `1 << i`: Java shifts an `int` by `i` modulo 32. */
  function Bit(i: nat): bv32 {
    (1 as bv32) << ShiftAmount(i)
  }

  /** The shift amount Java uses for `1 << i`: the low five bits of `i`. */
  function ShiftAmount(i: nat): bv5 {
    (i % 32) as bv5
  }

  lemma ShiftAmountOfSmall(i: nat)
    requires i < 32
    ensures ShiftAmount(i) as int == i
  {
  }

  /** Whether the mask switches component `i` off: its bit `i` is set. */
  predicate Ignored(mask: bv32, i: nat) {
    mask & Bit(i) != 0
  }

  // ---------------------------------------------------------------------
  // Sums
  // ---------------------------------------------------------------------

  function Sum(a: seq<int>): int
    decreases |a|
  {
    if a == [] then 0 else Sum(a[..|a| - 1]) + a[|a| - 1]
  }

  /** `sumArray(A, ignoreMask)`: the entries whose mask bit is clear. */
  function MaskedSum(a: seq<int>, mask: bv32): int
    decreases |a|
  {
    if a == [] then 0
    else MaskedSum(a[..|a| - 1], mask) + (if Ignored(mask, |a| - 1) then 0 else a[|a| - 1])
  }

  /** With no bit set nothing is ignored. */
  lemma {:induction false} MaskedSumOfEmptyMask(a: seq<int>)
    ensures MaskedSum(a, 0) == Sum(a)
    decreases |a|
  {
    if a != [] {
      MaskedSumOfEmptyMask(a[..|a| - 1]);
    }
  }

  /** The entries whose mask bit is set: what `sumArray` leaves out. */
  function IgnoredSum(a: seq<int>, mask: bv32): int
    decreases |a|
  {
    if a == [] then 0
    else IgnoredSum(a[..|a| - 1], mask) + (if Ignored(mask, |a| - 1) then a[|a| - 1] else 0)
  }

  /** Every entry is either summed or ignored, never both. */
  lemma {:induction false} MaskedSumPartition(a: seq<int>, mask: bv32)
    ensures MaskedSum(a, mask) + IgnoredSum(a, mask) == Sum(a)
    decreases |a|
  {
    if a != [] {
      MaskedSumPartition(a[..|a| - 1], mask);
    }
  }

  /**
   * The masked sum depends on exactly the entries whose bit is clear: an
   * ignored entry can change freely, a counted one moves the sum by its change.
   */
  lemma {:induction false} MaskedSumUpdate(a: seq<int>, mask: bv32, i: nat, v: int)
    requires i < |a|
    ensures Ignored(mask, i) ==> MaskedSum(a[i := v], mask) == MaskedSum(a, mask)
    ensures !Ignored(mask, i) ==> MaskedSum(a[i := v], mask) == MaskedSum(a, mask) - a[i] + v
    decreases |a|
  {
    var n := |a| - 1;
    var b := a[i := v];
    if i < n {
      assert b[..n] == a[..n][i := v];
      MaskedSumUpdate(a[..n], mask, i, v);
    } else {
      assert b[..n] == a[..n];
    }
  }

  // ---------------------------------------------------------------------
  // The no-uid mask
  // ---------------------------------------------------------------------

  /** `getNoUidMask()`: bit `i` set for every component `i` that has no per-uid information. */
  function NoUidMask(comps: seq<Component>): bv32
    decreases |comps|
  {
    if comps == [] then 0
    else if comps[|comps| - 1].hasUidInformation then NoUidMask(comps[..|comps| - 1])
    else NoUidMask(comps[..|comps| - 1]) | Bit(|comps| - 1)
  }

  lemma ShiftedBitsAreDistinct(a: bv5, b: bv5)
    requires a != b
    ensures ((1 as bv32) << a) & ((1 as bv32) << b) == 0
  {
  }

  lemma ShiftedBitIsSet(a: bv5)
    ensures ((1 as bv32) << a) & ((1 as bv32) << a) != 0
  {
  }

  lemma AndDistributes(x: bv32, y: bv32, z: bv32)
    ensures (x | y) & z == (x & z) | (y & z)
  {
  }

  lemma BitsAreDistinct(i: nat, j: nat)
    requires i < 32 && j < 32 && i != j
    ensures Bit(i) & Bit(j) == 0
  {
    ShiftAmountOfSmall(i);
    ShiftAmountOfSmall(j);
    ShiftedBitsAreDistinct(ShiftAmount(i), ShiftAmount(j));
  }

  /** For up to 32 components, bit `i` of the mask is set exactly when component `i` lacks uid information. */
  lemma {:induction false} NoUidMaskBits(comps: seq<Component>, i: nat)
    requires |comps| <= 32 && i < 32
    ensures Ignored(NoUidMask(comps), i) <==> i < |comps| && !comps[i].hasUidInformation
    decreases |comps|
  {
    if comps != [] {
      var n := |comps| - 1;
      var init := comps[..n];
      NoUidMaskBits(init, i);
      if !comps[n].hasUidInformation {
        AndDistributes(NoUidMask(init), Bit(n), Bit(i));
      }
      if i != n {
        BitsAreDistinct(n, i);
      } else {
        ShiftedBitIsSet(ShiftAmount(n));
      }
      if i < n {
        assert init[i] == comps[i];
      }
    }
  }

  // ---------------------------------------------------------------------
  // Component histories
  // ---------------------------------------------------------------------

  /** What every component's history answers to `get(uid, iteration, count)`. */
  function Rows(readers: seq<HistoryReader>, uid: int, iteration: int, count: nat): (r: seq<seq<int>>)
    requires AllConform(readers)
    ensures |r| == |readers| && forall i :: 0 <= i < |r| ==> |r[i]| == count
  {
    seq(|readers|, i requires 0 <= i < |readers| => readers[i].get(uid, iteration, count))
  }

  /** Entry `j` of every row. */
  function Column(rows: seq<seq<int>>, j: nat): seq<int>
    requires forall i :: 0 <= i < |rows| ==> j < |rows[i]|
  {
    seq(|rows|, i requires 0 <= i < |rows| => rows[i][j])
  }

  /** `result[j] += comp[j]` for every `j < |acc|`. */
  function AddRow(acc: seq<int>, row: seq<int>): (r: seq<int>)
    requires |acc| <= |row|
    ensures |r| == |acc|
  {
    seq(|acc|, j requires 0 <= j < |acc| => acc[j] + row[j])
  }

  /** The `ALL_COMPONENTS` answer: a zeroed array of `n` entries with every row added in. */
  function ColumnSums(rows: seq<seq<int>>, n: nat): (r: seq<int>)
    requires forall i :: 0 <= i < |rows| ==> n <= |rows[i]|
    ensures |r| == n
    decreases |rows|
  {
    if rows == [] then seq(n, j => 0)
    else AddRow(ColumnSums(rows[..|rows| - 1], n), rows[|rows| - 1])
  }

  /** Entry `j` of the summed history is the total of entry `j` over the components. */
  lemma {:induction false} ColumnSumsAreColumnTotals(rows: seq<seq<int>>, n: nat)
    requires forall i :: 0 <= i < |rows| ==> n <= |rows[i]|
    ensures forall j :: 0 <= j < n ==> ColumnSums(rows, n)[j] == Sum(Column(rows, j))
    decreases |rows|
  {
    if rows != [] {
      var m := |rows| - 1;
      var init := rows[..m];
      ColumnSumsAreColumnTotals(init, n);
      forall j | 0 <= j < n ensures ColumnSums(rows, n)[j] == Sum(Column(rows, j)) {
        assert Column(rows, j)[..m] == Column(init, j);
      }
    }
  }

  /** The answer of `getComponentHistory`: an array, `null`, or the exception `new int[count]` throws. */
  datatype HistoryAnswer = Values(values: seq<int>) | Null | NegativeSize

  /** The iteration a history query asks about: -1 stands for the last iteration written. */
  function QueriedIteration(iteration: int, lastWritten: int): int {
    if iteration == -1 then lastWritten else iteration
  }

  /** `getComponentHistory(count, componentId, uid, iteration)`. */
  function ComponentHistory(readers: seq<HistoryReader>, count: int, componentId: int, uid: int,
                            iteration: int, lastWritten: int): HistoryAnswer
    requires AllConform(readers)
  {
    var it := QueriedIteration(iteration, lastWritten);
    if componentId == ALL_COMPONENTS then
      if count < 0 then NegativeSize else Values(ColumnSums(Rows(readers, uid, it, count), count))
    else if componentId < 0 || |readers| <= componentId then Null
    else Values(readers[componentId].get(uid, it, count))
  }

  /**
   * The cases of `getComponentHistory`: the sum over all components has
   * `count` entries, each the total of that entry over the components; a
   * component id out of range gives `null`; a valid one gives that
   * component's history as it is; -1 asks about the last iteration written.
   * Only the first case goes beyond `ComponentHistory`'s own case split: it
   * reads the column sums as per-entry totals (`ColumnSumsAreColumnTotals`).
   */
  lemma ComponentHistoryCases(readers: seq<HistoryReader>, count: int, componentId: int, uid: int,
                              iteration: int, lastWritten: int)
    requires AllConform(readers)
    ensures var it := if iteration == -1 then lastWritten else iteration;
      var r := ComponentHistory(readers, count, componentId, uid, iteration, lastWritten);
      && (componentId == ALL_COMPONENTS && count >= 0 ==>
            && r.Values? && |r.values| == count
            && forall j :: 0 <= j < count ==>
                 r.values[j] == Sum(Column(Rows(readers, uid, it, count), j)))
      && (componentId == ALL_COMPONENTS && count < 0 ==> r == NegativeSize)
      && (componentId != ALL_COMPONENTS && (componentId < 0 || componentId >= |readers|) ==> r == Null)
      && (0 <= componentId < |readers| ==> r == Values(readers[componentId].get(uid, it, count)))
  {
    if componentId == ALL_COMPONENTS && count >= 0 {
      var it := if iteration == -1 then lastWritten else iteration;
      ColumnSumsAreColumnTotals(Rows(readers, uid, it, count), count);
    }
  }

  // ---------------------------------------------------------------------
  // Totals, runtime and means
  // ---------------------------------------------------------------------

  /** `getTotals(uid, windowType)`. */
  function Totals(readers: seq<HistoryReader>, uid: int, window: int): (r: seq<int>)
    ensures |r| == |readers|
  {
    seq(|readers|, i requires 0 <= i < |readers| => JavaDiv(readers[i].total(uid, window) * ITERATION_INTERVAL, 1000))
  }

  /** The totals each history reports, unscaled. */
  function HistoryTotals(readers: seq<HistoryReader>, uid: int, window: int): (r: seq<int>)
    ensures |r| == |readers|
  {
    seq(|readers|, i requires 0 <= i < |readers| => readers[i].total(uid, window))
  }

  /** `getTotals` reports each history's total unchanged. */
  lemma TotalsAreHistoryTotals(readers: seq<HistoryReader>, uid: int, window: int)
    ensures Totals(readers, uid, window) == HistoryTotals(readers, uid, window)
  {
    forall i | 0 <= i < |readers|
      ensures Totals(readers, uid, window)[i] == HistoryTotals(readers, uid, window)[i]
    {
      ScalingIsIdentity(readers[i].total(uid, window));
    }
  }

  /** The running maximum of `getRuntime`'s loop, which starts at 0. */
  function MaxCount(readers: seq<HistoryReader>, uid: int, window: int): (r: int)
    ensures r >= 0
    ensures forall i :: 0 <= i < |readers| ==> readers[i].count(uid, window) <= r
    ensures r == 0 || exists i :: 0 <= i < |readers| && r == readers[i].count(uid, window)
    decreases |readers|
  {
    if readers == [] then 0
    else
      var m := MaxCount(readers[..|readers| - 1], uid, window);
      var c := readers[|readers| - 1].count(uid, window);
      assert forall i :: 0 <= i < |readers| - 1 ==> readers[..|readers| - 1][i] == readers[i];
      if c > m then c else m
  }

  /** `getRuntime(uid, windowType)`. */
  function Runtime(readers: seq<HistoryReader>, uid: int, window: int): int {
    JavaDiv(MaxCount(readers, uid, window) * ITERATION_INTERVAL, 1000)
  }

  /**
   * The runtime is the largest entry count over the components (0 when no
   * component has a positive count): never negative, at least every count,
   * and one of them unless it is 0.
   */
  lemma RuntimeIsLargestCount(readers: seq<HistoryReader>, uid: int, window: int)
    ensures Runtime(readers, uid, window) == MaxCount(readers, uid, window)
    ensures Runtime(readers, uid, window) >= 0
    ensures forall i :: 0 <= i < |readers| ==> readers[i].count(uid, window) <= Runtime(readers, uid, window)
  {
    ScalingIsIdentity(MaxCount(readers, uid, window));
  }

  /** The divisor of `getMeans`: the runtime, or 1 when it is 0. */
  function MeanDivisor(runtime: int): int {
    if runtime == 0 then 1 else runtime
  }

  /** `getMeans(uid, windowType)`. */
  function Means(readers: seq<HistoryReader>, uid: int, window: int): (r: seq<int>)
    ensures |r| == |readers|
  {
    var totals := Totals(readers, uid, window);
    var runtime := Runtime(readers, uid, window);
    RuntimeIsLargestCount(readers, uid, window);
    seq(|readers|, i requires 0 <= i < |readers| => JavaDiv(totals[i], MeanDivisor(runtime)))
  }

  /**
   * The means never divide by zero: each is a component's total divided by
   * the runtime, truncated toward zero as Java does, and is the total
   * itself when there is no runtime.
   */
  lemma MeansAreAverages(readers: seq<HistoryReader>, uid: int, window: int, i: nat)
    requires i < |readers|
    ensures var d := MeanDivisor(Runtime(readers, uid, window));
      var mean := Means(readers, uid, window)[i];
      var total := readers[i].total(uid, window);
      && d > 0
      && (total >= 0 ==> 0 <= mean && mean * d <= total < mean * d + d)
      && (total < 0 ==> mean <= 0 && mean * d - d < total <= mean * d)
      && (Runtime(readers, uid, window) == 0 ==> mean == total)
  {
    RuntimeIsLargestCount(readers, uid, window);
    TotalsAreHistoryTotals(readers, uid, window);
    var d := MeanDivisor(Runtime(readers, uid, window));
    var total := readers[i].total(uid, window);
    assert Totals(readers, uid, window)[i] == total;
    assert Means(readers, uid, window)[i] == JavaDiv(total, d);
    JavaDivSign(total, d);
  }

  // ---------------------------------------------------------------------
  // Per-uid summaries
  // ---------------------------------------------------------------------

  /** One entry of `getUidInfo`. */
  datatype UidInfo = UidInfo(uid: int, currentPower: int, totalEnergy: int, runtime: int)

  /** The latest value of every component's history for `uid`: `get(uid, iteration, 1)[0]`. */
  function LatestValues(readers: seq<HistoryReader>, uid: int, iteration: int): (r: seq<int>)
    requires AllConform(readers)
    ensures |r| == |readers|
  {
    seq(|readers|, i requires 0 <= i < |readers| => readers[i].get(uid, iteration, 1)[0])
  }

  /** The summary of `uid` as `getUidInfo` builds it. */
  function UidInfoOf(readers: seq<HistoryReader>, uid: int, iteration: int, window: int, mask: bv32): UidInfo
    requires AllConform(readers)
  {
    UidInfo(uid,
            MaskedSum(LatestValues(readers, uid, iteration), mask),
            JavaDiv(MaskedSum(Totals(readers, uid, window), mask) * ITERATION_INTERVAL, 1000),
            JavaDiv(Runtime(readers, uid, window) * ITERATION_INTERVAL, 1000))
  }

  /**
   * A uid's summary: its current power is the latest value of the
   * components the mask does not ignore, its energy the total of those
   * components' histories, and its runtime the largest entry count.
   */
  lemma UidInfoMeaning(readers: seq<HistoryReader>, uid: int, iteration: int, window: int, mask: bv32)
    requires AllConform(readers)
    ensures var info := UidInfoOf(readers, uid, iteration, window, mask);
      && info.uid == uid
      && info.currentPower == MaskedSum(LatestValues(readers, uid, iteration), mask)
      && info.totalEnergy == MaskedSum(HistoryTotals(readers, uid, window), mask)
      && info.runtime == MaxCount(readers, uid, window)
  {
    TotalsAreHistoryTotals(readers, uid, window);
    ScalingIsIdentity(MaskedSum(Totals(readers, uid, window), mask));
    RuntimeIsLargestCount(readers, uid, window);
    ScalingIsIdentity(Runtime(readers, uid, window));
  }

  /** `getUidInfo`: one summary per uid, in the order the uids are walked. */
  function UidInfos(readers: seq<HistoryReader>, uids: seq<int>, iteration: int, window: int, mask: bv32): (r: seq<UidInfo>)
    requires AllConform(readers)
    ensures |r| == |uids| && forall k :: 0 <= k < |r| ==> r[k].uid == uids[k]
  {
    seq(|uids|, k requires 0 <= k < |uids| => UidInfoOf(readers, uids[k], iteration, window, mask))
  }

  /** A sequence that agrees with `UidInfos` at every position is `UidInfos`. */
  lemma UidInfosPointwise(r: seq<UidInfo>, readers: seq<HistoryReader>, uids: seq<int>, iteration: int, window: int, mask: bv32)
    requires AllConform(readers)
    requires |r| == |uids|
    requires forall k :: 0 <= k < |r| ==> r[k] == UidInfoOf(readers, uids[k], iteration, window, mask)
    ensures r == UidInfos(readers, uids, iteration, window, mask)
  {
  }

  /**
   * Walking the registry's keys, `getUidInfo` reports every uid of the
   * registry exactly once (system uids included) and nothing else; each
   * summary means what `UidInfoMeaning` says.
   */
  lemma UidInfosListRegistry(readers: seq<HistoryReader>, names: Names, iteration: int, window: int, mask: bv32)
    requires AllConform(readers)
    ensures var r := UidInfos(readers, SortedKeys(names.Keys), iteration, window, mask);
      && (forall u :: u in names <==> exists k :: 0 <= k < |r| && r[k].uid == u)
      && (forall i, j :: 0 <= i < j < |r| ==> r[i].uid < r[j].uid)
  {
    var keys := SortedKeys(names.Keys);
    SortedKeysSpec(names.Keys);
    var r := UidInfos(readers, keys, iteration, window, mask);
    forall u | u in names ensures exists k :: 0 <= k < |r| && r[k].uid == u {
      var k :| 0 <= k < |keys| && keys[k] == u;
      assert r[k].uid == u;
    }
  }
}
