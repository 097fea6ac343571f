/**
 * What one pass of the estimator loop computes, as functions of its inputs:
 * the next iteration index, the power sums, the samples handed to the
 * per-component histories, the uids visited by the registry update, and the
 * lines of the iteration's log block.  The class in the Estimator module
 * performs these steps in place and is proved against these functions.
 */
module Aggregation {
  import opened Wrappers
  import opened Constants
  import opened LogText
  import opened Registry
  import opened Sequences

  /** One uid's reading of a component: the power its power function gave, and the component's extra log lines. */
  datatype UidPower = UidPower(uid: int, power: int, logInfo: seq<string>)

  /** What `getData(iter)` hands over: `None` when the component has no data for the iteration. */
  type ComponentData = Option<seq<UidPower>>

  /** A power component as this core sees it. */
  datatype Component = Component(name: string, hasUidInformation: bool)

  /** One `HistoryBuffer.add(uid, iteration, power)` call. */
  datatype Sample = Sample(uid: int, iteration: int, power: int)

  /** A battery current reading and its rendering in the log. */
  datatype Reading = Reading(value: int, text: string)

  /**
   * The outside world of one iteration: clock, battery and settings values
   * the loop reads (`None` or -1 where the platform has none).
   */
  datatype Environment = Environment(
    timeMillis: int,
    localtimeOffset: int,
    modelName: string,
    notificationsActive: bool,
    fullCapacity: Option<string>,
    current: Option<Reading>,
    temperature: Option<string>,
    charge: Option<string>,
    brightnessAutomatic: bool,
    brightness: int,
    screenTimeout: int,
    httpProxy: Option<string>)

  // ---------------------------------------------------------------------
  // The iteration clock
  // ---------------------------------------------------------------------

  /**
   * The iteration processed after `iter` when `elapsed` milliseconds have
   * passed since the loop began: the next index, or the current tick if the
   * loop has fallen behind.
   */
  function NextIteration(iter: int, elapsed: nat): (r: int)
    ensures r > iter && r >= elapsed / ITERATION_INTERVAL
    ensures r == iter + 1 || r == elapsed / ITERATION_INTERVAL
  {
    if iter + 1 >= elapsed / ITERATION_INTERVAL then iter + 1 else elapsed / ITERATION_INTERVAL
  }

  /** The sleep before the data of iteration `NextIteration(iter, elapsed)` is read. */
  function SleepMillis(iter: int, elapsed: nat): int {
    (NextIteration(iter, elapsed) + 1) * ITERATION_INTERVAL - elapsed
  }

  /** The loop never asks `Thread.sleep` for a negative or zero delay: it always waits for the end of an iteration still to come. */
  lemma SleepIsPositive(iter: int, elapsed: nat)
    ensures 0 < SleepMillis(iter, elapsed)
  {
    var n := NextIteration(iter, elapsed);
    assert elapsed < (elapsed / ITERATION_INTERVAL + 1) * ITERATION_INTERVAL;
    assert (elapsed / ITERATION_INTERVAL + 1) * ITERATION_INTERVAL <= (n + 1) * ITERATION_INTERVAL;
  }

  /** The iteration indices of consecutive passes, starting after `iter`, for the elapsed times read at each pass. */
  function Iterations(iter: int, elapsed: seq<nat>): seq<int>
    decreases |elapsed|
  {
    if elapsed == [] then []
    else
      var next := NextIteration(iter, elapsed[0]);
      [next] + Iterations(next, elapsed[1..])
  }

  /**
   * Over any run of the loop the iteration index strictly increases, so no
   * iteration is processed twice, and no pass is behind the clock.
   */
  lemma {:induction false} IterationsIncrease(iter: int, elapsed: seq<nat>)
    ensures var its := Iterations(iter, elapsed);
      && |its| == |elapsed|
      && (forall k :: 0 <= k < |its| ==> its[k] > iter && its[k] >= elapsed[k] / ITERATION_INTERVAL)
      && (forall i, j :: 0 <= i < j < |its| ==> its[i] < its[j])
    decreases |elapsed|
  {
    if elapsed != [] {
      var next := NextIteration(iter, elapsed[0]);
      IterationsIncrease(next, elapsed[1..]);
      var its := Iterations(iter, elapsed);
      var rest := Iterations(next, elapsed[1..]);
      assert its == [next] + rest;
      forall k | 0 < k < |its|
        ensures its[k] == rest[k - 1] && elapsed[k] == elapsed[1..][k - 1]
      {
      }
    }
  }

  // ---------------------------------------------------------------------
  // Power
  // ---------------------------------------------------------------------

  /** Power of the AID_ALL entries: what a component adds to `totalPower`. */
  function AllPower(es: seq<UidPower>): int
    decreases |es|
  {
    if es == [] then 0
    else AllPower(es[..|es| - 1]) + (if es[|es| - 1].uid == AID_ALL then es[|es| - 1].power else 0)
  }

  /** Power of the per-uid entries: a component's `compPower`. */
  function UidsPower(es: seq<UidPower>): int
    decreases |es|
  {
    if es == [] then 0
    else UidsPower(es[..|es| - 1]) + (if es[|es| - 1].uid != AID_ALL then es[|es| - 1].power else 0)
  }

  /** Power of every entry. */
  function EntriesPower(es: seq<UidPower>): int
    decreases |es|
  {
    if es == [] then 0 else EntriesPower(es[..|es| - 1]) + es[|es| - 1].power
  }

  function ComponentAllPower(d: ComponentData): int {
    if d.None? then 0 else AllPower(d.value)
  }

  function ComponentUidsPower(d: ComponentData): int {
    if d.None? then 0 else UidsPower(d.value)
  }

  /** `totalPower` after the accumulation loop. */
  function TotalPower(data: seq<ComponentData>): int
    decreases |data|
  {
    if data == [] then 0 else TotalPower(data[..|data| - 1]) + ComponentAllPower(data[|data| - 1])
  }

  /** Every reading goes to exactly one of `totalPower` (AID_ALL) and `compPower` (other uids). */
  lemma {:induction false} PowerIsPartitioned(es: seq<UidPower>)
    ensures AllPower(es) + UidsPower(es) == EntriesPower(es)
    decreases |es|
  {
    if es != [] {
      PowerIsPartitioned(es[..|es| - 1]);
    }
  }

  lemma {:induction false} TotalPowerAppend(a: seq<ComponentData>, b: seq<ComponentData>)
    ensures TotalPower(a + b) == TotalPower(a) + TotalPower(b)
    decreases |b|
  {
    if b != [] {
      var init := b[..|b| - 1];
      assert (a + b)[..|a + b| - 1] == a + init;
      assert (a + b)[|a + b| - 1] == b[|b| - 1];
      TotalPowerAppend(a, init);
    } else {
      assert a + b == a;
    }
  }

  // ---------------------------------------------------------------------
  // Samples for the histories and uids for the registry
  // ---------------------------------------------------------------------

  /** The `add` calls one component's data makes on its history, in entry order. */
  function Adds(d: ComponentData, iteration: int): seq<Sample> {
    if d.None? then []
    else seq(|d.value|, k requires 0 <= k < |d.value| => Sample(d.value[k].uid, iteration, d.value[k].power))
  }

  /** Power of the AID_ALL samples among `samples`. */
  function SamplesAllPower(samples: seq<Sample>): int
    decreases |samples|
  {
    if samples == [] then 0
    else SamplesAllPower(samples[..|samples| - 1])
         + (if samples[|samples| - 1].uid == AID_ALL then samples[|samples| - 1].power else 0)
  }

  /**
   * The AID_ALL samples a component hands to its history carry exactly the
   * power it adds to `totalPower`, so totals computed from the histories
   * reconcile with the logged total.
   */
  lemma {:induction false} AddsCarryAllPower(es: seq<UidPower>, iteration: int)
    ensures SamplesAllPower(Adds(Some(es), iteration)) == AllPower(es)
    decreases |es|
  {
    if es != [] {
      var init := es[..|es| - 1];
      AddsCarryAllPower(init, iteration);
      assert Adds(Some(es), iteration)[..|es| - 1] == Adds(Some(init), iteration);
    }
  }

  /** The uids of one component's data, in entry order. */
  function Uids(d: ComponentData): seq<int> {
    if d.None? then [] else seq(|d.value|, k requires 0 <= k < |d.value| => d.value[k].uid)
  }

  lemma UidsSnoc(es: seq<UidPower>, e: UidPower)
    ensures Uids(Some(es + [e])) == Uids(Some(es)) + [e.uid]
  {
  }

  /** The uids the registry update visits, component by component. */
  function DataUids(data: seq<ComponentData>): seq<int>
    decreases |data|
  {
    if data == [] then [] else DataUids(data[..|data| - 1]) + Uids(data[|data| - 1])
  }

  lemma {:induction false} DataUidsAppend(a: seq<ComponentData>, b: seq<ComponentData>)
    ensures DataUids(a + b) == DataUids(a) + DataUids(b)
    decreases |b|
  {
    if b != [] {
      var init := b[..|b| - 1];
      assert (a + b)[..|a + b| - 1] == a + init;
      assert (a + b)[|a + b| - 1] == b[|b| - 1];
      DataUidsAppend(a, init);
    } else {
      assert a + b == a;
    }
  }

  // ---------------------------------------------------------------------
  // Log lines
  // ---------------------------------------------------------------------

  /** `batt_current+…`, every 60 iterations, only when the current has changed. */
  function CurrentLines(iter: nat, env: Environment, lastCurrent: int): seq<string> {
    if env.current.Some? && iter % CURRENT_INTERVAL == 0 && env.current.value.value != lastCurrent
    then ["batt_current+" + env.current.value.text]
    else []
  }

  /** The battery current remembered for the next comparison. */
  function NextLastCurrent(iter: nat, env: Environment, lastCurrent: int): int {
    if env.current.Some? && iter % CURRENT_INTERVAL == 0 then env.current.value.value else lastCurrent
  }

  /** `batt_temp+…` and `batt_charge+…`, every 300 iterations, where the battery reports them. */
  function BatteryLines(iter: nat, env: Environment): seq<string> {
    if iter % BATTERY_INTERVAL == 0 then
      (if env.temperature.Some? then ["batt_temp+" + env.temperature.value] else [])
      + (if env.charge.Some? then ["batt_charge+" + env.charge.value] else [])
    else []
  }

  /** Brightness, screen timeout and proxy settings, every 1800 iterations. */
  function SettingsLines(iter: nat, env: Environment): seq<string> {
    if iter % SETTINGS_INTERVAL == 0 then
      (if env.brightnessAutomatic then ["setting_brightness+automatic"]
       else if env.brightness != -1 then [KeyedLine("setting_brightness", env.brightness)]
       else [])
      + (if env.screenTimeout != -1 then [KeyedLine("setting_screen_timeout", env.screenTimeout)] else [])
      + (if env.httpProxy.Some? then ["setting_httpproxy " + env.httpProxy.value] else [])
    else []
  }

  /** The periodic environment snapshot written after `begin+<iter>`. */
  function EnvLines(iter: nat, env: Environment, lastCurrent: int): seq<string> {
    CurrentLines(iter, env, lastCurrent) + BatteryLines(iter, env) + SettingsLines(iter, env)
  }

  /** The header's description of the run: interval, clock, time zone, model, notifications, capacity. */
  function HeaderInfo(env: Environment): seq<string> {
    [ KeyedLine("iteration_interval", ITERATION_INTERVAL),
      KeyedLine("time", env.timeMillis),
      KeyedLine("localtime_offset", env.localtimeOffset),
      "model+" + env.modelName ]
    + (if env.notificationsActive then ["notifications-active"] else [])
    + (if env.fullCapacity.Some? then ["batt_full_capacity+" + env.fullCapacity.value] else [])
  }

  /** The one-time header of the first logged iteration: the run's description, then the registry's applications. */
  function HeaderLines(env: Environment, names: Names): seq<string> {
    HeaderInfo(env) + HeaderAssociations(names)
  }

  /** The lines for one uid of a component. */
  function EntryLog(component: string, e: UidPower, uidName: int -> string): seq<string> {
    if e.uid == AID_ALL then e.logInfo + [AllLine(component, e.power)]
    else [UidLine(component, e.uid, uidName(e.uid), e.power)]
  }

  function EntriesLog(component: string, es: seq<UidPower>, uidName: int -> string): seq<string>
    decreases |es|
  {
    if es == [] then [] else EntriesLog(component, es[..|es| - 1], uidName) + EntryLog(component, es[|es| - 1], uidName)
  }

  lemma EntriesLogSnoc(component: string, es: seq<UidPower>, e: UidPower, uidName: int -> string)
    ensures EntriesLog(component, es + [e], uidName) == EntriesLog(component, es, uidName) + EntryLog(component, e, uidName)
  {
    assert (es + [e])[..|es|] == es;
  }

  function ComponentLog(c: Component, d: ComponentData, uidName: int -> string): seq<string> {
    if d.None? then [] else EntriesLog(c.name, d.value, uidName)
  }

  /** The component lines of the block, component by component. */
  function ComponentsLog(comps: seq<Component>, data: seq<ComponentData>, uidName: int -> string): seq<string>
    requires |comps| == |data|
    decreases |data|
  {
    if data == [] then []
    else ComponentsLog(comps[..|comps| - 1], data[..|data| - 1], uidName)
         + ComponentLog(comps[|comps| - 1], data[|data| - 1], uidName)
  }

  /** What is written while the log lock is held: header (first time), total, components, end marker. */
  function BodyLines(first: bool, env: Environment, names: Names, totalPower: int,
                     comps: seq<Component>, data: seq<ComponentData>, uidName: int -> string): seq<string>
    requires |comps| == |data|
  {
    (if first then HeaderLines(env, names) else [])
    + [TotalPowerLine(totalPower)]
    + ComponentsLog(comps, data, uidName)
    + [EndMarker]
  }

  /** The whole block of one iteration, from `begin+<iter>` to the end marker. */
  function IterationBlock(iter: nat, env: Environment, lastCurrent: int, first: bool, names: Names,
                          totalPower: int, comps: seq<Component>, data: seq<ComponentData>,
                          uidName: int -> string): seq<string>
    requires |comps| == |data|
  {
    [BeginLine(iter)] + EnvLines(iter, env, lastCurrent) + BodyLines(first, env, names, totalPower, comps, data, uidName)
  }

  // ---------------------------------------------------------------------
  // Properties of the log block
  // ---------------------------------------------------------------------

  lemma {:induction false} ComponentsLogAppend(c1: seq<Component>, d1: seq<ComponentData>,
                                               c2: seq<Component>, d2: seq<ComponentData>, uidName: int -> string)
    requires |c1| == |d1| && |c2| == |d2|
    ensures ComponentsLog(c1 + c2, d1 + d2, uidName) == ComponentsLog(c1, d1, uidName) + ComponentsLog(c2, d2, uidName)
    decreases |d2|
  {
    if d2 != [] {
      var ci := c2[..|c2| - 1];
      var di := d2[..|d2| - 1];
      assert (c1 + c2)[..|c1 + c2| - 1] == c1 + ci;
      assert (d1 + d2)[..|d1 + d2| - 1] == d1 + di;
      assert (c1 + c2)[|c1 + c2| - 1] == c2[|c2| - 1];
      assert (d1 + d2)[|d1 + d2| - 1] == d2[|d2| - 1];
      ComponentsLogAppend(c1, d1, ci, di, uidName);
    } else {
      assert c1 + c2 == c1 && d1 + d2 == d1;
    }
  }

  /** The component lines up to component `i` inclusive: those before it, then its own. */
  lemma ComponentsLogPrefix(comps: seq<Component>, data: seq<ComponentData>, i: nat, uidName: int -> string)
    requires |comps| == |data| && i < |data|
    ensures ComponentsLog(comps[..i + 1], data[..i + 1], uidName)
            == ComponentsLog(comps[..i], data[..i], uidName) + ComponentLog(comps[i], data[i], uidName)
  {
    assert comps[..i + 1][..i] == comps[..i];
    assert data[..i + 1][..i] == data[..i];
  }

  lemma MissingAddsNoPower(d0: seq<ComponentData>, d2: seq<ComponentData>)
    ensures TotalPower(d0 + [None] + d2) == TotalPower(d0 + d2)
  {
    TotalPowerAppend(d0 + [None], d2);
    TotalPowerAppend(d0, [None]);
    TotalPowerAppend(d0, d2);
    var none: seq<ComponentData> := [None];
    assert none[..0] == [];
    assert TotalPower(none) == 0;
  }

  lemma MissingAddsNoUids(d0: seq<ComponentData>, d2: seq<ComponentData>)
    ensures DataUids(d0 + [None] + d2) == DataUids(d0 + d2)
  {
    var none: seq<ComponentData> := [None];
    assert none[..0] == [];
    assert DataUids(none) == [];
    DataUidsAppend(d0 + none, d2);
    DataUidsAppend(d0, none);
    DataUidsAppend(d0, d2);
    calc {
      DataUids(d0 + none + d2);
      DataUids(d0 + none) + DataUids(d2);
      DataUids(d0) + DataUids(none) + DataUids(d2);
      { assert DataUids(d0) + [] == DataUids(d0); }
      DataUids(d0) + DataUids(d2);
      DataUids(d0 + d2);
    }
  }

  lemma MissingAddsNoLines(c0: seq<Component>, c: Component, c2: seq<Component>,
                           d0: seq<ComponentData>, d2: seq<ComponentData>, uidName: int -> string)
    requires |c0| == |d0| && |c2| == |d2|
    ensures ComponentsLog(c0 + [c] + c2, d0 + [None] + d2, uidName) == ComponentsLog(c0 + c2, d0 + d2, uidName)
  {
    var none: seq<ComponentData> := [None];
    assert [c][..0] == [] && none[..0] == [];
    assert ComponentsLog([c], none, uidName) == [];
    ComponentsLogAppend(c0 + [c], d0 + none, c2, d2, uidName);
    ComponentsLogAppend(c0, d0, [c], none, uidName);
    ComponentsLogAppend(c0, d0, c2, d2, uidName);
    calc {
      ComponentsLog(c0 + [c] + c2, d0 + none + d2, uidName);
      ComponentsLog(c0 + [c], d0 + none, uidName) + ComponentsLog(c2, d2, uidName);
      ComponentsLog(c0, d0, uidName) + ComponentsLog([c], none, uidName) + ComponentsLog(c2, d2, uidName);
      { assert ComponentsLog(c0, d0, uidName) + [] == ComponentsLog(c0, d0, uidName); }
      ComponentsLog(c0, d0, uidName) + ComponentsLog(c2, d2, uidName);
      ComponentsLog(c0 + c2, d0 + d2, uidName);
    }
  }

  /**
   * A component without data for the iteration is skipped: the total, the
   * uids the registry visits, the samples added and the log lines are those
   * of the remaining components.
   */
  lemma MissingComponentIsSkipped(comps: seq<Component>, data: seq<ComponentData>, i: nat, iteration: int,
                                  uidName: int -> string)
    requires |comps| == |data| && i < |data| && data[i].None?
    ensures TotalPower(data) == TotalPower(data[..i] + data[i + 1..])
    ensures DataUids(data) == DataUids(data[..i] + data[i + 1..])
    ensures Adds(data[i], iteration) == []
    ensures ComponentsLog(comps, data, uidName)
            == ComponentsLog(comps[..i] + comps[i + 1..], data[..i] + data[i + 1..], uidName)
  {
    var d0, d2 := data[..i], data[i + 1..];
    var c0, c2 := comps[..i], comps[i + 1..];
    SplitAround(data, i);
    SplitAround(comps, i);
    assert data[i] == None;
    MissingAddsNoPower(d0, d2);
    MissingAddsNoUids(d0, d2);
    MissingAddsNoLines(c0, comps[i], c2, d0, d2, uidName);
  }

  /** What a component line carries, as `ParseComponentLine` should read it back. */
  function RecordOf(component: string, e: UidPower): ComponentRecord {
    ComponentRecord(component, if e.uid == AID_ALL then None else Some(e.uid), e.power)
  }

  /**
   * Reading back the lines of a component (whose name has no `+` and that
   * writes no extra lines) gives one record per uid, in order, with the
   * power that was aggregated.
   */
  lemma EntryLogReadsBack(component: string, e: UidPower, uidName: int -> string)
    requires '+' !in component && e.logInfo == []
    ensures |EntryLog(component, e, uidName)| == 1
    ensures ParseComponentLine(EntryLog(component, e, uidName)[0]) == Some(RecordOf(component, e))
  {
    if e.uid == AID_ALL {
      assert EntryLog(component, e, uidName) == [AllLine(component, e.power)];
      AllLineRoundTrip(component, e.power);
    } else {
      UidLineRoundTrip(component, e.uid, uidName(e.uid), e.power);
    }
  }

  /**
   * Whatever extra lines a reading carries, the last of its lines is its
   * component line, and it parses back to the reading's component, uid and power.
   */
  lemma EntryLogLastReadsBack(component: string, e: UidPower, uidName: int -> string)
    requires '+' !in component
    ensures var lines := EntryLog(component, e, uidName);
      |lines| >= 1 && ParseComponentLine(lines[|lines| - 1]) == Some(RecordOf(component, e))
  {
    if e.uid == AID_ALL {
      AllLineRoundTrip(component, e.power);
    } else {
      UidLineRoundTrip(component, e.uid, uidName(e.uid), e.power);
    }
  }

  /** What the parser reads from each of `lines`. */
  function ParseLines(lines: seq<string>): (r: seq<Option<ComponentRecord>>)
    ensures |r| == |lines|
    decreases |lines|
  {
    if lines == [] then [] else ParseLines(lines[..|lines| - 1]) + [ParseComponentLine(lines[|lines| - 1])]
  }

  lemma {:induction false} ParseLinesAppend(a: seq<string>, b: seq<string>)
    ensures ParseLines(a + b) == ParseLines(a) + ParseLines(b)
    decreases |b|
  {
    if b != [] {
      var init := b[..|b| - 1];
      assert (a + b)[..|a + b| - 1] == a + init;
      assert (a + b)[|a + b| - 1] == b[|b| - 1];
      ParseLinesAppend(a, init);
    } else {
      assert a + b == a;
    }
  }

  /** The records a component's entries should read back as, in entry order. */
  function RecordsOf(component: string, es: seq<UidPower>): (r: seq<Option<ComponentRecord>>)
    ensures |r| == |es|
    decreases |es|
  {
    if es == [] then [] else RecordsOf(component, es[..|es| - 1]) + [Some(RecordOf(component, es[|es| - 1]))]
  }

  lemma {:induction false} EntriesLogReadsBack(component: string, es: seq<UidPower>, uidName: int -> string)
    requires '+' !in component
    requires forall k :: 0 <= k < |es| ==> es[k].logInfo == []
    ensures ParseLines(EntriesLog(component, es, uidName)) == RecordsOf(component, es)
    decreases |es|
  {
    if es != [] {
      var n := |es| - 1;
      var init := es[..n];
      var e := es[n];
      assert es == init + [e];
      assert forall k :: 0 <= k < n ==> init[k] == es[k];
      EntriesLogReadsBack(component, init, uidName);
      EntryLogReadsBack(component, e, uidName);
      var last := EntryLog(component, e, uidName);
      EntriesLogSnoc(component, init, e, uidName);
      ParseLinesAppend(EntriesLog(component, init, uidName), last);
      assert ParseLines(last) == [Some(RecordOf(component, e))] by {
        assert last[..0] == [];
      }
    }
  }

  /** The records the component lines of a block should read back as: those of each component with data, in order. */
  function ComponentsRecords(comps: seq<Component>, data: seq<ComponentData>): seq<Option<ComponentRecord>>
    requires |comps| == |data|
    decreases |data|
  {
    if data == [] then []
    else
      var n := |data| - 1;
      ComponentsRecords(comps[..n], data[..n])
      + (if data[n].Some? then RecordsOf(comps[n].name, data[n].value) else [])
  }

  /**
   * Reading back all component lines of a block gives, in component order,
   * one record per reading of every component that had data, with that
   * reading's component, uid and power.
   */
  lemma {:induction false} ComponentsLogReadsBack(comps: seq<Component>, data: seq<ComponentData>, uidName: int -> string)
    requires |comps| == |data|
    requires forall i :: 0 <= i < |comps| ==> '+' !in comps[i].name
    requires forall i, k :: 0 <= i < |data| && data[i].Some? && 0 <= k < |data[i].value| ==> data[i].value[k].logInfo == []
    ensures ParseLines(ComponentsLog(comps, data, uidName)) == ComponentsRecords(comps, data)
    decreases |data|
  {
    if data != [] {
      var n := |data| - 1;
      ComponentsLogReadsBack(comps[..n], data[..n], uidName);
      ParseLinesAppend(ComponentsLog(comps[..n], data[..n], uidName), ComponentLog(comps[n], data[n], uidName));
      if data[n].Some? {
        EntriesLogReadsBack(comps[n].name, data[n].value, uidName);
      } else {
        assert ParseLines([]) == [];
      }
    }
  }

  /** No extra line of any component is the end-of-iteration marker. */
  ghost predicate InfoAvoidsEndMarker(data: seq<ComponentData>) {
    forall i, e :: 0 <= i < |data| && data[i].Some? && e in data[i].value ==> EndMarker !in e.logInfo
  }

  lemma EntryLogAvoidsEndMarker(component: string, e: UidPower, uidName: int -> string)
    requires EndMarker !in e.logInfo
    ensures EndMarker !in EntryLog(component, e, uidName)
  {
    if e.uid == AID_ALL {
      AllLineIsNotEnd(component, e.power);
    } else {
      UidLineIsNotEnd(component, e.uid, uidName(e.uid), e.power);
    }
  }

  lemma {:induction false} EntriesLogAvoidsEndMarker(component: string, es: seq<UidPower>, uidName: int -> string)
    requires forall e :: e in es ==> EndMarker !in e.logInfo
    ensures EndMarker !in EntriesLog(component, es, uidName)
    decreases |es|
  {
    if es != [] {
      var init := es[..|es| - 1];
      var e := es[|es| - 1];
      assert forall x :: x in init ==> x in es;
      EntriesLogAvoidsEndMarker(component, init, uidName);
      EntryLogAvoidsEndMarker(component, e, uidName);
    }
  }

  lemma {:induction false} ComponentsLogAvoidsEndMarker(comps: seq<Component>, data: seq<ComponentData>, uidName: int -> string)
    requires |comps| == |data|
    requires InfoAvoidsEndMarker(data)
    ensures EndMarker !in ComponentsLog(comps, data, uidName)
    decreases |data|
  {
    if data != [] {
      var n := |data| - 1;
      assert InfoAvoidsEndMarker(data[..n]) by {
        forall i | 0 <= i < n ensures data[..n][i] == data[i] {
        }
      }
      ComponentsLogAvoidsEndMarker(comps[..n], data[..n], uidName);
      if data[n].Some? {
        EntriesLogAvoidsEndMarker(comps[n].name, data[n].value, uidName);
      }
    }
  }

  lemma CurrentLinesAvoidEndMarker(iter: nat, env: Environment, lastCurrent: int)
    ensures EndMarker !in CurrentLines(iter, env, lastCurrent)
  {
    if env.current.Some? {
      JoinedIsNotEnd("batt_current", env.current.value.text);
    }
  }

  lemma BatteryLinesAvoidEndMarker(iter: nat, env: Environment)
    ensures EndMarker !in BatteryLines(iter, env)
  {
    var temp := if env.temperature.Some? then ["batt_temp+" + env.temperature.value] else [];
    var charge := if env.charge.Some? then ["batt_charge+" + env.charge.value] else [];
    if env.temperature.Some? {
      JoinedIsNotEnd("batt_temp", env.temperature.value);
    }
    if env.charge.Some? {
      JoinedIsNotEnd("batt_charge", env.charge.value);
    }
    assert EndMarker !in temp + charge;
  }

  lemma SettingsLinesAvoidEndMarker(iter: nat, env: Environment)
    ensures EndMarker !in SettingsLines(iter, env)
  {
    var brightness := if env.brightnessAutomatic then ["setting_brightness+automatic"]
                      else if env.brightness != -1 then [KeyedLine("setting_brightness", env.brightness)]
                      else [];
    var timeout := if env.screenTimeout != -1 then [KeyedLine("setting_screen_timeout", env.screenTimeout)] else [];
    var proxy := if env.httpProxy.Some? then ["setting_httpproxy " + env.httpProxy.value] else [];
    assert EndMarker !in brightness by {
      JoinedIsNotEnd("setting_brightness", "automatic");
      JoinedIsNotEnd("setting_brightness", IntToString(env.brightness));
    }
    assert EndMarker !in timeout by {
      JoinedIsNotEnd("setting_screen_timeout", IntToString(env.screenTimeout));
    }
    assert EndMarker !in proxy by {
      if env.httpProxy.Some? {
        assert proxy[0][0] != EndMarker[0];
      }
    }
    assert EndMarker !in brightness + timeout + proxy;
  }

  lemma EnvLinesAvoidEndMarker(iter: nat, env: Environment, lastCurrent: int)
    ensures EndMarker !in EnvLines(iter, env, lastCurrent)
  {
    CurrentLinesAvoidEndMarker(iter, env, lastCurrent);
    BatteryLinesAvoidEndMarker(iter, env);
    SettingsLinesAvoidEndMarker(iter, env);
  }

  lemma HeaderAssociationsAvoidEndMarker(names: Names)
    ensures EndMarker !in HeaderAssociations(names)
  {
    var assoc := HeaderAssociations(names);
    var apps := AppUids(names);
    AssociationsFollowFilter(names, SortedKeys(names.Keys));
    forall k | 0 <= k < |assoc| ensures assoc[k] != EndMarker {
      AssociateLineIsNotEnd(apps[k], Lookup(names, apps[k]));
    }
  }

  lemma HeaderInfoAvoidsEndMarker(env: Environment)
    ensures EndMarker !in HeaderInfo(env)
  {
    var fixed := [ KeyedLine("iteration_interval", ITERATION_INTERVAL),
                   KeyedLine("time", env.timeMillis),
                   KeyedLine("localtime_offset", env.localtimeOffset),
                   "model+" + env.modelName ];
    var notify := if env.notificationsActive then ["notifications-active"] else [];
    var capacity := if env.fullCapacity.Some? then ["batt_full_capacity+" + env.fullCapacity.value] else [];
    assert EndMarker !in fixed by {
      JoinedIsNotEnd("iteration_interval", IntToString(ITERATION_INTERVAL));
      JoinedIsNotEnd("time", IntToString(env.timeMillis));
      JoinedIsNotEnd("localtime_offset", IntToString(env.localtimeOffset));
      JoinedIsNotEnd("model", env.modelName);
    }
    assert EndMarker !in notify by {
      if env.notificationsActive {
        assert notify[0][0] != EndMarker[0];
      }
    }
    assert EndMarker !in capacity by {
      if env.fullCapacity.Some? {
        JoinedIsNotEnd("batt_full_capacity", env.fullCapacity.value);
      }
    }
    assert HeaderInfo(env) == fixed + notify + capacity;
  }

  lemma HeaderAvoidsEndMarker(env: Environment, names: Names)
    ensures EndMarker !in HeaderLines(env, names)
  {
    HeaderInfoAvoidsEndMarker(env);
    HeaderAssociationsAvoidEndMarker(names);
  }

  /**
   * An iteration block opens with `begin+<iter>` and closes with the end
   * marker, which appears nowhere else in it: blocks never run together.
   */
  lemma BlockIsFramed(iter: nat, env: Environment, lastCurrent: int, first: bool, names: Names,
                      totalPower: int, comps: seq<Component>, data: seq<ComponentData>, uidName: int -> string)
    requires |comps| == |data|
    requires InfoAvoidsEndMarker(data)
    ensures var block := IterationBlock(iter, env, lastCurrent, first, names, totalPower, comps, data, uidName);
      && block[0] == BeginLine(iter)
      && block[|block| - 1] == EndMarker
      && EndMarker !in block[..|block| - 1]
  {
    var header: seq<string> := if first then HeaderLines(env, names) else [];
    var comp := ComponentsLog(comps, data, uidName);
    var env' := EnvLines(iter, env, lastCurrent);
    var total := TotalPowerLine(totalPower);
    assert BeginLine(iter) != EndMarker by { JoinedIsNotEnd("begin", IntToString(iter)); }
    assert EndMarker !in env' by { EnvLinesAvoidEndMarker(iter, env, lastCurrent); }
    assert total != EndMarker by { JoinedIsNotEnd("total power", IntToString(totalPower)); }
    assert EndMarker !in header by {
      if first {
        HeaderAvoidsEndMarker(env, names);
      }
    }
    assert EndMarker !in comp by { ComponentsLogAvoidsEndMarker(comps, data, uidName); }
    Framed(BeginLine(iter), env', header, total, comp, EndMarker);
  }

  /**
   * The header flag seen by each of `n` successive passes, starting from
   * `first`: every pass that logs clears it, as `Step` does.
   */
  function HeaderFlags(first: bool, logOpen: bool, n: nat): seq<bool>
    decreases n
  {
    if n == 0 then [] else [first] + HeaderFlags(first && !logOpen, logOpen, n - 1)
  }

  /**
   * With the log open, a header is written on the first pass when the flag
   * starts set and on no later pass; with the log closed no header is
   * written at all, so the one header is kept for the first logged block.
   */
  lemma {:induction false} HeaderAtMostOnce(first: bool, logOpen: bool, n: nat)
    ensures var f := HeaderFlags(first, logOpen, n);
      && |f| == n
      && (n > 0 ==> f[0] == first)
      && (logOpen ==> forall k :: 0 < k < n ==> !f[k])
      && (!logOpen ==> forall k :: 0 <= k < n ==> f[k] == first)
    decreases n
  {
    if n > 0 {
      HeaderAtMostOnce(first && !logOpen, logOpen, n - 1);
      var f := HeaderFlags(first, logOpen, n);
      var rest := HeaderFlags(first && !logOpen, logOpen, n - 1);
      assert forall k :: 0 < k < n ==> f[k] == rest[k - 1];
    }
  }

  /**
   * Regroups `BodyLines` for the two flag values: with the flag set, the
   * body is the header followed by the body without it.  That the flag is
   * set only on the first logged iteration is `HeaderAtMostOnce`.
   */
  lemma HeaderOnlyOnFirst(env: Environment, names: Names, totalPower: int,
                          comps: seq<Component>, data: seq<ComponentData>, uidName: int -> string)
    requires |comps| == |data|
    ensures BodyLines(false, env, names, totalPower, comps, data, uidName)
            == [TotalPowerLine(totalPower)] + ComponentsLog(comps, data, uidName) + [EndMarker]
    ensures BodyLines(true, env, names, totalPower, comps, data, uidName)
            == HeaderLines(env, names) + BodyLines(false, env, names, totalPower, comps, data, uidName)
  {
    var total := [TotalPowerLine(totalPower)];
    var comp := ComponentsLog(comps, data, uidName);
    var none: seq<string> := [];
    assert none + total == total;
    SplitAfterHead(HeaderLines(env, names), total, comp, [EndMarker]);
  }
}
