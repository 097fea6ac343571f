/**
 * The power estimator itself: the state its loop keeps between passes, one
 * pass of that loop as `Step`, the log writer, and the query methods the
 * user interface calls.  Every method is proved against the functions of
 * the Aggregation, Registry and Queries modules.
 */
module Estimator {
  import opened Wrappers
  import opened Constants
  import opened LogText
  import opened Registry
  import opened Aggregation
  import opened Queries
  import opened Sequences

  class PowerEstimator {
    /** The power components, in the order the phone's model generates them. */
    const components: seq<Component>
    /** Whether the log file could be opened (`logStream != null`). */
    const logOpen: bool

    /** The iteration of the current pass; -1 before the first one. */
    var iter: int
    /** No log iteration has been written yet: the next logged block carries the header. */
    var firstLogIteration: bool
    /** The battery current last compared, -1 before any reading. */
    var lastCurrent: int
    /** `uidAppIds`: every uid seen, with its application name (`None` for system uids). */
    var uidAppIds: Names
    /** The iteration whose data was last accounted. */
    var lastWrittenIteration: int
    /** The `add` calls made on each component's history, oldest first. */
    var histories: seq<seq<Sample>>
    /** The lines written to the log stream. */
    var log: seq<string>
    /** How many of those lines the last flush pushed to the file. */
    var flushed: nat

    ghost predicate Valid()
      reads this
    {
      && |histories| == |components|
      && flushed <= |log|
      && (!logOpen ==> log == [] && flushed == 0)
      && (!firstLogIteration ==> logOpen)
    }

    /**
     * A new estimator: one empty history per component, an empty registry,
     * and the loop's locals as `run` sets them before its first pass.
     */
    constructor (components: seq<Component>, logOpen: bool)
      ensures Valid()
      ensures this.components == components && this.logOpen == logOpen
      ensures iter == -1 && firstLogIteration && lastCurrent == -1
      ensures uidAppIds == map[] && lastWrittenIteration == 0
      ensures histories == seq(|components|, i => []) && log == [] && flushed == 0
    {
      this.components := components;
      this.logOpen := logOpen;
      iter := -1;
      firstLogIteration := true;
      lastCurrent := -1;
      uidAppIds := map[];
      lastWrittenIteration := 0;
      histories := seq(|components|, i => []);
      log := [];
      flushed := 0;
    }

    // -------------------------------------------------------------------
    // The log stream
    // -------------------------------------------------------------------

    /** `logStream.write(line)` on an open stream. */
    method Write(line: string)
      requires Valid() && logOpen
      modifies this`log
      ensures Valid()
      ensures log == old(log) + [line]
    {
      log := log + [line];
    }

    /** Writes `lines` one after the other on an open stream. */
    method WriteLines(lines: seq<string>)
      requires Valid() && logOpen
      modifies this`log
      ensures Valid()
      ensures log == old(log) + lines
    {
      var k := 0;
      while k < |lines|
        invariant 0 <= k <= |lines|
        invariant Valid()
        invariant log == old(log) + lines[..k]
      {
        Write(lines[k]);
        assert lines[..k + 1] == lines[..k] + [lines[k]];
        k := k + 1;
      }
      assert lines[..|lines|] == lines;
    }

    /** `writeToLog(m)`: writes `m` when there is a log, and does nothing otherwise. */
    method WriteToLog(m: string)
      requires Valid()
      modifies this`log
      ensures Valid()
      ensures log == old(log) + (if logOpen then [m] else [])
    {
      if logOpen {
        Write(m);
      }
    }

    /** `logStream.flush()` when there is a log: everything written so far reaches the file. */
    method Flush()
      requires Valid()
      modifies this`flushed
      ensures Valid()
      ensures flushed == if logOpen then |log| else old(flushed)
    {
      if logOpen {
        flushed := |log|;
      }
    }

    // -------------------------------------------------------------------
    // One pass of the loop
    // -------------------------------------------------------------------

    /**
     * The power calculation: every reading of every component with data is
     * added to that component's history, AID_ALL readings are summed into
     * the returned total and the other uids' readings into `compPower`.
     */
    method AccumulatePower(data: seq<ComponentData>) returns (totalPower: int)
      requires Valid() && |data| == |components|
      modifies this`histories
      ensures Valid()
      ensures totalPower == TotalPower(data)
      ensures |histories| == |old(histories)|
      ensures forall i :: 0 <= i < |histories| ==> histories[i] == old(histories)[i] + Adds(data[i], iter)
    {
      totalPower := 0;
      var i := 0;
      while i < |components|
        invariant 0 <= i <= |components|
        invariant |histories| == |old(histories)| == |components|
        invariant totalPower == TotalPower(data[..i])
        invariant forall k :: 0 <= k < i ==> histories[k] == old(histories)[k] + Adds(data[k], iter)
        invariant forall k :: i <= k < |histories| ==> histories[k] == old(histories)[k]
      {
        assert data[..i + 1][..i] == data[..i];
        if data[i].Some? {
          var allPower, compPower := AddReadings(i, data[i].value);
          totalPower := totalPower + allPower;
        }
        i := i + 1;
      }
      assert data[..|components|] == data;
    }

    /**
     * The readings of component `i`: each is added to its history, and the
     * AID_ALL readings and the other uids' readings are summed apart.
     */
    method AddReadings(i: nat, es: seq<UidPower>) returns (allPower: int, compPower: int)
      requires i < |histories|
      modifies this`histories
      ensures allPower == AllPower(es) && compPower == UidsPower(es)
      ensures histories == old(histories)[i := old(histories)[i] + Adds(Some(es), iter)]
    {
      allPower, compPower := 0, 0;
      var j := 0;
      assert old(histories)[i] + Adds(Some(es[..0]), iter) == old(histories)[i];
      while j < |es|
        invariant 0 <= j <= |es|
        invariant allPower == AllPower(es[..j]) && compPower == UidsPower(es[..j])
        invariant histories == old(histories)[i := old(histories)[i] + Adds(Some(es[..j]), iter)]
      {
        var e := es[j];
        assert es[..j + 1][..j] == es[..j];
        assert Adds(Some(es[..j + 1]), iter) == Adds(Some(es[..j]), iter) + [Sample(e.uid, iter, e.power)];
        AppendAssoc(old(histories)[i], Adds(Some(es[..j]), iter), [Sample(e.uid, iter, e.power)]);
        histories := histories[i := histories[i] + [Sample(e.uid, iter, e.power)]];
        if e.uid == AID_ALL {
          allPower := allPower + e.power;
        } else {
          compPower := compPower + e.power;
        }
        j := j + 1;
      }
      assert es[..|es|] == es;
    }

    /**
     * One visit of the uid-set update: a system uid is recorded without a
     * name; an application's name is looked up, recorded, and announced
     * with an `associate` line when it is new or has changed, unless this
     * is the first log iteration or there is no log.
     */
    method VisitUid(uid: int, resolve: int -> Option<string>, ghost u: Update, ghost prefix: seq<string>)
      requires Valid()
      requires uidAppIds == u.names && log == prefix + u.lines
      modifies this`uidAppIds, this`log
      ensures Valid()
      ensures var v := Visit(u, uid, Suppressed(firstLogIteration, logOpen), resolve);
        uidAppIds == v.names && log == prefix + v.lines
    {
      if uid < AID_APP {
        uidAppIds := uidAppIds[uid := None];
      } else {
        var appId := Lookup(uidAppIds, uid);
        var newAppId := resolve(uid);
        uidAppIds := uidAppIds[uid := newAppId];
        if !firstLogIteration && logOpen && (appId.None? || appId != newAppId) {
          log := log + [AssociateLine(uid, newAppId)];
          AppendAssoc(prefix, u.lines, [AssociateLine(uid, newAppId)]);
        }
      }
    }

    /**
     * The visits of one component's uids, continuing the update that began
     * at `start` with the log `prefix` and has visited the uids `before`.
     */
    method VisitComponent(d: ComponentData, resolve: int -> Option<string>,
                          ghost start: Names, ghost before: seq<int>, ghost prefix: seq<string>)
      requires Valid()
      requires var u := Fold(start, before, Suppressed(firstLogIteration, logOpen), resolve);
        uidAppIds == u.names && log == prefix + u.lines
      modifies this`uidAppIds, this`log
      ensures Valid()
      ensures var u := Fold(start, before + Uids(d), Suppressed(firstLogIteration, logOpen), resolve);
        uidAppIds == u.names && log == prefix + u.lines
    {
      if d.Some? {
        VisitEntries(d.value, resolve, start, before, prefix);
      } else {
        assert before + Uids(d) == before;
      }
    }

    /** The visits of the uids of `es`, in order. */
    method VisitEntries(es: seq<UidPower>, resolve: int -> Option<string>,
                        ghost start: Names, ghost before: seq<int>, ghost prefix: seq<string>)
      requires Valid()
      requires var u := Fold(start, before, Suppressed(firstLogIteration, logOpen), resolve);
        uidAppIds == u.names && log == prefix + u.lines
      modifies this`uidAppIds, this`log
      ensures Valid()
      ensures var u := Fold(start, before + Uids(Some(es)), Suppressed(firstLogIteration, logOpen), resolve);
        uidAppIds == u.names && log == prefix + u.lines
    {
      var j := 0;
      assert before + Uids(Some(es[..0])) == before;
      while j < |es|
        invariant 0 <= j <= |es|
        invariant Valid()
        invariant var u := Fold(start, before + Uids(Some(es[..j])), Suppressed(firstLogIteration, logOpen), resolve);
          uidAppIds == u.names && log == prefix + u.lines
      {
        VisitEntry(es, j, resolve, start, before, prefix);
        j := j + 1;
      }
      assert es[..|es|] == es;
    }

    /** The visit of entry `j` of `es`, after those before it. */
    method VisitEntry(es: seq<UidPower>, j: nat, resolve: int -> Option<string>,
                      ghost start: Names, ghost before: seq<int>, ghost prefix: seq<string>)
      requires Valid() && j < |es|
      requires var u := Fold(start, before + Uids(Some(es[..j])), Suppressed(firstLogIteration, logOpen), resolve);
        uidAppIds == u.names && log == prefix + u.lines
      modifies this`uidAppIds, this`log
      ensures Valid()
      ensures var u := Fold(start, before + Uids(Some(es[..j + 1])), Suppressed(firstLogIteration, logOpen), resolve);
        uidAppIds == u.names && log == prefix + u.lines
    {
      ghost var suppress := Suppressed(firstLogIteration, logOpen);
      ghost var seen := before + Uids(Some(es[..j]));
      ghost var u := Fold(start, seen, suppress, resolve);
      var uid := es[j].uid;
      TakeSnoc(es, j);
      UidsSnoc(es[..j], es[j]);
      AppendAssoc(before, Uids(Some(es[..j])), [uid]);
      FoldSnoc(start, seen, uid, suppress, resolve);
      VisitUid(uid, resolve, u, prefix);
    }

    /**
     * The update of the uid set: every uid of the iteration's data is
     * visited, component by component.
     */
    method UpdateUidSet(data: seq<ComponentData>, resolve: int -> Option<string>)
      requires Valid() && |data| == |components|
      modifies this`uidAppIds, this`log
      ensures Valid()
      ensures var u := Fold(old(uidAppIds), DataUids(data), Suppressed(firstLogIteration, logOpen), resolve);
        uidAppIds == u.names && log == old(log) + u.lines
    {
      ghost var start := uidAppIds;
      ghost var suppress := Suppressed(firstLogIteration, logOpen);
      var i := 0;
      while i < |components|
        invariant 0 <= i <= |components|
        invariant Valid()
        invariant var u := Fold(start, DataUids(data[..i]), suppress, resolve);
          uidAppIds == u.names && log == old(log) + u.lines
      {
        assert data[..i + 1][..i] == data[..i];
        VisitComponent(data[i], resolve, start, DataUids(data[..i]), old(log));
        i := i + 1;
      }
      assert data[..|components|] == data;
    }

    /** The battery current, every CURRENT_INTERVAL iterations, when it has changed since the last comparison. */
    method WriteCurrent(env: Environment)
      requires Valid() && iter >= 0
      modifies this`log, this`lastCurrent
      ensures Valid()
      ensures log == old(log) + (if logOpen then CurrentLines(iter, env, old(lastCurrent)) else [])
      ensures lastCurrent == NextLastCurrent(iter, env, old(lastCurrent))
    {
      if env.current.Some? && iter % CURRENT_INTERVAL == 0 {
        var reading := env.current.value;
        if reading.value != lastCurrent {
          WriteToLog("batt_current+" + reading.text);
          lastCurrent := reading.value;
        }
      }
    }

    /** The battery current, battery state and settings lines that follow `begin+<iter>`. */
    method WriteEnvironment(env: Environment)
      requires Valid() && iter >= 0
      modifies this`log, this`lastCurrent
      ensures Valid()
      ensures log == old(log) + (if logOpen then EnvLines(iter, env, old(lastCurrent)) else [])
      ensures lastCurrent == NextLastCurrent(iter, env, old(lastCurrent))
    {
      ghost var none: seq<string> := [];
      ghost var current := if logOpen then CurrentLines(iter, env, lastCurrent) else none;
      ghost var battery := if logOpen then BatteryLines(iter, env) else none;
      ghost var settings := if logOpen then SettingsLines(iter, env) else none;
      WriteCurrent(env);
      WriteBattery(env);
      WriteSettings(env);
      AppendAssoc(old(log), current, battery);
      AppendAssoc(old(log), current + battery, settings);
      assert current + battery + settings == (if logOpen then EnvLines(iter, env, old(lastCurrent)) else none);
    }

    /** Battery temperature and charge, every BATTERY_INTERVAL iterations. */
    method WriteBattery(env: Environment)
      requires Valid() && iter >= 0
      modifies this`log
      ensures Valid()
      ensures log == old(log) + (if logOpen then BatteryLines(iter, env) else [])
    {
      if iter % BATTERY_INTERVAL == 0 {
        if env.temperature.Some? {
          WriteToLog("batt_temp+" + env.temperature.value);
        }
        if env.charge.Some? {
          WriteToLog("batt_charge+" + env.charge.value);
        }
      }
    }

    /** Brightness, screen timeout and proxy settings, every SETTINGS_INTERVAL iterations. */
    method WriteSettings(env: Environment)
      requires Valid() && iter >= 0
      modifies this`log
      ensures Valid()
      ensures log == old(log) + (if logOpen then SettingsLines(iter, env) else [])
    {
      if iter % SETTINGS_INTERVAL == 0 {
        ghost var none: seq<string> := [];
        ghost var brightness := if env.brightnessAutomatic then ["setting_brightness+automatic"]
                                else if env.brightness != -1 then [KeyedLine("setting_brightness", env.brightness)]
                                else none;
        ghost var timeout := if env.screenTimeout != -1 then [KeyedLine("setting_screen_timeout", env.screenTimeout)] else none;
        ghost var proxy := if env.httpProxy.Some? then ["setting_httpproxy " + env.httpProxy.value] else none;
        if env.brightnessAutomatic {
          WriteToLog("setting_brightness+automatic");
        } else if env.brightness != -1 {
          WriteToLog(KeyedLine("setting_brightness", env.brightness));
        }
        ghost var lit := log;
        assert lit == old(log) + (if logOpen then brightness else none);
        if env.screenTimeout != -1 {
          WriteToLog(KeyedLine("setting_screen_timeout", env.screenTimeout));
        }
        ghost var timed := log;
        assert timed == lit + (if logOpen then timeout else none);
        if env.httpProxy.Some? {
          WriteToLog("setting_httpproxy " + env.httpProxy.value);
        }
        assert log == timed + (if logOpen then proxy else none);
        if logOpen {
          AppendAssoc(old(log), brightness, timeout);
          AppendAssoc(old(log), brightness + timeout, proxy);
        }
      }
    }

    /** The header's description of the run. */
    method WriteHeaderInfo(env: Environment)
      requires Valid() && logOpen
      modifies this`log
      ensures Valid()
      ensures log == old(log) + HeaderInfo(env)
    {
      var fixed := [ KeyedLine("iteration_interval", ITERATION_INTERVAL),
                     KeyedLine("time", env.timeMillis),
                     KeyedLine("localtime_offset", env.localtimeOffset),
                     "model+" + env.modelName ];
      ghost var notify := if env.notificationsActive then ["notifications-active"] else [];
      ghost var capacity := if env.fullCapacity.Some? then ["batt_full_capacity+" + env.fullCapacity.value] else [];
      Write(fixed[0]);
      Write(fixed[1]);
      Write(fixed[2]);
      Write(fixed[3]);
      assert log == old(log) + fixed;
      ghost var described := log;
      if env.notificationsActive {
        Write("notifications-active");
      }
      ghost var notified := log;
      assert notified == described + notify;
      if env.fullCapacity.Some? {
        Write("batt_full_capacity+" + env.fullCapacity.value);
      }
      assert log == notified + capacity;
      AppendAssoc(old(log), fixed, notify);
      AppendAssoc(old(log), fixed + notify, capacity);
      assert HeaderInfo(env) == fixed + notify + capacity;
    }

    /** The header's `associate` lines: the registry's keys in order, system uids skipped. */
    method WriteAssociations()
      requires Valid() && logOpen
      modifies this`log
      ensures Valid()
      ensures log == old(log) + HeaderAssociations(uidAppIds)
    {
      WriteAssociationsOf(SortedKeys(uidAppIds.Keys));
    }

    /** The `associate` lines for `keys`, walked in order. */
    method WriteAssociationsOf(keys: seq<int>)
      requires Valid() && logOpen
      modifies this`log
      ensures Valid()
      ensures log == old(log) + AssociationsOf(uidAppIds, keys)
    {
      var k := 0;
      while k < |keys|
        invariant 0 <= k <= |keys|
        invariant Valid()
        invariant log == old(log) + AssociationsOf(uidAppIds, keys[..k])
      {
        var uid := keys[k];
        ghost var before := AssociationsOf(uidAppIds, keys[..k]);
        assert keys[..k + 1] == keys[..k] + [uid];
        AssociationsSnoc(uidAppIds, keys[..k], uid);
        if uid >= AID_APP {
          Write(AssociateLine(uid, Lookup(uidAppIds, uid)));
          AppendAssoc(old(log), before, [AssociateLine(uid, Lookup(uidAppIds, uid))]);
        }
        k := k + 1;
      }
      assert keys[..|keys|] == keys;
    }

    /** The one-time header. */
    method WriteHeader(env: Environment)
      requires Valid() && logOpen
      modifies this`log
      ensures Valid()
      ensures log == old(log) + HeaderLines(env, uidAppIds)
    {
      WriteHeaderInfo(env);
      WriteAssociations();
    }

    /** The lines of one reading: the component's extra lines and `ALL` for AID_ALL, a uid line otherwise. */
    method WriteEntry(name: string, e: UidPower, uidName: int -> string)
      requires Valid() && logOpen
      modifies this`log
      ensures Valid()
      ensures log == old(log) + EntryLog(name, e, uidName)
    {
      if e.uid == AID_ALL {
        WriteLines(e.logInfo);
        Write(AllLine(name, e.power));
        AppendAssoc(old(log), e.logInfo, [AllLine(name, e.power)]);
      } else {
        Write(UidLine(name, e.uid, uidName(e.uid), e.power));
      }
    }

    /** The lines of one component's readings, in entry order. */
    method WriteEntries(name: string, es: seq<UidPower>, uidName: int -> string)
      requires Valid() && logOpen
      modifies this`log
      ensures Valid()
      ensures log == old(log) + EntriesLog(name, es, uidName)
    {
      var j := 0;
      while j < |es|
        invariant 0 <= j <= |es|
        invariant Valid()
        invariant log == old(log) + EntriesLog(name, es[..j], uidName)
      {
        assert es[..j + 1][..j] == es[..j];
        WriteEntry(name, es[j], uidName);
        AppendAssoc(old(log), EntriesLog(name, es[..j], uidName), EntryLog(name, es[j], uidName));
        j := j + 1;
      }
      assert es[..|es|] == es;
    }

    /** The lines of one component: none when it has no data for the iteration. */
    method WriteComponent(c: Component, d: ComponentData, uidName: int -> string)
      requires Valid() && logOpen
      modifies this`log
      ensures Valid()
      ensures log == old(log) + ComponentLog(c, d, uidName)
    {
      if d.Some? {
        WriteEntries(c.name, d.value, uidName);
      }
    }

    /** The lines of every component that has data, in component order. */
    method WriteComponents(data: seq<ComponentData>, uidName: int -> string)
      requires Valid() && logOpen && |data| == |components|
      modifies this`log
      ensures Valid()
      ensures log == old(log) + ComponentsLog(components, data, uidName)
    {
      var i := 0;
      while i < |components|
        invariant 0 <= i <= |components|
        invariant Valid()
        invariant log == old(log) + ComponentsLog(components[..i], data[..i], uidName)
      {
        ComponentsLogPrefix(components, data, i, uidName);
        WriteComponent(components[i], data[i], uidName);
        AppendAssoc(old(log), ComponentsLog(components[..i], data[..i], uidName), ComponentLog(components[i], data[i], uidName));
        i := i + 1;
      }
      assert components[..|components|] == components;
      assert data[..|data|] == data;
    }

    /**
     * The part written under the file lock when there is a log: the header
     * on the first log iteration, the total, the component lines and the end
     * marker.
     */
    method WriteBody(env: Environment, totalPower: int, data: seq<ComponentData>, uidName: int -> string)
      requires Valid() && |data| == |components|
      modifies this`log, this`firstLogIteration
      ensures Valid()
      ensures firstLogIteration == (old(firstLogIteration) && !logOpen)
      ensures log == old(log)
                     + (if logOpen then BodyLines(old(firstLogIteration), env, uidAppIds, totalPower, components, data, uidName)
                        else [])
    {
      if logOpen {
        ghost var first := firstLogIteration;
        ghost var report := [TotalPowerLine(totalPower)] + ComponentsLog(components, data, uidName) + [EndMarker];
        if firstLogIteration {
          firstLogIteration := false;
          WriteHeader(env);
        }
        WriteReport(totalPower, data, uidName);
        HeaderOnlyOnFirst(env, uidAppIds, totalPower, components, data, uidName);
        if first {
          AppendAssoc(old(log), HeaderLines(env, uidAppIds), report);
        }
      }
    }

    /** The body after the header: the total power line, the component lines, the end marker. */
    method WriteReport(totalPower: int, data: seq<ComponentData>, uidName: int -> string)
      requires Valid() && logOpen && |data| == |components|
      modifies this`log
      ensures Valid()
      ensures log == old(log) + ([TotalPowerLine(totalPower)] + ComponentsLog(components, data, uidName) + [EndMarker])
    {
      ghost var total := [TotalPowerLine(totalPower)];
      ghost var lines := ComponentsLog(components, data, uidName);
      Write(TotalPowerLine(totalPower));
      WriteComponents(data, uidName);
      Write(EndMarker);
      AppendAssoc(old(log), total, lines);
      AppendAssoc(old(log), total + lines, [EndMarker]);
    }

    /**
     * One pass of the estimator loop for the time `elapsed` since the loop
     * began, the components' data for the new iteration, the platform's
     * name lookups and the environment read during the pass.
     */
    method Step(elapsed: nat, data: seq<ComponentData>, resolve: int -> Option<string>,
                uidName: int -> string, env: Environment)
      requires Valid() && |data| == |components|
      modifies this
      ensures Valid()
      ensures iter == NextIteration(old(iter), elapsed) && lastWrittenIteration == iter
      ensures |histories| == |components|
      ensures forall i :: 0 <= i < |components| ==> histories[i] == old(histories)[i] + Adds(data[i], iter)
      ensures var u := Fold(old(uidAppIds), DataUids(data), Suppressed(old(firstLogIteration), logOpen), resolve);
        && uidAppIds == u.names
        && log == old(log) + u.lines
                  + (if logOpen
                     then IterationBlock(iter, env, old(lastCurrent), old(firstLogIteration), u.names,
                                         TotalPower(data), components, data, uidName)
                     else [])
      ensures lastCurrent == NextLastCurrent(iter, env, old(lastCurrent))
      ensures firstLogIteration == (old(firstLogIteration) && !logOpen)
      ensures flushed == if logOpen && iter % FLUSH_INTERVAL == 0 then |log| else old(flushed)
    {
      ghost var u := Fold(uidAppIds, DataUids(data), Suppressed(firstLogIteration, logOpen), resolve);
      var totalPower := Advance(elapsed, data, resolve);
      ghost var visited := log;
      WriteIteration(env, totalPower, data, uidName);
      assert log == visited + (if logOpen
                               then IterationBlock(iter, env, old(lastCurrent), old(firstLogIteration), u.names,
                                                   TotalPower(data), components, data, uidName)
                               else []);
      if iter % FLUSH_INTERVAL == 0 {
        Flush();
      }
    }

    /**
     * The first half of a pass: the iteration number moves on, the readings
     * are added to the histories and summed, and the uid set is updated.
     */
    method Advance(elapsed: nat, data: seq<ComponentData>, resolve: int -> Option<string>) returns (totalPower: int)
      requires Valid() && |data| == |components|
      modifies this`iter, this`histories, this`uidAppIds, this`log, this`lastWrittenIteration
      ensures Valid()
      ensures iter == NextIteration(old(iter), elapsed) && lastWrittenIteration == iter
      ensures totalPower == TotalPower(data)
      ensures |histories| == |components|
      ensures forall i :: 0 <= i < |components| ==> histories[i] == old(histories)[i] + Adds(data[i], iter)
      ensures var u := Fold(old(uidAppIds), DataUids(data), Suppressed(firstLogIteration, logOpen), resolve);
        uidAppIds == u.names && log == old(log) + u.lines
    {
      iter := if iter + 1 >= elapsed / ITERATION_INTERVAL then iter + 1 else elapsed / ITERATION_INTERVAL;
      totalPower := AccumulatePower(data);
      UpdateUidSet(data, resolve);
      lastWrittenIteration := iter;
    }

    /** The iteration's block: `begin+<iter>`, the environment lines, then the body. */
    method WriteIteration(env: Environment, totalPower: int, data: seq<ComponentData>, uidName: int -> string)
      requires Valid() && |data| == |components| && iter >= 0
      modifies this`log, this`lastCurrent, this`firstLogIteration
      ensures Valid()
      ensures log == old(log)
                     + (if logOpen
                        then IterationBlock(iter, env, old(lastCurrent), old(firstLogIteration), uidAppIds,
                                            totalPower, components, data, uidName)
                        else [])
      ensures lastCurrent == NextLastCurrent(iter, env, old(lastCurrent))
      ensures firstLogIteration == (old(firstLogIteration) && !logOpen)
    {
      ghost var opening := [BeginLine(iter)] + EnvLines(iter, env, lastCurrent);
      ghost var body := BodyLines(firstLogIteration, env, uidAppIds, totalPower, components, data, uidName);
      ghost var block := IterationBlock(iter, env, lastCurrent, firstLogIteration, uidAppIds,
                                        totalPower, components, data, uidName);
      assert block == opening + body;
      WriteOpening(env);
      WriteBody(env, totalPower, data, uidName);
      if logOpen {
        assert log == old(log) + opening + body;
        AppendAssoc(old(log), opening, body);
      }
    }

    /** `begin+<iter>` and the environment lines. */
    method WriteOpening(env: Environment)
      requires Valid() && iter >= 0
      modifies this`log, this`lastCurrent
      ensures Valid()
      ensures log == old(log) + (if logOpen then [BeginLine(iter)] + EnvLines(iter, env, old(lastCurrent)) else [])
      ensures lastCurrent == NextLastCurrent(iter, env, old(lastCurrent))
    {
      WriteToLog(BeginLine(iter));
      WriteEnvironment(env);
      if logOpen {
        AppendAssoc(old(log), [BeginLine(iter)], EnvLines(iter, env, old(lastCurrent)));
      }
    }

    // -------------------------------------------------------------------
    // Queries
    // -------------------------------------------------------------------

    /** `getComponents()`: the components' names, in order. */
    method GetComponents() returns (names: seq<string>)
      ensures |names| == |components|
      ensures forall i :: 0 <= i < |components| ==> names[i] == components[i].name
    {
      var ret := new string[|components|];
      var i := 0;
      while i < |components|
        invariant 0 <= i <= |components|
        invariant forall k :: 0 <= k < i ==> ret[k] == components[k].name
      {
        ret[i] := components[i].name;
        i := i + 1;
      }
      names := ret[..];
    }

    /** `getNoUidMask()`. */
    method GetNoUidMask() returns (mask: bv32)
      ensures mask == NoUidMask(components)
    {
      mask := 0;
      var i := 0;
      while i < |components|
        invariant 0 <= i <= |components|
        invariant mask == NoUidMask(components[..i])
      {
        assert components[..i + 1][..i] == components[..i];
        if !components[i].hasUidInformation {
          mask := mask | Bit(i);
        }
        i := i + 1;
      }
      assert components[..|components|] == components;
    }

    /**
     * `getComponentHistory(count, componentId, uid, iteration)` over the
     * histories as `readers` sees them.
     */
    method GetComponentHistory(readers: seq<HistoryReader>, count: int, componentId: int, uid: int, iteration: int)
      returns (r: HistoryAnswer)
      requires |readers| == |components| && AllConform(readers)
      ensures r == ComponentHistory(readers, count, componentId, uid, iteration, lastWrittenIteration)
    {
      var it := iteration;
      if it == -1 {
        it := lastWrittenIteration;
      }
      if componentId == ALL_COMPONENTS {
        if count < 0 {
          return NegativeSize;
        }
        var sums := SumHistories(readers, uid, it, count);
        return Values(sums);
      }
      if componentId < 0 || |components| <= componentId {
        return Null;
      }
      return Values(readers[componentId].get(uid, it, count));
    }

    /** The `ALL_COMPONENTS` case of `getComponentHistory`: the histories summed entry by entry. */
    method SumHistories(readers: seq<HistoryReader>, uid: int, iteration: int, count: nat) returns (sums: seq<int>)
      requires |readers| == |components| && AllConform(readers)
      ensures sums == ColumnSums(Rows(readers, uid, iteration, count), count)
    {
      ghost var rows := Rows(readers, uid, iteration, count);
      var result := new int[count](j => 0);
      var i := 0;
      while i < |components|
        invariant 0 <= i <= |components|
        invariant result[..] == ColumnSums(rows[..i], count)
      {
        var comp := readers[i].get(uid, iteration, count);
        assert rows[..i + 1][..i] == rows[..i];
        AddInto(result, comp);
        i := i + 1;
      }
      assert rows[..|components|] == rows;
      sums := result[..];
    }

    /** `result[j] += comp[j]` over the whole of `result`. */
    static method AddInto(result: array<int>, comp: seq<int>)
      requires result.Length <= |comp|
      modifies result
      ensures result[..] == AddRow(old(result[..]), comp)
    {
      var j := 0;
      while j < result.Length
        invariant 0 <= j <= result.Length
        invariant forall k :: 0 <= k < j ==> result[k] == old(result[k]) + comp[k]
        invariant forall k :: j <= k < result.Length ==> result[k] == old(result[k])
      {
        result[j] := result[j] + comp[j];
        j := j + 1;
      }
    }

    /** `getTotals(uid, windowType)`. */
    method GetTotals(readers: seq<HistoryReader>, uid: int, window: int) returns (totals: seq<int>)
      requires |readers| == |components|
      ensures totals == Totals(readers, uid, window)
    {
      var ret := new int[|components|];
      var i := 0;
      while i < |components|
        invariant 0 <= i <= |components|
        invariant forall k :: 0 <= k < i ==> ret[k] == Totals(readers, uid, window)[k]
      {
        ret[i] := JavaDiv(readers[i].total(uid, window) * ITERATION_INTERVAL, 1000);
        i := i + 1;
      }
      totals := ret[..];
    }

    /** `getRuntime(uid, windowType)`. */
    method GetRuntime(readers: seq<HistoryReader>, uid: int, window: int) returns (runtime: int)
      requires |readers| == |components|
      ensures runtime == Runtime(readers, uid, window)
    {
      var runningTime := 0;
      var i := 0;
      while i < |components|
        invariant 0 <= i <= |components|
        invariant runningTime == MaxCount(readers[..i], uid, window)
      {
        assert readers[..i + 1][..i] == readers[..i];
        var entries := readers[i].count(uid, window);
        runningTime := if entries > runningTime then entries else runningTime;
        i := i + 1;
      }
      assert readers[..|components|] == readers;
      runtime := JavaDiv(runningTime * ITERATION_INTERVAL, 1000);
    }

    /** `getMeans(uid, windowType)`: the totals divided in place by the runtime, or by 1 when it is 0. */
    method GetMeans(readers: seq<HistoryReader>, uid: int, window: int) returns (means: seq<int>)
      requires |readers| == |components|
      ensures means == Means(readers, uid, window)
    {
      var totals := GetTotals(readers, uid, window);
      var runningTime := GetRuntime(readers, uid, window);
      RuntimeIsLargestCount(readers, uid, window);
      runningTime := if runningTime == 0 then 1 else runningTime;
      var ret := new int[|totals|](k requires 0 <= k < |totals| => totals[k]);
      var i := 0;
      while i < ret.Length
        invariant 0 <= i <= ret.Length
        invariant forall k :: 0 <= k < i ==> ret[k] == JavaDiv(totals[k], runningTime)
        invariant forall k :: i <= k < ret.Length ==> ret[k] == totals[k]
      {
        ret[i] := JavaDiv(ret[i], runningTime);
        i := i + 1;
      }
      means := ret[..];
    }

    /** `sumArray(A, ignoreMask)`: the entries whose bit in the mask is clear. */
    static method SumArray(a: seq<int>, ignoreMask: bv32) returns (sum: int)
      ensures sum == MaskedSum(a, ignoreMask)
    {
      sum := 0;
      var i := 0;
      while i < |a|
        invariant 0 <= i <= |a|
        invariant sum == MaskedSum(a[..i], ignoreMask)
      {
        assert a[..i + 1][..i] == a[..i];
        if !Ignored(ignoreMask, i) {
          sum := sum + a[i];
        }
        i := i + 1;
      }
      assert a[..|a|] == a;
    }

    /**
     * `getUidInfo(windowType, ignoreMask)`: one summary per uid of the
     * registry, taken at the last iteration written.
     */
    method GetUidInfo(readers: seq<HistoryReader>, window: int, ignoreMask: bv32) returns (result: seq<UidInfo>)
      requires |readers| == |components| && AllConform(readers)
      ensures result == UidInfos(readers, SortedKeys(uidAppIds.Keys), lastWrittenIteration, window, ignoreMask)
    {
      var iteration := lastWrittenIteration;
      var keys := SortedKeys(uidAppIds.Keys);
      result := [];
      var pos := 0;
      while pos < |keys|
        invariant 0 <= pos <= |keys|
        invariant |result| == pos
        invariant forall k :: 0 <= k < pos ==> result[k] == UidInfoOf(readers, keys[k], iteration, window, ignoreMask)
      {
        var info := GetOneUidInfo(readers, keys[pos], iteration, window, ignoreMask);
        result := result + [info];
        pos := pos + 1;
      }
      UidInfosPointwise(result, readers, keys, iteration, window, ignoreMask);
    }

    /** The summary of one uid in `getUidInfo`. */
    method GetOneUidInfo(readers: seq<HistoryReader>, uid: int, iteration: int, window: int, ignoreMask: bv32)
      returns (info: UidInfo)
      requires |readers| == |components| && AllConform(readers)
      ensures info == UidInfoOf(readers, uid, iteration, window, ignoreMask)
    {
      var currentPower := CurrentPower(readers, uid, iteration, ignoreMask);
      var totals := GetTotals(readers, uid, window);
      var energy := SumArray(totals, ignoreMask);
      var runtime := GetRuntime(readers, uid, window);
      info := UidInfo(uid, currentPower, JavaDiv(energy * ITERATION_INTERVAL, 1000),
                      JavaDiv(runtime * ITERATION_INTERVAL, 1000));
    }

    /** The current-power part of `getUidInfo`: the latest value of each component the mask does not ignore. */
    method CurrentPower(readers: seq<HistoryReader>, uid: int, iteration: int, ignoreMask: bv32) returns (power: int)
      requires |readers| == |components| && AllConform(readers)
      ensures power == MaskedSum(LatestValues(readers, uid, iteration), ignoreMask)
    {
      ghost var latest := LatestValues(readers, uid, iteration);
      power := 0;
      var i := 0;
      while i < |components|
        invariant 0 <= i <= |components|
        invariant power == MaskedSum(latest[..i], ignoreMask)
      {
        assert latest[..i + 1][..i] == latest[..i];
        if !Ignored(ignoreMask, i) {
          power := power + readers[i].get(uid, iteration, 1)[0];
        }
        i := i + 1;
      }
      assert latest[..|components|] == latest;
    }
  }
}
