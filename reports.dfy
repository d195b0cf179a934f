/** The report builders the controller runs when the simulation stops
    (Controller.setPlacement, setTupleTypeLatencies, setAppLoopLatency,
    setEnergyConsumptionPerDevice, setTotalTuplesSentBySensorDevices,
    setTuplesProcessedPerAppModule, setRecordsIn/OutPerModule,
    setUnexecutedEventsForEachOperator): each one a loop proved against a
    function that says what it builds. */
module Reports {
  import opened Common
  import opened Entities
  import opened Topology

  // ---------------------------------------------------------------------
  // Maps built by `put` in a loop

  /** The map that putting `pairs` in order into an empty map leaves: a later
      pair overwrites an earlier one with the same key. */
  function Collect<V>(pairs: seq<(string, V)>): map<string, V>
    decreases |pairs|
  {
    if pairs == [] then map[]
    else
      var p := pairs[|pairs| - 1];
      Collect(pairs[..|pairs| - 1])[p.0 := p.1]
  }

  /** The keys are exactly the keys put, and each key maps to a value put with it. */
  lemma {:induction false} CollectKeys<V>(pairs: seq<(string, V)>)
    ensures forall k :: k in Collect(pairs) <==> exists v :: (k, v) in pairs
    ensures forall k :: k in Collect(pairs) ==> (k, Collect(pairs)[k]) in pairs
    decreases |pairs|
  {
    if pairs != [] {
      var n := |pairs| - 1;
      var p := pairs[n];
      var q := pairs[..n];
      CollectKeys(q);
      assert pairs == q + [p];
      forall k
        ensures k in Collect(pairs) <==> exists v :: (k, v) in pairs
      {
        if exists v :: (k, v) in pairs {
          var v :| (k, v) in pairs;
          if k != p.0 {
            assert (k, v) in q;
          }
        }
      }
    }
  }

  /** A key takes the value of the last pair that puts it. */
  lemma {:induction false} CollectLast<V>(pairs: seq<(string, V)>, i: nat)
    requires i < |pairs|
    requires forall j :: i < j < |pairs| ==> pairs[j].0 != pairs[i].0
    ensures pairs[i].0 in Collect(pairs) && Collect(pairs)[pairs[i].0] == pairs[i].1
    decreases |pairs|
  {
    var n := |pairs| - 1;
    if i < n {
      var q := pairs[..n];
      assert q[i] == pairs[i];
      CollectLast(q, i);
    }
  }

  // ---------------------------------------------------------------------
  // Per-module reports (tuples processed, records in, records out, and the
  // zeroed start of the backlog table)

  /** (name, f(module)) for each module, in list order. */
  function NamePairs<V>(modules: seq<AppModule>, f: AppModule -> V): (r: seq<(string, V)>)
    ensures |r| == |modules|
    decreases |modules|
  {
    if modules == [] then []
    else
      var m := modules[|modules| - 1];
      NamePairs(modules[..|modules| - 1], f) + [(m.name, f(m))]
  }

  /** (name, f(module)) for each module of each application, applications in
      iteration order `order`. */
  function ModulePairs<V>(apps: map<string, Application>, order: seq<string>, f: AppModule -> V): seq<(string, V)>
    requires forall id :: id in order ==> id in apps
    decreases |order|
  {
    if order == [] then []
    else
      var id := order[|order| - 1];
      assert id in order;
      ModulePairs(apps, order[..|order| - 1], f) + NamePairs(apps[id].modules, f)
  }

  lemma {:induction false} NamePairsSpec<V>(modules: seq<AppModule>, f: AppModule -> V)
    ensures forall k :: 0 <= k < |modules| ==> NamePairs(modules, f)[k] == (modules[k].name, f(modules[k]))
    decreases |modules|
  {
    if modules != [] {
      var n := |modules| - 1;
      NamePairsSpec(modules[..n], f);
      forall k | 0 <= k < n
        ensures NamePairs(modules, f)[k] == (modules[k].name, f(modules[k]))
      {
        assert modules[..n][k] == modules[k];
      }
    }
  }

  /** Every module of every application in `order` contributes (name, f(module)). */
  lemma {:induction false} ModulePairsHas<V>(apps: map<string, Application>, order: seq<string>, f: AppModule -> V,
                                             id: string, k: nat)
    requires forall id :: id in order ==> id in apps
    requires id in order && k < |apps[id].modules|
    ensures (apps[id].modules[k].name, f(apps[id].modules[k])) in ModulePairs(apps, order, f)
    decreases |order|
  {
    var n := |order| - 1;
    var mods := apps[order[n]].modules;
    if order[n] == id {
      NamePairsSpec(mods, f);
      assert NamePairs(mods, f)[k] == (mods[k].name, f(mods[k]));
    } else {
      var q := order[..n];
      assert id in q by {
        var i :| 0 <= i < |order| && order[i] == id;
        assert q[i] == id;
      }
      ModulePairsHas(apps, q, f, id, k);
    }
  }

  /** Every pair is (name, f(module)) for a module of an application in `order`. */
  lemma {:induction false} ModulePairsOnly<V>(apps: map<string, Application>, order: seq<string>, f: AppModule -> V, p: (string, V))
    requires forall id :: id in order ==> id in apps
    requires p in ModulePairs(apps, order, f)
    ensures exists id, k :: id in order && id in apps && 0 <= k < |apps[id].modules| &&
                            p == (apps[id].modules[k].name, f(apps[id].modules[k]))
    decreases |order|
  {
    var n := |order| - 1;
    var id := order[n];
    var q := order[..n];
    var mods := apps[id].modules;
    if p in NamePairs(mods, f) {
      NamePairsSpec(mods, f);
      var k :| 0 <= k < |mods| && NamePairs(mods, f)[k] == p;
      assert id in order;
    } else {
      ModulePairsOnly(apps, q, f, p);
      var id', k :| id' in q && id' in apps && 0 <= k < |apps[id'].modules| &&
                    p == (apps[id'].modules[k].name, f(apps[id'].modules[k]));
      assert id' in order;
    }
  }

  /** A per-module report has a key for every module name of every
      application and no other, and each name maps to f of a module of that name. */
  lemma ModuleReportSpec<V>(apps: map<string, Application>, order: seq<string>, f: AppModule -> V, name: string)
    requires forall id :: id in order ==> id in apps
    ensures name in Collect(ModulePairs(apps, order, f)) <==>
              exists id, k :: id in order && id in apps && 0 <= k < |apps[id].modules| && apps[id].modules[k].name == name
    ensures name in Collect(ModulePairs(apps, order, f)) ==>
              exists id, k :: id in order && id in apps && 0 <= k < |apps[id].modules| && apps[id].modules[k].name == name &&
                              Collect(ModulePairs(apps, order, f))[name] == f(apps[id].modules[k])
  {
    var pairs := ModulePairs(apps, order, f);
    CollectKeys(pairs);
    if exists id, k :: id in order && id in apps && 0 <= k < |apps[id].modules| && apps[id].modules[k].name == name {
      var id, k :| id in order && id in apps && 0 <= k < |apps[id].modules| && apps[id].modules[k].name == name;
      ModulePairsHas(apps, order, f, id, k);
    }
    if name in Collect(pairs) {
      ModulePairsOnly(apps, order, f, (name, Collect(pairs)[name]));
    }
  }

  function TuplesProcessed(m: AppModule): int { m.totalTuplesProcessed }
  function TuplesSentPerSec(m: AppModule): real { m.avgTuplesSentPerSec }
  function TuplesReceivedPerSec(m: AppModule): real { m.avgTuplesReceivedPerSec }
  function Zero(m: AppModule): int { 0 }

  /** The loop shared by the per-module builders: for each application and
      each of its modules, put (name, f(module)). */
  method ModuleReport<V>(apps: map<string, Application>, order: seq<string>, f: AppModule -> V) returns (r: map<string, V>)
    requires forall id :: id in order ==> id in apps
    ensures r == Collect(ModulePairs(apps, order, f))
  {
    r := map[];
    var i := 0;
    while i < |order|
      invariant 0 <= i <= |order|
      invariant r == Collect(ModulePairs(apps, order[..i], f))
    {
      var id := order[i];
      assert id in order;
      ghost var before := ModulePairs(apps, order[..i], f);
      r := PutModules(before, r, apps[id].modules, f);
      assert ModulePairs(apps, order[..i + 1], f) == before + NamePairs(apps[id].modules, f) by {
        assert order[..i + 1][..i] == order[..i];
      }
      i := i + 1;
    }
    assert order[..i] == order;
  }

  /** The inner loop of the per-module builders: put (name, f(module)) for
      every module of one application, continuing the pairs `before` put. */
  method PutModules<V>(ghost before: seq<(string, V)>, r0: map<string, V>, modules: seq<AppModule>, f: AppModule -> V)
    returns (r: map<string, V>)
    requires r0 == Collect(before)
    ensures r == Collect(before + NamePairs(modules, f))
  {
    r := r0;
    assert before + NamePairs(modules[..0], f) == before;
    var j := 0;
    while j < |modules|
      invariant 0 <= j <= |modules|
      invariant r == Collect(before + NamePairs(modules[..j], f))
    {
      var m := modules[j];
      assert modules[..j + 1][..j] == modules[..j];
      var done := before + NamePairs(modules[..j], f);
      assert before + NamePairs(modules[..j + 1], f) == done + [(m.name, f(m))];
      r := r[m.name := f(m)];
      j := j + 1;
    }
    assert modules[..j] == modules;
  }

  // ---------------------------------------------------------------------
  // Placement

  /** The (module name, device name) pairs of a placement, in placement
      order, or None where a placed device id names no device (the source
      then dereferences null). */
  function PlacementPairs(devices: seq<FogDevice>, pairs: seq<(int, AppModule)>): Option<seq<(string, string)>>
    decreases |pairs|
  {
    if pairs == [] then Some([])
    else
      var p := pairs[|pairs| - 1];
      match PlacementPairs(devices, pairs[..|pairs| - 1])
      case None => None
      case Some(ps) =>
        match FindDevice(devices, p.0)
        case None => None
        case Some(j) => Some(ps + [(p.1.name, devices[j].name)])
  }

  /** The placement report: each placed module's name mapped to its device's name. */
  function PlacementReport(devices: seq<FogDevice>, placement: ModulePlacement): Option<map<string, string>> {
    match PlacementPairs(devices, PlacedPairs(placement.deviceToModules))
    case None => None
    case Some(ps) => Some(Collect(ps))
  }

  /** The placement pairs exist iff every placed device id names a device,
      and pair k is then module k's name with its device's name. */
  lemma {:induction false} PlacementPairsSpec(devices: seq<FogDevice>, pairs: seq<(int, AppModule)>)
    ensures PlacementPairs(devices, pairs).Some? <==> forall k :: 0 <= k < |pairs| ==> FindDevice(devices, pairs[k].0).Some?
    decreases |pairs|
  {
    if pairs != [] {
      var n := |pairs| - 1;
      var q := pairs[..n];
      PlacementPairsSpec(devices, q);
      forall k | 0 <= k < n
        ensures pairs[k] == q[k]
      {
      }
    }
  }

  /** A report that succeeds has one pair per placed pair: the module's name
      and the name of the device its id resolves to. */
  lemma {:induction false} PlacementPairsValues(devices: seq<FogDevice>, pairs: seq<(int, AppModule)>)
    requires PlacementPairs(devices, pairs).Some?
    ensures |PlacementPairs(devices, pairs).value| == |pairs|
    ensures forall k :: 0 <= k < |pairs| ==>
              FindDevice(devices, pairs[k].0).Some? &&
              PlacementPairs(devices, pairs).value[k] == (pairs[k].1.name, devices[FindDevice(devices, pairs[k].0).value].name)
    decreases |pairs|
  {
    if pairs != [] {
      var n := |pairs| - 1;
      var q := pairs[..n];
      assert PlacementPairs(devices, q).Some?;
      PlacementPairsValues(devices, q);
      var ps := PlacementPairs(devices, q).value;
      var j := FindDevice(devices, pairs[n].0).value;
      assert PlacementPairs(devices, pairs).value == ps + [(pairs[n].1.name, devices[j].name)];
      forall k | 0 <= k < |pairs|
        ensures FindDevice(devices, pairs[k].0).Some? &&
                PlacementPairs(devices, pairs).value[k] == (pairs[k].1.name, devices[FindDevice(devices, pairs[k].0).value].name)
      {
        if k < n {
          assert pairs[k] == q[k];
        }
      }
    }
  }

  /** The placement report fails exactly when some placed device id names no device. */
  lemma PlacementReportFails(devices: seq<FogDevice>, placement: ModulePlacement)
    ensures PlacementReport(devices, placement).None? <==>
              exists i :: 0 <= i < |PlacedPairs(placement.deviceToModules)| &&
                          FindDevice(devices, PlacedPairs(placement.deviceToModules)[i].0).None?
  {
    var pairs := PlacedPairs(placement.deviceToModules);
    PlacementPairsSpec(devices, pairs);
    if PlacementReport(devices, placement).None? {
      var i :| 0 <= i < |pairs| && !FindDevice(devices, pairs[i].0).Some?;
      assert FindDevice(devices, pairs[i].0).None?;
    }
  }

  /** The placement report maps a module name to the name of the device of
      the last pair that places a module of that name. */
  lemma PlacementReportLast(devices: seq<FogDevice>, placement: ModulePlacement, k: nat)
    requires PlacementReport(devices, placement).Some?
    requires k < |PlacedPairs(placement.deviceToModules)|
    requires forall j :: k < j < |PlacedPairs(placement.deviceToModules)| ==>
               PlacedPairs(placement.deviceToModules)[j].1.name != PlacedPairs(placement.deviceToModules)[k].1.name
    ensures FindDevice(devices, PlacedPairs(placement.deviceToModules)[k].0).Some?
    ensures PlacedPairs(placement.deviceToModules)[k].1.name in PlacementReport(devices, placement).value
    ensures PlacementReport(devices, placement).value[PlacedPairs(placement.deviceToModules)[k].1.name]
              == devices[FindDevice(devices, PlacedPairs(placement.deviceToModules)[k].0).value].name
  {
    var pairs := PlacedPairs(placement.deviceToModules);
    PlacementPairsValues(devices, pairs);
    var ps := PlacementPairs(devices, pairs).value;
    assert PlacementReport(devices, placement).value == Collect(ps);
    forall j | k < j < |ps|
      ensures ps[j].0 != ps[k].0
    {
      assert ps[j].0 == pairs[j].1.name;
    }
    CollectLast(ps, k);
  }

  /** Once a prefix of the pairs fails, every longer run of them fails. */
  lemma {:induction false} PlacementNoneStays(devices: seq<FogDevice>, a: seq<(int, AppModule)>, b: seq<(int, AppModule)>)
    requires PlacementPairs(devices, a).None? && a <= b
    ensures PlacementPairs(devices, b).None?
    decreases |b|
  {
    if |b| > |a| {
      assert a <= b[..|b| - 1];
      PlacementNoneStays(devices, a, b[..|b| - 1]);
    } else {
      assert a == b;
    }
  }

  lemma {:induction false} PlacedPairsAppend(a: seq<DeviceModules>, b: seq<DeviceModules>)
    ensures PlacedPairs(a + b) == PlacedPairs(a) + PlacedPairs(b)
    decreases |b|
  {
    if b == [] {
      assert a + b == a;
    } else {
      var n := |b| - 1;
      var e := b[n];
      var last := DevicePairs(e.deviceId, e.modules);
      assert PlacedPairs(a + b) == PlacedPairs(a + b[..n]) + last by {
        assert (a + b)[..|a + b| - 1] == a + b[..n];
        assert (a + b)[|a + b| - 1] == e;
      }
      PlacedPairsAppend(a, b[..n]);
      AppendAssoc(PlacedPairs(a), PlacedPairs(b[..n]), last);
    }
  }

  /** The pairs of a prefix of a placement are a prefix of its pairs. */
  lemma {:induction false} PlacedPairsPrefix(entries: seq<DeviceModules>, n: nat)
    requires n <= |entries|
    ensures PlacedPairs(entries[..n]) <= PlacedPairs(entries)
    decreases |entries|
  {
    if n < |entries| {
      var m := |entries| - 1;
      assert entries[..m][..n] == entries[..n];
      PlacedPairsPrefix(entries[..m], n);
      var x := PlacedPairs(entries[..m]);
      var d := DevicePairs(entries[m].deviceId, entries[m].modules);
      assert PlacedPairs(entries) == x + d;
      assert (x + d)[..|x|] == x;
    } else {
      assert entries[..n] == entries;
    }
  }

  /** The pairs of the first i + 1 entries: those of the first i, then entry i's. */
  lemma PlacedPairsStep(entries: seq<DeviceModules>, i: nat)
    requires i < |entries|
    ensures PlacedPairs(entries[..i + 1]) == PlacedPairs(entries[..i]) + DevicePairs(entries[i].deviceId, entries[i].modules)
  {
    assert entries[..i + 1][..i] == entries[..i];
  }

  /** A placement whose first n entries fail fails as a whole. */
  lemma PlacementFailsLater(devices: seq<FogDevice>, entries: seq<DeviceModules>, n: nat)
    requires n <= |entries| && PlacementPairs(devices, PlacedPairs(entries[..n])).None?
    ensures PlacementPairs(devices, PlacedPairs(entries)).None?
  {
    PlacedPairsPrefix(entries, n);
    PlacementNoneStays(devices, PlacedPairs(entries[..n]), PlacedPairs(entries));
  }

  /** One more pair: it fails where the device is missing, and otherwise
      extends the pairs so far. */
  lemma PlacementPairsSnoc(devices: seq<FogDevice>, xs: seq<(int, AppModule)>, p: (int, AppModule))
    ensures FindDevice(devices, p.0).None? ==> PlacementPairs(devices, xs + [p]).None?
    ensures PlacementPairs(devices, xs).Some? && FindDevice(devices, p.0).Some? ==>
              PlacementPairs(devices, xs + [p])
              == Some(PlacementPairs(devices, xs).value + [(p.1.name, devices[FindDevice(devices, p.0).value].name)])
  {
    assert (xs + [p])[..|xs + [p]| - 1] == xs;
  }

  /** The pairs of a prefix of a module list are a prefix of its pairs. */
  lemma DevicePrefix(deviceId: int, mods: seq<AppModule>, n: nat)
    requires n <= |mods|
    ensures DevicePairs(deviceId, mods[..n]) <= DevicePairs(deviceId, mods)
  {
    DevicePairsIndex(deviceId, mods[..n]);
    DevicePairsIndex(deviceId, mods);
    var short, long := DevicePairs(deviceId, mods[..n]), DevicePairs(deviceId, mods);
    forall k | 0 <= k < n
      ensures short[k] == long[k]
    {
      assert mods[..n][k] == mods[k];
    }
    assert short == long[..n];
  }

  /** One pass of `setPlacement`'s inner loop: a missing device fails the
      whole entry, and otherwise the pairs grow by the module and the device's name. */
  lemma PlaceStep(devices: seq<FogDevice>, before: seq<(int, AppModule)>, deviceId: int, modules: seq<AppModule>, j: nat)
    requires j < |modules|
    requires PlacementPairs(devices, before + DevicePairs(deviceId, modules[..j])).Some?
    ensures FindDevice(devices, deviceId).None? ==> PlacementPairs(devices, before + DevicePairs(deviceId, modules)).None?
    ensures FindDevice(devices, deviceId).Some? ==>
              PlacementPairs(devices, before + DevicePairs(deviceId, modules[..j + 1]))
              == Some(PlacementPairs(devices, before + DevicePairs(deviceId, modules[..j])).value
                      + [(modules[j].name, devices[FindDevice(devices, deviceId).value].name)])
  {
    var m := modules[j];
    var done := before + DevicePairs(deviceId, modules[..j]);
    var now := before + DevicePairs(deviceId, modules[..j + 1]);
    assert now == done + [(deviceId, m)] by {
      assert modules[..j + 1][..j] == modules[..j];
      AppendAssoc(before, DevicePairs(deviceId, modules[..j]), [(deviceId, m)]);
    }
    PlacementPairsSnoc(devices, done, (deviceId, m));
    if FindDevice(devices, deviceId).None? {
      var all := before + DevicePairs(deviceId, modules);
      assert now <= all by {
        DevicePrefix(deviceId, modules, j + 1);
      }
      PlacementNoneStays(devices, now, all);
    }
  }

  /** `setPlacement`'s inner loop: put (module name, device name) for every
      module of one entry, continuing the pairs `before` already put. */
  method PlaceModules(devices: seq<FogDevice>, ghost before: seq<(int, AppModule)>, table0: map<string, string>,
                      deviceId: int, modules: seq<AppModule>) returns (r: Option<map<string, string>>)
    requires PlacementPairs(devices, before).Some? && table0 == Collect(PlacementPairs(devices, before).value)
    ensures PlacementPairs(devices, before + DevicePairs(deviceId, modules)).None? ==> r.None?
    ensures PlacementPairs(devices, before + DevicePairs(deviceId, modules)).Some? ==>
              r == Some(Collect(PlacementPairs(devices, before + DevicePairs(deviceId, modules)).value))
  {
    var table := table0;
    ghost var ps := PlacementPairs(devices, before).value;
    assert before + DevicePairs(deviceId, modules[..0]) == before;
    var j := 0;
    while j < |modules|
      invariant 0 <= j <= |modules|
      invariant PlacementPairs(devices, before + DevicePairs(deviceId, modules[..j])) == Some(ps)
      invariant table == Collect(ps)
    {
      var m := modules[j];
      PlaceStep(devices, before, deviceId, modules, j);
      var found := FindDevice(devices, deviceId);
      if found.None? {
        return None;
      }
      var deviceName := devices[found.value].name;
      table := table[m.name := deviceName];
      ps := ps + [(m.name, deviceName)];
      j := j + 1;
    }
    assert modules[..j] == modules;
    r := Some(table);
  }

  /** `setPlacement`'s loops over one placement: for every device id and every
      module placed on it, put (module name, name of the device). */
  method BuildPlacement(devices: seq<FogDevice>, placement: ModulePlacement) returns (r: Option<map<string, string>>)
    ensures r == PlacementReport(devices, placement)
  {
    var entries := placement.deviceToModules;
    var table: map<string, string> := map[];
    var i := 0;
    while i < |entries|
      invariant 0 <= i <= |entries|
      invariant PlacementPairs(devices, PlacedPairs(entries[..i])).Some?
      invariant table == Collect(PlacementPairs(devices, PlacedPairs(entries[..i])).value)
    {
      var e := entries[i];
      PlacedPairsStep(entries, i);
      var next := PlaceModules(devices, PlacedPairs(entries[..i]), table, e.deviceId, e.modules);
      if next.None? {
        PlacementFailsLater(devices, entries, i + 1);
        return None;
      }
      table := next.value;
      i := i + 1;
    }
    assert entries[..i] == entries;
    r := Some(table);
  }

  /** The application whose placement is reported: the last key that
      iterating the applications visits, or "" when there is none. */
  function LastApp(order: seq<string>): string {
    if order == [] then "" else order[|order| - 1]
  }

  // ---------------------------------------------------------------------
  // Latencies, energy and sensor counts

  /** `setTupleTypeLatencies`: a key-for-key copy of the average CPU time table. */
  method CopyLatencies(averages: map<string, real>) returns (r: map<string, real>)
    ensures r == averages
  {
    r := map[];
    var keys := averages.Keys;
    while keys != {}
      invariant keys <= averages.Keys
      invariant r.Keys == averages.Keys - keys
      invariant forall t :: t in r ==> r[t] == averages[t]
      decreases keys
    {
      var t :| t in keys;
      r := r[t := averages[t]];
      keys := keys - {t};
    }
    assert r.Keys == averages.Keys;
  }

  /** The loop latency reported: that of the last loop id visited, 0.0 when none. */
  function LoopLatency(loopIds: seq<int>, averages: map<int, real>): real
    requires forall i :: 0 <= i < |loopIds| ==> loopIds[i] in averages
  {
    if loopIds == [] then 0.0
    else
      averages[loopIds[|loopIds| - 1]]
  }

  /** The loop latency is 0.0 when no loop is tracked, and otherwise the
      current average of one of the tracked loops; with the single loop the
      system is built for, it is that loop's average. */
  lemma LoopLatencySpec(loopIds: seq<int>, averages: map<int, real>)
    requires forall i :: 0 <= i < |loopIds| ==> loopIds[i] in averages
    ensures loopIds == [] ==> LoopLatency(loopIds, averages) == 0.0
    ensures loopIds != [] ==> exists l :: l in loopIds && LoopLatency(loopIds, averages) == averages[l]
    ensures forall l :: loopIds == [l] ==> LoopLatency(loopIds, averages) == averages[l]
  {
    if loopIds != [] {
      var l := loopIds[|loopIds| - 1];
      assert l in loopIds && LoopLatency(loopIds, averages) == averages[l];
    }
    forall l | loopIds == [l]
      ensures LoopLatency(loopIds, averages) == averages[l]
    {
      assert loopIds[0] == l;
    }
  }

  /** `setAppLoopLatency`: visit every tracked loop id, keeping the average of the last. */
  method AppLoopLatency(loopIds: seq<int>, averages: map<int, real>) returns (r: real)
    requires forall i :: 0 <= i < |loopIds| ==> loopIds[i] in averages
    ensures r == LoopLatency(loopIds, averages)
  {
    r := 0.0;
    var i := 0;
    while i < |loopIds|
      invariant 0 <= i <= |loopIds|
      invariant r == LoopLatency(loopIds[..i], averages)
    {
      assert loopIds[..i + 1][..i] == loopIds[..i];
      r := averages[loopIds[i]];
      i := i + 1;
    }
    assert loopIds[..i] == loopIds;
  }

  /** The modules of the first loop with id `loopId`, in list order. */
  function LoopModules(loops: seq<AppLoop>, loopId: int): Option<seq<string>>
    decreases |loops|
  {
    if loops == [] then None
    else if loops[0].loopId == loopId then Some(loops[0].modules)
    else LoopModules(loops[1..], loopId)
  }

  /** `getStringForLoopId`: the modules of the first loop with that id,
      applications visited in `order`; None (the source's null) when no
      application has such a loop. */
  function ModulesForLoopId(apps: map<string, Application>, order: seq<string>, loopId: int): Option<seq<string>>
    requires forall id :: id in order ==> id in apps
    decreases |order|
  {
    if order == [] then None
    else
      match LoopModules(apps[order[0]].loops, loopId)
      case Some(ms) => Some(ms)
      case None => ModulesForLoopId(apps, order[1..], loopId)
  }

  /** The search finds nothing iff no loop has the id, and otherwise returns
      the modules of a loop with the id that no earlier loop shares. */
  lemma {:induction false} LoopModulesSpec(loops: seq<AppLoop>, loopId: int)
    ensures LoopModules(loops, loopId).None? <==> forall k :: 0 <= k < |loops| ==> loops[k].loopId != loopId
    ensures LoopModules(loops, loopId).Some? ==>
              exists k :: 0 <= k < |loops| && loops[k].loopId == loopId &&
                          LoopModules(loops, loopId).value == loops[k].modules &&
                          forall j :: 0 <= j < k ==> loops[j].loopId != loopId
    decreases |loops|
  {
    if loops != [] && loops[0].loopId != loopId {
      var rest := loops[1..];
      LoopModulesSpec(rest, loopId);
      forall k | 1 <= k < |loops|
        ensures loops[k] == rest[k - 1]
      {
      }
      if LoopModules(rest, loopId).Some? {
        var k :| 0 <= k < |rest| && rest[k].loopId == loopId &&
                 LoopModules(rest, loopId).value == rest[k].modules &&
                 forall j :: 0 <= j < k ==> rest[j].loopId != loopId;
        assert loops[k + 1] == rest[k];
        forall j | 0 <= j < k + 1
          ensures loops[j].loopId != loopId
        {
          if j > 0 {
            assert loops[j] == rest[j - 1];
          }
        }
      }
    } else if loops != [] {
      assert loops[0].loopId == loopId;
    }
  }

  /** Across applications: nothing is found iff no application in `order`
      has a loop with the id; otherwise the result is the first application's
      (in `order`) search result, and no earlier application has such a loop. */
  lemma {:induction false} ModulesForLoopIdSpec(apps: map<string, Application>, order: seq<string>, loopId: int)
    requires forall id :: id in order ==> id in apps
    ensures ModulesForLoopId(apps, order, loopId).None? <==>
              forall i :: 0 <= i < |order| ==> LoopModules(apps[order[i]].loops, loopId).None?
    ensures ModulesForLoopId(apps, order, loopId).Some? ==>
              exists i :: 0 <= i < |order| &&
                          ModulesForLoopId(apps, order, loopId) == LoopModules(apps[order[i]].loops, loopId) &&
                          forall j :: 0 <= j < i ==> LoopModules(apps[order[j]].loops, loopId).None?
    decreases |order|
  {
    if order != [] && LoopModules(apps[order[0]].loops, loopId).None? {
      var rest := order[1..];
      assert forall id :: id in rest ==> id in order;
      ModulesForLoopIdSpec(apps, rest, loopId);
      forall i | 1 <= i < |order|
        ensures order[i] == rest[i - 1]
      {
      }
      if ModulesForLoopId(apps, rest, loopId).Some? {
        var i :| 0 <= i < |rest| &&
                 ModulesForLoopId(apps, rest, loopId) == LoopModules(apps[rest[i]].loops, loopId) &&
                 forall j :: 0 <= j < i ==> LoopModules(apps[rest[j]].loops, loopId).None?;
        assert order[i + 1] == rest[i];
        forall j | 0 <= j < i + 1
          ensures LoopModules(apps[order[j]].loops, loopId).None?
        {
          if j > 0 {
            assert order[j] == rest[j - 1];
          }
        }
      }
    } else if order != [] {
      assert LoopModules(apps[order[0]].loops, loopId).Some?;
    }
  }

  /** (device name, energy consumption) per device, in list order. */
  function EnergyPairs(devices: seq<FogDevice>): (r: seq<(string, real)>)
    ensures |r| == |devices|
    ensures forall k :: 0 <= k < |devices| ==> r[k] == (devices[k].name, devices[k].energyConsumption)
    decreases |devices|
  {
    if devices == [] then []
    else
      var d := devices[|devices| - 1];
      EnergyPairs(devices[..|devices| - 1]) + [(d.name, d.energyConsumption)]
  }

  /** The energy report has a key for every device name and no other; a
      name maps to the reading of the last device of that name. */
  lemma EnergyReportSpec(devices: seq<FogDevice>, k: nat)
    ensures forall n :: n in Collect(EnergyPairs(devices)) <==> exists i :: 0 <= i < |devices| && devices[i].name == n
    ensures k < |devices| && (forall j :: k < j < |devices| ==> devices[j].name != devices[k].name) ==>
              Collect(EnergyPairs(devices))[devices[k].name] == devices[k].energyConsumption
  {
    var pairs := EnergyPairs(devices);
    forall n
      ensures n in Collect(pairs) <==> exists i :: 0 <= i < |devices| && devices[i].name == n
    {
      CollectKeys(pairs);
      if exists i :: 0 <= i < |devices| && devices[i].name == n {
        var i :| 0 <= i < |devices| && devices[i].name == n;
        assert pairs[i] in pairs;
      }
      if n in Collect(pairs) {
        var v :| (n, v) in pairs;
        var i :| 0 <= i < |pairs| && pairs[i] == (n, v);
        assert pairs[i] == (devices[i].name, devices[i].energyConsumption);
      }
    }
    if k < |devices| && (forall j :: k < j < |devices| ==> devices[j].name != devices[k].name) {
      CollectLast(pairs, k);
    }
  }

  /** `setEnergyConsumptionPerDevice`: put (name, energy) for every device. */
  method EnergyPerDevice(devices: seq<FogDevice>) returns (r: map<string, real>)
    ensures r == Collect(EnergyPairs(devices))
  {
    r := map[];
    var i := 0;
    while i < |devices|
      invariant 0 <= i <= |devices|
      invariant r == Collect(EnergyPairs(devices[..i]))
    {
      assert devices[..i + 1][..i] == devices[..i];
      r := r[devices[i].name := devices[i].energyConsumption];
      i := i + 1;
    }
    assert devices[..i] == devices;
  }

  /** The exact total of the sensors' tuple counts. */
  function SensorTotal(sensors: seq<Sensor>): int
    decreases |sensors|
  {
    if sensors == [] then 0
    else SensorTotal(sensors[..|sensors| - 1]) + sensors[|sensors| - 1].totalTuplesSent
  }

  /** `setTotalTuplesSentBySensorDevices`: the `int` stream sum, which wraps at every addition. */
  function TuplesSentBySensors(sensors: seq<Sensor>): (r: int)
    ensures IsInt32(r)
    decreases |sensors|
  {
    if sensors == [] then 0
    else Wrap32(TuplesSentBySensors(sensors[..|sensors| - 1]) + sensors[|sensors| - 1].totalTuplesSent)
  }

  lemma WrapShift(x: int, q: int)
    ensures Wrap32(x + q * INT_RANGE) == Wrap32(x)
  {
    var a := x - INT_MIN;
    assert (a + q * INT_RANGE) % INT_RANGE == a % INT_RANGE;
  }

  /** Wrapping at every addition gives the wrapped exact total: the reported
      count is the true sum whenever that fits in an `int`. */
  lemma {:induction false} SensorSumWraps(sensors: seq<Sensor>)
    ensures TuplesSentBySensors(sensors) == Wrap32(SensorTotal(sensors))
    ensures IsInt32(SensorTotal(sensors)) ==> TuplesSentBySensors(sensors) == SensorTotal(sensors)
    decreases |sensors|
  {
    if sensors != [] {
      var n := |sensors| - 1;
      var p := sensors[..n];
      SensorSumWraps(p);
      var w := TuplesSentBySensors(p);
      var t := SensorTotal(p);
      var c := sensors[n].totalTuplesSent;
      var q := (w - t) / INT_RANGE;
      assert w == t + q * INT_RANGE;
      WrapShift(t + c, q);
      assert w + c == (t + c) + q * INT_RANGE;
    }
  }

  // ---------------------------------------------------------------------
  // Unexecuted work per operator

  /** A future-queue event whose tuple the backlog counts: a TUPLE_ARRIVAL
      from a module whose name does not contain "sensor". */
  predicate Counted(e: FutureEvent) {
    e.tag == TupleArrival && !Contains(e.tuple.srcModuleName, "sensor")
  }

  /** `getFutureQueueEvents`: add each counted event's tuple size to its
      source module; None where the module has no entry (the source then
      unboxes null). */
  function AddFuture(t: map<string, int>, events: seq<FutureEvent>): Option<map<string, int>>
    decreases |events|
  {
    if events == [] then Some(t)
    else
      var e := events[|events| - 1];
      match AddFuture(t, events[..|events| - 1])
      case None => None
      case Some(u) =>
        if !Counted(e) then Some(u)
        else if e.tuple.srcModuleName !in u then None
        else Some(u[e.tuple.srcModuleName := u[e.tuple.srcModuleName] + e.tuple.size])
  }

  /** `getNorthTupleQueueEvents`: add each tuple's size to its source module,
      skipping modules with no entry. */
  function AddNorth(t: map<string, int>, tuples: seq<PendingTuple>): map<string, int>
    decreases |tuples|
  {
    if tuples == [] then t
    else
      var p := tuples[|tuples| - 1];
      var u := AddNorth(t, tuples[..|tuples| - 1]);
      if p.srcModuleName !in u then u
      else u[p.srcModuleName := u[p.srcModuleName] + p.size]
  }

  /** `getSouthTupleQueueEvents`: add each tuple's size to its source module,
      with no check; None where the module has no entry. */
  function AddSouth(t: map<string, int>, tuples: seq<PendingTuple>): Option<map<string, int>>
    decreases |tuples|
  {
    if tuples == [] then Some(t)
    else
      var p := tuples[|tuples| - 1];
      match AddSouth(t, tuples[..|tuples| - 1])
      case None => None
      case Some(u) =>
        if p.srcModuleName !in u then None
        else Some(u[p.srcModuleName := u[p.srcModuleName] + p.size])
  }

  /** The north queues of all devices, devices in list order. */
  function NorthTuples(devices: seq<FogDevice>): seq<PendingTuple>
    decreases |devices|
  {
    if devices == [] then [] else NorthTuples(devices[..|devices| - 1]) + devices[|devices| - 1].northQueue
  }

  /** The south queues of all devices, devices in list order. */
  function SouthTuples(devices: seq<FogDevice>): seq<PendingTuple>
    decreases |devices|
  {
    if devices == [] then [] else SouthTuples(devices[..|devices| - 1]) + devices[|devices| - 1].southQueue
  }

  /** The table `setUnexecutedEventsForEachOperator` starts from: 0 for every module name. */
  function InitialBacklog(apps: map<string, Application>, order: seq<string>): map<string, int>
    requires forall id :: id in order ==> id in apps
  {
    Collect(ModulePairs(apps, order, Zero))
  }

  /** `setUnexecutedEventsForEachOperator`: the zeroed table, then the future
      queue, the north queues and the south queues, in that order. */
  function RemainingData(apps: map<string, Application>, order: seq<string>, future: seq<FutureEvent>,
                         devices: seq<FogDevice>): Option<map<string, int>>
    requires forall id :: id in order ==> id in apps
  {
    match AddFuture(InitialBacklog(apps, order), future)
    case None => None
    case Some(t) => AddSouth(AddNorth(t, NorthTuples(devices)), SouthTuples(devices))
  }

  /** The total size of the counted future events from module `m`. */
  function FutureSize(events: seq<FutureEvent>, m: string): int
    decreases |events|
  {
    if events == [] then 0
    else
      var e := events[|events| - 1];
      FutureSize(events[..|events| - 1], m) + (if Counted(e) && e.tuple.srcModuleName == m then e.tuple.size else 0)
  }

  /** The total size of the queued tuples from module `m`. */
  function QueueSize(tuples: seq<PendingTuple>, m: string): int
    decreases |tuples|
  {
    if tuples == [] then 0
    else
      var p := tuples[|tuples| - 1];
      QueueSize(tuples[..|tuples| - 1], m) + (if p.srcModuleName == m then p.size else 0)
  }

  /** The future queue pass succeeds iff every counted event comes from a
      module in the table; it keeps the key set and adds `FutureSize`. */
  lemma {:induction false} AddFutureSpec(t: map<string, int>, events: seq<FutureEvent>)
    ensures AddFuture(t, events).Some? <==>
              forall k :: 0 <= k < |events| && Counted(events[k]) ==> events[k].tuple.srcModuleName in t
    ensures AddFuture(t, events).Some? ==>
              AddFuture(t, events).value.Keys == t.Keys &&
              forall m :: m in t ==> AddFuture(t, events).value[m] == t[m] + FutureSize(events, m)
    decreases |events|
  {
    if events != [] {
      var n := |events| - 1;
      var q := events[..n];
      AddFutureSpec(t, q);
      forall k | 0 <= k < n
        ensures events[k] == q[k]
      {
      }
    }
  }

  /** The north queue pass keeps the key set and adds `QueueSize`. */
  lemma {:induction false} AddNorthSpec(t: map<string, int>, tuples: seq<PendingTuple>)
    ensures AddNorth(t, tuples).Keys == t.Keys
    ensures forall m :: m in t ==> AddNorth(t, tuples)[m] == t[m] + QueueSize(tuples, m)
    decreases |tuples|
  {
    if tuples != [] {
      AddNorthSpec(t, tuples[..|tuples| - 1]);
    }
  }

  /** The south queue pass succeeds iff every tuple comes from a module in
      the table; it keeps the key set and adds `QueueSize`. */
  lemma {:induction false} AddSouthSpec(t: map<string, int>, tuples: seq<PendingTuple>)
    ensures AddSouth(t, tuples).Some? <==> forall k :: 0 <= k < |tuples| ==> tuples[k].srcModuleName in t
    ensures AddSouth(t, tuples).Some? ==>
              AddSouth(t, tuples).value.Keys == t.Keys &&
              forall m :: m in t ==> AddSouth(t, tuples).value[m] == t[m] + QueueSize(tuples, m)
    decreases |tuples|
  {
    if tuples != [] {
      var n := |tuples| - 1;
      var q := tuples[..n];
      AddSouthSpec(t, q);
      forall k | 0 <= k < n
        ensures tuples[k] == q[k]
      {
      }
    }
  }

  /** The starting table has a key for exactly the module names of the applications. */
  lemma InitialBacklogKeys(apps: map<string, Application>, order: seq<string>, name: string)
    requires forall id :: id in order ==> id in apps
    ensures name in InitialBacklog(apps, order) <==>
              exists id, k :: id in order && id in apps && 0 <= k < |apps[id].modules| && apps[id].modules[k].name == name
  {
    ModuleReportSpec(apps, order, Zero, name);
  }

  /** Every entry of the starting table is 0. */
  lemma InitialBacklogZero(apps: map<string, Application>, order: seq<string>)
    requires forall id :: id in order ==> id in apps
    ensures forall m :: m in InitialBacklog(apps, order) ==> InitialBacklog(apps, order)[m] == 0
  {
    forall m | m in InitialBacklog(apps, order)
      ensures InitialBacklog(apps, order)[m] == 0
    {
      ModuleReportSpec(apps, order, Zero, m);
    }
  }

  /** Every counted future event comes from a module with an entry in `t`. */
  predicate FutureKnown(t: map<string, int>, future: seq<FutureEvent>) {
    forall k :: 0 <= k < |future| && Counted(future[k]) ==> future[k].tuple.srcModuleName in t
  }

  /** Every tuple comes from a module with an entry in `t`. */
  predicate TuplesKnown(t: map<string, int>, tuples: seq<PendingTuple>) {
    forall k :: 0 <= k < |tuples| ==> tuples[k].srcModuleName in t
  }

  /** The backlog report exists iff every counted future event and every
      south-queue tuple comes from a module of an application. */
  lemma RemainingDataSome(apps: map<string, Application>, order: seq<string>, future: seq<FutureEvent>,
                          devices: seq<FogDevice>)
    requires forall id :: id in order ==> id in apps
    ensures RemainingData(apps, order, future, devices).Some? <==>
              FutureKnown(InitialBacklog(apps, order), future) &&
              TuplesKnown(InitialBacklog(apps, order), SouthTuples(devices))
  {
    var init := InitialBacklog(apps, order);
    AddFutureSpec(init, future);
    if AddFuture(init, future).Some? {
      var t := AddFuture(init, future).value;
      var north := AddNorth(t, NorthTuples(devices));
      var south := SouthTuples(devices);
      AddNorthSpec(t, NorthTuples(devices));
      AddSouthSpec(north, south);
      assert TuplesKnown(north, south) <==> TuplesKnown(init, south);
    }
  }

  /** A backlog report has exactly the module names as keys, and module m's
      entry is the total size of the counted future events, north-queue
      tuples and south-queue tuples from m. */
  lemma RemainingDataValues(apps: map<string, Application>, order: seq<string>, future: seq<FutureEvent>,
                            devices: seq<FogDevice>)
    requires forall id :: id in order ==> id in apps
    ensures RemainingData(apps, order, future, devices).Some? ==>
              RemainingData(apps, order, future, devices).value.Keys == InitialBacklog(apps, order).Keys &&
              forall m :: m in InitialBacklog(apps, order) ==>
                RemainingData(apps, order, future, devices).value[m] ==
                  FutureSize(future, m) + QueueSize(NorthTuples(devices), m) + QueueSize(SouthTuples(devices), m)
  {
    var init := InitialBacklog(apps, order);
    AddFutureSpec(init, future);
    if AddFuture(init, future).Some? {
      var t := AddFuture(init, future).value;
      var north := AddNorth(t, NorthTuples(devices));
      AddNorthSpec(t, NorthTuples(devices));
      AddSouthSpec(north, SouthTuples(devices));
      if AddSouth(north, SouthTuples(devices)).Some? {
        var r := AddSouth(north, SouthTuples(devices)).value;
        InitialBacklogZero(apps, order);
        forall m | m in init
          ensures r[m] == FutureSize(future, m) + QueueSize(NorthTuples(devices), m) + QueueSize(SouthTuples(devices), m)
        {
          assert t[m] == init[m] + FutureSize(future, m);
          assert m in north && north[m] == t[m] + QueueSize(NorthTuples(devices), m);
          assert r[m] == north[m] + QueueSize(SouthTuples(devices), m);
        }
      }
    }
  }

  lemma {:induction false} FutureNoneStays(t: map<string, int>, a: seq<FutureEvent>, b: seq<FutureEvent>)
    requires AddFuture(t, a).None?
    ensures AddFuture(t, a + b).None?
    decreases |b|
  {
    if b == [] {
      assert a + b == a;
    } else {
      var n := |b| - 1;
      assert (a + b)[..|a + b| - 1] == a + b[..n];
      FutureNoneStays(t, a, b[..n]);
    }
  }

  /** Once a prefix of the south tuples fails, every longer run of them fails. */
  lemma {:induction false} SouthNoneStays(t: map<string, int>, a: seq<PendingTuple>, b: seq<PendingTuple>)
    requires AddSouth(t, a).None? && a <= b
    ensures AddSouth(t, b).None?
    decreases |b|
  {
    if |b| > |a| {
      assert a <= b[..|b| - 1];
      SouthNoneStays(t, a, b[..|b| - 1]);
    } else {
      assert a == b;
    }
  }

  lemma {:induction false} SouthTuplesAppend(a: seq<FogDevice>, b: seq<FogDevice>)
    ensures SouthTuples(a + b) == SouthTuples(a) + SouthTuples(b)
    decreases |b|
  {
    if b == [] {
      assert a + b == a;
    } else {
      var n := |b| - 1;
      assert (a + b)[..|a + b| - 1] == a + b[..n];
      SouthTuplesAppend(a, b[..n]);
    }
  }

  /** The south tuples of a prefix of the devices are a prefix of all of them. */
  lemma {:induction false} SouthTuplesPrefix(devices: seq<FogDevice>, n: nat)
    requires n <= |devices|
    ensures SouthTuples(devices[..n]) <= SouthTuples(devices)
    decreases |devices|
  {
    if n < |devices| {
      var m := |devices| - 1;
      assert devices[..m][..n] == devices[..n];
      SouthTuplesPrefix(devices[..m], n);
      var x := SouthTuples(devices[..m]);
      assert SouthTuples(devices) == x + devices[m].southQueue;
      assert (x + devices[m].southQueue)[..|x|] == x;
    } else {
      assert devices[..n] == devices;
    }
  }

  /** The north pass over two runs of tuples is the pass over the second
      run, starting from the table the first run leaves. */
  lemma {:induction false} AddNorthAppend(t: map<string, int>, a: seq<PendingTuple>, b: seq<PendingTuple>)
    ensures AddNorth(t, a + b) == AddNorth(AddNorth(t, a), b)
    decreases |b|
  {
    if b == [] {
      assert a + b == a;
    } else {
      var n := |b| - 1;
      assert (a + b)[..|a + b| - 1] == a + b[..n];
      AddNorthAppend(t, a, b[..n]);
    }
  }

  /** The south pass over two runs of tuples fails if the first run fails, and
      is otherwise the pass over the second run from the table the first leaves. */
  lemma {:induction false} AddSouthAppend(t: map<string, int>, a: seq<PendingTuple>, b: seq<PendingTuple>)
    ensures AddSouth(t, a).None? ==> AddSouth(t, a + b).None?
    ensures AddSouth(t, a).Some? ==> AddSouth(t, a + b) == AddSouth(AddSouth(t, a).value, b)
    decreases |b|
  {
    if b == [] {
      assert a + b == a;
    } else {
      var n := |b| - 1;
      assert (a + b)[..|a + b| - 1] == a + b[..n];
      AddSouthAppend(t, a, b[..n]);
    }
  }

  /** `getFutureQueueEvents` as a loop; None where it would dereference null. */
  method FutureQueueEvents(t0: map<string, int>, future: seq<FutureEvent>) returns (r: Option<map<string, int>>)
    ensures r == AddFuture(t0, future)
  {
    var t := t0;
    var i := 0;
    while i < |future|
      invariant 0 <= i <= |future|
      invariant AddFuture(t0, future[..i]) == Some(t)
    {
      var e := future[i];
      assert future[..i + 1][..i] == future[..i];
      if e.tag == TupleArrival {
        var moduleName := e.tuple.srcModuleName;
        var dataSize := e.tuple.size;
        if !Contains(moduleName, "sensor") {
          if moduleName !in t {
            assert future == future[..i + 1] + future[i + 1..];
            FutureNoneStays(t0, future[..i + 1], future[i + 1..]);
            return None;
          }
          t := t[moduleName := t[moduleName] + dataSize];
        }
      }
      i := i + 1;
    }
    assert future[..i] == future;
    r := Some(t);
  }

  /** `getNorthTupleQueueEvents`' inner loop over one device's north queue. */
  method NorthQueueEvents(t0: map<string, int>, queue: seq<PendingTuple>) returns (t: map<string, int>)
    ensures t == AddNorth(t0, queue)
  {
    t := t0;
    var j := 0;
    while j < |queue|
      invariant 0 <= j <= |queue|
      invariant t == AddNorth(t0, queue[..j])
    {
      var tuple := queue[j];
      assert queue[..j + 1][..j] == queue[..j];
      var moduleName := tuple.srcModuleName;
      if moduleName in t {
        t := t[moduleName := t[moduleName] + tuple.size];
      }
      j := j + 1;
    }
    assert queue[..j] == queue;
  }

  /** `getNorthTupleQueueEvents` as a loop over the devices and their north queues. */
  method NorthTupleQueueEvents(t0: map<string, int>, devices: seq<FogDevice>) returns (t: map<string, int>)
    ensures t == AddNorth(t0, NorthTuples(devices))
  {
    t := t0;
    var i := 0;
    while i < |devices|
      invariant 0 <= i <= |devices|
      invariant t == AddNorth(t0, NorthTuples(devices[..i]))
    {
      assert devices[..i + 1][..i] == devices[..i];
      AddNorthAppend(t0, NorthTuples(devices[..i]), devices[i].northQueue);
      t := NorthQueueEvents(t, devices[i].northQueue);
      i := i + 1;
    }
    assert devices[..i] == devices;
  }

  /** `getSouthTupleQueueEvents`' inner loop over one device's south queue;
      None where it would unbox null. */
  method SouthQueueEvents(t0: map<string, int>, queue: seq<PendingTuple>) returns (r: Option<map<string, int>>)
    ensures r == AddSouth(t0, queue)
  {
    var t := t0;
    var j := 0;
    while j < |queue|
      invariant 0 <= j <= |queue|
      invariant AddSouth(t0, queue[..j]) == Some(t)
    {
      var tuple := queue[j];
      assert queue[..j + 1][..j] == queue[..j];
      var moduleName := tuple.srcModuleName;
      if moduleName !in t {
        assert AddSouth(t0, queue).None? by {
          SouthNoneStays(t0, queue[..j + 1], queue);
        }
        return None;
      }
      t := t[moduleName := t[moduleName] + tuple.size];
      j := j + 1;
    }
    assert queue[..j] == queue;
    r := Some(t);
  }

  /** `getSouthTupleQueueEvents` as a loop over the devices and their south
      queues; None where it would unbox null. */
  method SouthTupleQueueEvents(t0: map<string, int>, devices: seq<FogDevice>) returns (r: Option<map<string, int>>)
    ensures r == AddSouth(t0, SouthTuples(devices))
  {
    var t := t0;
    var i := 0;
    while i < |devices|
      invariant 0 <= i <= |devices|
      invariant AddSouth(t0, SouthTuples(devices[..i])) == Some(t)
    {
      assert devices[..i + 1][..i] == devices[..i];
      AddSouthAppend(t0, SouthTuples(devices[..i]), devices[i].southQueue);
      var next := SouthQueueEvents(t, devices[i].southQueue);
      if next.None? {
        assert AddSouth(t0, SouthTuples(devices)).None? by {
          SouthTuplesPrefix(devices, i + 1);
          SouthNoneStays(t0, SouthTuples(devices[..i + 1]), SouthTuples(devices));
        }
        return None;
      }
      t := next.value;
      i := i + 1;
    }
    assert devices[..i] == devices;
    r := Some(t);
  }

  /** `setUnexecutedEventsForEachOperator`: zero every module name, then the three passes. */
  method UnexecutedEvents(apps: map<string, Application>, order: seq<string>, future: seq<FutureEvent>,
                          devices: seq<FogDevice>) returns (r: Option<map<string, int>>)
    requires forall id :: id in order ==> id in apps
    ensures r == RemainingData(apps, order, future, devices)
  {
    var table := ModuleReport(apps, order, Zero);
    var afterFuture := FutureQueueEvents(table, future);
    if afterFuture.None? {
      return None;
    }
    var afterNorth := NorthTupleQueueEvents(afterFuture.value, devices);
    r := SouthTupleQueueEvents(afterNorth, devices);
  }

  // ---------------------------------------------------------------------
  // The end-of-run snapshot

  /** The metrics the controller fills in; None for a map or loop latency not (yet) set.
      `tuplesSentBySensors` is a Java `int` field, so it starts at zero rather than unset. */
  datatype Metrics = Metrics(
    placement: Option<map<string, string>>,
    latencyPerTupleType: Option<map<string, real>>,
    appLoopLatency: Option<real>,
    energyConsumptionPerDevice: Option<map<string, real>>,
    tuplesSentBySensors: Option<int>,
    tuplesProcessedPerModule: Option<map<string, int>>,
    recsInPerModule: Option<map<string, real>>,
    recsOutPerModule: Option<map<string, real>>,
    remainingDataPerOperator: Option<map<string, int>>)

  const NoMetrics := Metrics(None, None, None, None, Some(0), None, None, None, None)
}
