/** The messages the controller hands to the simulation engine over its
    lifetime (Controller.startEntity, processAppSubmit, manageResources),
    as sequences in emission order. */
module Lifecycle {
  import opened Common
  import opened Entities

  /** `sendNow(dev.getId(), tag, data)` for every device, in list order. */
  function Broadcast(devices: seq<FogDevice>, tag: Tag, data: Payload): (r: seq<Message>)
    ensures |r| == |devices|
    decreases |devices|
  {
    if devices == [] then []
    else Broadcast(devices[..|devices| - 1], tag, data) + [Message(devices[|devices| - 1].id, 0.0, tag, data)]
  }

  /** The two messages one (device id, module) pair of a placement receives:
      the application, then the module to launch. */
  function LaunchPair(app: Application, deviceId: int, m: AppModule): seq<Message> {
    [Message(deviceId, 0.0, AppSubmit, AppData(app)), Message(deviceId, 0.0, LaunchModule, ModuleData(m))]
  }

  /** The launch messages of all pairs, in placement order. */
  function Launches(app: Application, pairs: seq<(int, AppModule)>): (r: seq<Message>)
    ensures |r| == 2 * |pairs|
    decreases |pairs|
  {
    if pairs == [] then []
    else
      var p := pairs[|pairs| - 1];
      Launches(app, pairs[..|pairs| - 1]) + LaunchPair(app, p.0, p.1)
  }

  /** `processAppSubmit(application)`: tell every device about the
      application, then launch every placed module on its device. */
  function Activation(app: Application, devices: seq<FogDevice>, placement: ModulePlacement): seq<Message> {
    Broadcast(devices, ActiveAppUpdate, AppData(app)) + Launches(app, PlacedPairs(placement.deviceToModules))
  }

  /** What `startEntity` does for one application: activate it at once when
      its launch delay is 0, otherwise send the controller itself an
      APP_SUBMIT after that delay. */
  function AppStart(selfId: int, app: Application, delay: int, devices: seq<FogDevice>, placement: ModulePlacement): seq<Message> {
    if delay == 0 then Activation(app, devices, placement)
    else [Message(selfId, delay as real, AppSubmit, AppData(app))]
  }

  /** The application is known under its id, with a delay and a placement. */
  predicate Registered(id: string, apps: map<string, Application>, delays: map<string, int>, policies: map<string, ModulePlacement>) {
    id in apps && id in delays && id in policies
  }

  /** The first loop of `startEntity`, applications in iteration order `order`. */
  function AppStarts(selfId: int, apps: map<string, Application>, delays: map<string, int>,
                     policies: map<string, ModulePlacement>, devices: seq<FogDevice>, order: seq<string>): seq<Message>
    requires forall id :: id in order ==> Registered(id, apps, delays, policies)
    decreases |order|
  {
    if order == [] then []
    else
      var id := order[|order| - 1];
      assert id in order && Registered(id, apps, delays, policies);
      AppStarts(selfId, apps, delays, policies, devices, order[..|order| - 1])
      + AppStart(selfId, apps[id], delays[id], devices, policies[id])
  }

  /** All of `startEntity`: the applications, then the first resource
      management round and the end of the run, both to the controller
      itself, then a RESOURCE_MGMT to every device. */
  function StartMessages(selfId: int, interval: real, maxTime: real, apps: map<string, Application>,
                         delays: map<string, int>, policies: map<string, ModulePlacement>,
                         devices: seq<FogDevice>, order: seq<string>): seq<Message>
    requires forall id :: id in order ==> Registered(id, apps, delays, policies)
  {
    AppStarts(selfId, apps, delays, policies, devices, order)
    + [Message(selfId, interval, ControllerResourceManage, NoData), Message(selfId, maxTime, StopSimulation, NoData)]
    + Broadcast(devices, ResourceMgmt, NoData)
  }

  /** `manageResources`: schedule the next round one interval later. */
  function ManageMessages(selfId: int, interval: real): seq<Message> {
    [Message(selfId, interval, ControllerResourceManage, NoData)]
  }

  /** The number of messages with tag `tag`. */
  function CountTag(msgs: seq<Message>, tag: Tag): (r: nat)
    ensures r <= |msgs|
    decreases |msgs|
  {
    if msgs == [] then 0
    else CountTag(msgs[..|msgs| - 1], tag) + (if msgs[|msgs| - 1].tag == tag then 1 else 0)
  }

  lemma {:induction false} CountTagAppend(a: seq<Message>, b: seq<Message>, tag: Tag)
    ensures CountTag(a + b, tag) == CountTag(a, tag) + CountTag(b, tag)
    decreases |b|
  {
    if b != [] {
      var n := |b| - 1;
      var ab := a + b;
      assert ab[..|ab| - 1] == a + b[..n];
      assert ab[|ab| - 1] == b[n];
      assert CountTag(ab, tag) == CountTag(ab[..|ab| - 1], tag) + (if ab[|ab| - 1].tag == tag then 1 else 0);
      CountTagAppend(a, b[..n], tag);
    } else {
      assert a + b == a;
    }
  }

  /** A broadcast sends, at once, exactly one message to each device, in list order. */
  lemma {:induction false} BroadcastLayout(devices: seq<FogDevice>, tag: Tag, data: Payload)
    ensures forall k :: 0 <= k < |devices| ==> Broadcast(devices, tag, data)[k] == Message(devices[k].id, 0.0, tag, data)
    decreases |devices|
  {
    if devices != [] {
      var n := |devices| - 1;
      BroadcastLayout(devices[..n], tag, data);
      forall k | 0 <= k < n
        ensures Broadcast(devices, tag, data)[k] == Message(devices[k].id, 0.0, tag, data)
      {
        assert devices[..n][k] == devices[k];
      }
    }
  }

  /** A broadcast carries only its own tag, once per device. */
  lemma {:induction false} BroadcastCount(devices: seq<FogDevice>, tag: Tag, data: Payload, other: Tag)
    ensures CountTag(Broadcast(devices, tag, data), other) == if other == tag then |devices| else 0
    decreases |devices|
  {
    if devices != [] {
      var n := |devices| - 1;
      BroadcastCount(devices[..n], tag, data, other);
    }
  }

  /** Pair k of the placement receives messages 2k (its application, as
      APP_SUBMIT) and 2k+1 (its module, as LAUNCH_MODULE), both at once. */
  lemma {:induction false} LaunchesLayout(app: Application, pairs: seq<(int, AppModule)>)
    ensures forall k :: 0 <= k < |pairs| ==>
              Launches(app, pairs)[2 * k] == Message(pairs[k].0, 0.0, AppSubmit, AppData(app)) &&
              Launches(app, pairs)[2 * k + 1] == Message(pairs[k].0, 0.0, LaunchModule, ModuleData(pairs[k].1))
    decreases |pairs|
  {
    if pairs != [] {
      var n := |pairs| - 1;
      LaunchesLayout(app, pairs[..n]);
      forall k | 0 <= k < n
        ensures Launches(app, pairs)[2 * k] == Message(pairs[k].0, 0.0, AppSubmit, AppData(app))
        ensures Launches(app, pairs)[2 * k + 1] == Message(pairs[k].0, 0.0, LaunchModule, ModuleData(pairs[k].1))
      {
        assert pairs[..n][k] == pairs[k];
      }
    }
  }

  /** The launches of two runs of pairs are those of the first run, then
      those of the second. */
  lemma {:induction false} LaunchesAppend(app: Application, a: seq<(int, AppModule)>, b: seq<(int, AppModule)>)
    ensures Launches(app, a + b) == Launches(app, a) + Launches(app, b)
    decreases |b|
  {
    if b == [] {
      assert a + b == a;
    } else {
      var n := |b| - 1;
      assert (a + b)[..|a + b| - 1] == a + b[..n];
      LaunchesAppend(app, a, b[..n]);
    }
  }

  /** Every launch message is sent at once. */
  lemma {:induction false} LaunchesImmediate(app: Application, pairs: seq<(int, AppModule)>)
    ensures forall k :: 0 <= k < |Launches(app, pairs)| ==> Launches(app, pairs)[k].delay == 0.0
    decreases |pairs|
  {
    if pairs != [] {
      var n := |pairs| - 1;
      LaunchesImmediate(app, pairs[..n]);
    }
  }

  /** The launches hold one APP_SUBMIT and one LAUNCH_MODULE per pair and nothing else. */
  lemma {:induction false} LaunchesCount(app: Application, pairs: seq<(int, AppModule)>, tag: Tag)
    ensures CountTag(Launches(app, pairs), tag) == if tag == AppSubmit || tag == LaunchModule then |pairs| else 0
    decreases |pairs|
  {
    if pairs != [] {
      var n := |pairs| - 1;
      var p := pairs[n];
      LaunchesCount(app, pairs[..n], tag);
      CountTagAppend(Launches(app, pairs[..n]), LaunchPair(app, p.0, p.1), tag);
      assert LaunchPair(app, p.0, p.1)[..1] == [Message(p.0, 0.0, AppSubmit, AppData(app))];
    }
  }

  /** Activation counts: one ACTIVE_APP_UPDATE per device, and as many
      APP_SUBMIT as LAUNCH_MODULE messages, one of each per placed module. */
  lemma ActivationCounts(app: Application, devices: seq<FogDevice>, placement: ModulePlacement, tag: Tag)
    ensures var pairs := PlacedPairs(placement.deviceToModules);
            CountTag(Activation(app, devices, placement), tag)
              == if tag == ActiveAppUpdate then |devices|
                 else if tag == AppSubmit || tag == LaunchModule then |pairs|
                 else 0
  {
    var pairs := PlacedPairs(placement.deviceToModules);
    CountTagAppend(Broadcast(devices, ActiveAppUpdate, AppData(app)), Launches(app, pairs), tag);
    BroadcastCount(devices, ActiveAppUpdate, AppData(app), tag);
    LaunchesCount(app, pairs, tag);
  }

  /** Every pair of a placement names the device of its entry. */
  lemma {:induction false} PlacedPairsFrom(entries: seq<DeviceModules>, k: nat)
    requires k < |PlacedPairs(entries)|
    ensures exists i :: 0 <= i < |entries| && entries[i].deviceId == PlacedPairs(entries)[k].0
    decreases |entries|
  {
    var n := |entries| - 1;
    var e := entries[n];
    var before := PlacedPairs(entries[..n]);
    if k < |before| {
      PlacedPairsFrom(entries[..n], k);
      var i :| 0 <= i < n && entries[..n][i].deviceId == before[k].0;
      assert entries[i] == entries[..n][i];
    } else {
      DevicePairsIndex(e.deviceId, e.modules);
      assert PlacedPairs(entries)[k] == DevicePairs(e.deviceId, e.modules)[k - |before|];
    }
  }

  /** Every message of an activation other than the ACTIVE_APP_UPDATE
      broadcast goes to a device the placement names: a device absent from
      the placement receives only the broadcast. */
  lemma UnplacedOnlyUpdated(app: Application, devices: seq<FogDevice>, placement: ModulePlacement, k: nat)
    requires k < |Activation(app, devices, placement)|
    ensures Activation(app, devices, placement)[k].tag == ActiveAppUpdate ||
            exists i :: 0 <= i < |placement.deviceToModules| &&
                        placement.deviceToModules[i].deviceId == Activation(app, devices, placement)[k].dest
  {
    var b := Broadcast(devices, ActiveAppUpdate, AppData(app));
    var pairs := PlacedPairs(placement.deviceToModules);
    if k < |b| {
      BroadcastLayout(devices, ActiveAppUpdate, AppData(app));
    } else {
      var j := k - |b|;
      LaunchesLayout(app, pairs);
      PlacedPairsFrom(placement.deviceToModules, j / 2);
      assert j == 2 * (j / 2) || j == 2 * (j / 2) + 1;
      assert Activation(app, devices, placement)[k] == Launches(app, pairs)[j];
    }
  }

  /** The application part of `startEntity` only activates and submits:
      it holds no resource management, stop or RESOURCE_MGMT message. */
  lemma {:induction false} AppStartsOnlyActivate(selfId: int, apps: map<string, Application>, delays: map<string, int>,
                                                policies: map<string, ModulePlacement>, devices: seq<FogDevice>,
                                                order: seq<string>, tag: Tag)
    requires forall id :: id in order ==> Registered(id, apps, delays, policies)
    requires tag != ActiveAppUpdate && tag != AppSubmit && tag != LaunchModule
    ensures CountTag(AppStarts(selfId, apps, delays, policies, devices, order), tag) == 0
    decreases |order|
  {
    if order != [] {
      var n := |order| - 1;
      var id := order[n];
      assert id in order;
      var app, delay, placement := apps[id], delays[id], policies[id];
      var before := AppStarts(selfId, apps, delays, policies, devices, order[..n]);
      var one := AppStart(selfId, app, delay, devices, placement);
      assert AppStarts(selfId, apps, delays, policies, devices, order) == before + one;
      AppStartsOnlyActivate(selfId, apps, delays, policies, devices, order[..n], tag);
      CountTagAppend(before, one, tag);
      if delay == 0 {
        ActivationCounts(app, devices, placement, tag);
      } else {
        assert one[..0] == [];
      }
    }
  }

  /** An application with a non-zero delay contributes only its own
      self-addressed APP_SUBMIT, after that delay; one with delay 0 is
      activated at once, so nothing in its part is delayed. */
  lemma AppStartDelay(selfId: int, app: Application, delay: int, devices: seq<FogDevice>, placement: ModulePlacement)
    ensures delay != 0 ==> AppStart(selfId, app, delay, devices, placement)
                             == [Message(selfId, delay as real, AppSubmit, AppData(app))]
    ensures delay == 0 ==> forall k :: 0 <= k < |AppStart(selfId, app, delay, devices, placement)| ==>
                             AppStart(selfId, app, delay, devices, placement)[k].delay == 0.0
  {
    if delay == 0 {
      var b: seq<Message> := Broadcast(devices, ActiveAppUpdate, AppData(app));
      var pairs := PlacedPairs(placement.deviceToModules);
      var l: seq<Message> := Launches(app, pairs);
      BroadcastLayout(devices, ActiveAppUpdate, AppData(app));
      LaunchesImmediate(app, pairs);
      assert AppStart(selfId, app, delay, devices, placement) == b + l;
      forall k | 0 <= k < |b + l|
        ensures (b + l)[k].delay == 0.0
      {
        if k >= |b| {
          assert (b + l)[k] == l[k - |b|];
        }
      }
    }
  }

  /** The two self-addressed messages of `startEntity`, counted by tag. */
  lemma ScheduleCount(selfId: int, interval: real, maxTime: real, tag: Tag)
    ensures var m := [Message(selfId, interval, ControllerResourceManage, NoData), Message(selfId, maxTime, StopSimulation, NoData)];
            CountTag(m, tag) == (if tag == ControllerResourceManage then 1 else 0) + (if tag == StopSimulation then 1 else 0)
  {
    var m := [Message(selfId, interval, ControllerResourceManage, NoData), Message(selfId, maxTime, StopSimulation, NoData)];
    assert m[..1] == [m[0]];
    assert m[..1][..0] == [];
  }

  /** How many messages of each tag other than the activation tags
      `startEntity` emits: the schedule's and the devices' only. */
  lemma StartCount(selfId: int, interval: real, maxTime: real, apps: map<string, Application>,
                   delays: map<string, int>, policies: map<string, ModulePlacement>,
                   devices: seq<FogDevice>, order: seq<string>, tag: Tag)
    requires forall id :: id in order ==> Registered(id, apps, delays, policies)
    requires tag != ActiveAppUpdate && tag != AppSubmit && tag != LaunchModule
    ensures CountTag(StartMessages(selfId, interval, maxTime, apps, delays, policies, devices, order), tag)
              == (if tag == ControllerResourceManage then 1 else 0) + (if tag == StopSimulation then 1 else 0)
                 + (if tag == ResourceMgmt then |devices| else 0)
  {
    var a := AppStarts(selfId, apps, delays, policies, devices, order);
    var m := [Message(selfId, interval, ControllerResourceManage, NoData), Message(selfId, maxTime, StopSimulation, NoData)];
    var b := Broadcast(devices, ResourceMgmt, NoData);
    AppStartsOnlyActivate(selfId, apps, delays, policies, devices, order, tag);
    CountTagAppend(a, m, tag);
    CountTagAppend(a + m, b, tag);
    ScheduleCount(selfId, interval, maxTime, tag);
    BroadcastCount(devices, ResourceMgmt, NoData, tag);
  }

  /** `startEntity` emits exactly one CONTROLLER_RESOURCE_MANAGE (after the
      interval), exactly one STOP_SIMULATION (at the end of the run), and
      one RESOURCE_MGMT per device. */
  lemma StartCounts(selfId: int, interval: real, maxTime: real, apps: map<string, Application>,
                    delays: map<string, int>, policies: map<string, ModulePlacement>,
                    devices: seq<FogDevice>, order: seq<string>)
    requires forall id :: id in order ==> Registered(id, apps, delays, policies)
    ensures CountTag(StartMessages(selfId, interval, maxTime, apps, delays, policies, devices, order), ControllerResourceManage) == 1
    ensures CountTag(StartMessages(selfId, interval, maxTime, apps, delays, policies, devices, order), StopSimulation) == 1
    ensures CountTag(StartMessages(selfId, interval, maxTime, apps, delays, policies, devices, order), ResourceMgmt) == |devices|
  {
    StartCount(selfId, interval, maxTime, apps, delays, policies, devices, order, ControllerResourceManage);
    StartCount(selfId, interval, maxTime, apps, delays, policies, devices, order, StopSimulation);
    StartCount(selfId, interval, maxTime, apps, delays, policies, devices, order, ResourceMgmt);
  }

  /** Each round of resource management schedules exactly one further round
      after the same interval, and nothing else. */
  lemma ManageOnce(selfId: int, interval: real, tag: Tag)
    ensures CountTag(ManageMessages(selfId, interval), tag) == if tag == ControllerResourceManage then 1 else 0
    ensures forall k :: 0 <= k < |ManageMessages(selfId, interval)| ==>
              ManageMessages(selfId, interval)[k].delay == interval && ManageMessages(selfId, interval)[k].dest == selfId
  {
    assert ManageMessages(selfId, interval)[..0] == [];
  }
}
