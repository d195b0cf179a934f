/** The controller entity (Controller.java): it owns the devices, sensors,
    actuators and submitted applications, wires the topology when it is
    built, starts the applications, answers the events the engine
    dispatches to it and fills in the end-of-run metrics.

    The simulation engine is abstracted: `send` and `sendNow` append to
    `outbox`, the engine's future queue and the TimeKeeper singleton are
    parameters of `ProcessEvent`, and the iteration order of the Java hash
    maps is an explicit parameter wherever the source iterates one. */
module ControllerModel {
  import opened Common
  import opened Entities
  import opened Topology
  import opened Submission
  import opened Lifecycle
  import opened Reports
  import opened TimeKeeping

  /** The placement `setPlacement` reports: that of the last application
      iteration visits; None where the source dereferences null (no
      placement under that id, or a placed device id naming no device). */
  function PlacementOf(devices: seq<FogDevice>, policies: map<string, ModulePlacement>, appIds: seq<string>)
    : Option<map<string, string>>
  {
    if LastApp(appIds) in policies then PlacementReport(devices, policies[LastApp(appIds)]) else None
  }

  /** The STOP_SIMULATION handler runs every report builder without an exception. */
  predicate StopCompletes(devices: seq<FogDevice>, apps: map<string, Application>,
                          policies: map<string, ModulePlacement>, appIds: seq<string>, future: seq<FutureEvent>)
    requires forall id :: id in appIds ==> id in apps
  {
    PlacementOf(devices, policies, appIds).Some? && RemainingData(apps, appIds, future, devices).Some?
  }

  /** The metrics after the STOP_SIMULATION handler. The builders run in the
      source's order and each sets its field when it finishes; an exception
      in `setPlacement` stops them all, one in the backlog builder leaves
      only that field as it was. */
  function StopMetrics(prior: Metrics, devices: seq<FogDevice>, sensors: seq<Sensor>, apps: map<string, Application>,
                       policies: map<string, ModulePlacement>, appIds: seq<string>, latencies: map<string, real>,
                       loopIds: seq<int>, loopAverages: map<int, real>, future: seq<FutureEvent>): Metrics
    requires forall id :: id in appIds ==> id in apps
    requires forall i :: 0 <= i < |loopIds| ==> loopIds[i] in loopAverages
  {
    match PlacementOf(devices, policies, appIds)
    case None => prior
    case Some(p) =>
      Metrics(
        Some(p),
        Some(latencies),
        Some(LoopLatency(loopIds, loopAverages)),
        Some(Collect(EnergyPairs(devices))),
        Some(TuplesSentBySensors(sensors)),
        Some(Collect(ModulePairs(apps, appIds, TuplesProcessed))),
        Some(Collect(ModulePairs(apps, appIds, TuplesReceivedPerSec))),
        Some(Collect(ModulePairs(apps, appIds, TuplesSentPerSec))),
        match RemainingData(apps, appIds, future, devices)
        case None => prior.remainingDataPerOperator
        case Some(d) => Some(d))
  }

  /** Two per-module reports over the same applications have the same keys. */
  lemma ModuleReportsSameKeys<V, W>(apps: map<string, Application>, appIds: seq<string>, f: AppModule -> V, g: AppModule -> W)
    requires forall id :: id in appIds ==> id in apps
    ensures Collect(ModulePairs(apps, appIds, f)).Keys == Collect(ModulePairs(apps, appIds, g)).Keys
  {
    forall name | name in Collect(ModulePairs(apps, appIds, f))
      ensures name in Collect(ModulePairs(apps, appIds, g))
    {
      ModuleReportSpec(apps, appIds, f, name);
      ModuleReportSpec(apps, appIds, g, name);
    }
    forall name | name in Collect(ModulePairs(apps, appIds, g))
      ensures name in Collect(ModulePairs(apps, appIds, f))
    {
      ModuleReportSpec(apps, appIds, f, name);
      ModuleReportSpec(apps, appIds, g, name);
    }
  }

  /** After a STOP_SIMULATION that completes, every metric is set, and the
      four per-module tables (tuples processed, records in, records out,
      remaining data) have the same keys: the module names of the
      applications. */
  lemma StopMetricsComplete(prior: Metrics, devices: seq<FogDevice>, sensors: seq<Sensor>, apps: map<string, Application>,
                            policies: map<string, ModulePlacement>, appIds: seq<string>, latencies: map<string, real>,
                            loopIds: seq<int>, loopAverages: map<int, real>, future: seq<FutureEvent>)
    requires forall id :: id in appIds ==> id in apps
    requires forall i :: 0 <= i < |loopIds| ==> loopIds[i] in loopAverages
    requires StopCompletes(devices, apps, policies, appIds, future)
    ensures StopMetrics(prior, devices, sensors, apps, policies, appIds, latencies, loopIds, loopAverages, future).placement.Some?
    ensures StopMetrics(prior, devices, sensors, apps, policies, appIds, latencies, loopIds, loopAverages, future).remainingDataPerOperator.Some?
    ensures StopMetrics(prior, devices, sensors, apps, policies, appIds, latencies, loopIds, loopAverages, future).tuplesProcessedPerModule.value.Keys
              == StopMetrics(prior, devices, sensors, apps, policies, appIds, latencies, loopIds, loopAverages, future).remainingDataPerOperator.value.Keys
    ensures StopMetrics(prior, devices, sensors, apps, policies, appIds, latencies, loopIds, loopAverages, future).recsInPerModule.value.Keys
              == StopMetrics(prior, devices, sensors, apps, policies, appIds, latencies, loopIds, loopAverages, future).remainingDataPerOperator.value.Keys
    ensures StopMetrics(prior, devices, sensors, apps, policies, appIds, latencies, loopIds, loopAverages, future).recsOutPerModule.value.Keys
              == StopMetrics(prior, devices, sensors, apps, policies, appIds, latencies, loopIds, loopAverages, future).remainingDataPerOperator.value.Keys
  {
    RemainingDataValues(apps, appIds, future, devices);
    ModuleReportsSameKeys(apps, appIds, TuplesProcessed, Zero);
    ModuleReportsSameKeys(apps, appIds, TuplesReceivedPerSec, Zero);
    ModuleReportsSameKeys(apps, appIds, TuplesSentPerSec, Zero);
  }

  /** An exception in `setPlacement` leaves every metric as it was. */
  lemma StopMetricsPlacementFails(prior: Metrics, devices: seq<FogDevice>, sensors: seq<Sensor>, apps: map<string, Application>,
                                  policies: map<string, ModulePlacement>, appIds: seq<string>, latencies: map<string, real>,
                                  loopIds: seq<int>, loopAverages: map<int, real>, future: seq<FutureEvent>)
    requires forall id :: id in appIds ==> id in apps
    requires forall i :: 0 <= i < |loopIds| ==> loopIds[i] in loopAverages
    ensures PlacementOf(devices, policies, appIds).None? <==>
              (LastApp(appIds) !in policies ||
               exists i :: 0 <= i < |PlacedPairs(policies[LastApp(appIds)].deviceToModules)| &&
                           FindDevice(devices, PlacedPairs(policies[LastApp(appIds)].deviceToModules)[i].0).None?)
    ensures PlacementOf(devices, policies, appIds).None? ==>
              StopMetrics(prior, devices, sensors, apps, policies, appIds, latencies, loopIds, loopAverages, future) == prior
  {
    if LastApp(appIds) in policies {
      PlacementReportFails(devices, policies[LastApp(appIds)]);
    }
  }

  /** With a single application, the reported placement is that
      application's, for the one application iteration can visit. */
  lemma SingleAppPlacement(devices: seq<FogDevice>, policies: map<string, ModulePlacement>, appId: string)
    requires appId in policies
    ensures PlacementOf(devices, policies, [appId]) == PlacementReport(devices, policies[appId])
  {
  }

  /** Starting the first i + 1 applications: the first i, then application i. */
  lemma AppStartsStep(selfId: int, apps: map<string, Application>, delays: map<string, int>,
                      policies: map<string, ModulePlacement>, devices: seq<FogDevice>, order: seq<string>, i: nat)
    requires forall id :: id in order ==> Registered(id, apps, delays, policies)
    requires i < |order|
    ensures forall id :: id in order[..i] ==> Registered(id, apps, delays, policies)
    ensures forall id :: id in order[..i + 1] ==> Registered(id, apps, delays, policies)
    ensures order[i] in order && Registered(order[i], apps, delays, policies)
    ensures AppStarts(selfId, apps, delays, policies, devices, order[..i + 1])
              == AppStarts(selfId, apps, delays, policies, devices, order[..i])
                 + AppStart(selfId, apps[order[i]], delays[order[i]], devices, policies[order[i]])
  {
    assert order[..i + 1][..i] == order[..i];
    assert order[i] in order;
  }

  /** The launches of the first k + 1 placement entries: those of the first
      k, then those of entry k. */
  lemma LaunchesStep(app: Application, entries: seq<DeviceModules>, k: nat)
    requires k < |entries|
    ensures Launches(app, PlacedPairs(entries[..k + 1]))
              == Launches(app, PlacedPairs(entries[..k])) + Launches(app, DevicePairs(entries[k].deviceId, entries[k].modules))
  {
    assert entries[..k + 1][..k] == entries[..k];
    LaunchesAppend(app, PlacedPairs(entries[..k]), DevicePairs(entries[k].deviceId, entries[k].modules));
  }

  class Controller {
    /** The entity id the engine assigned (`getId()`). */
    const id: int
    /** Config.RESOURCE_MANAGE_INTERVAL and Config.MAX_SIMULATION_TIME. */
    const resourceManageInterval: real
    const maxSimulationTime: real

    var fogDevices: seq<FogDevice>
    var sensors: seq<Sensor>
    var actuators: seq<Actuator>
    var applications: map<string, Application>
    var appLaunchDelays: map<string, int>
    var appModulePlacementPolicy: map<string, ModulePlacement>
    /** Every `subscribeActuator` call made so far, in call order. */
    var subscriptions: seq<Subscription>
    /** Every message sent so far, in send order. */
    var outbox: seq<Message>
    /** `CloudSim.terminateSimulation()` has been called. */
    var terminated: bool
    var metrics: Metrics

    /** The three application maps have the same keys, and every
        application is stored under its own id. */
    ghost predicate Valid()
      reads this
    {
      applications.Keys == appLaunchDelays.Keys &&
      appLaunchDelays.Keys == appModulePlacementPolicy.Keys &&
      forall k :: k in applications ==> applications[k].appId == k
    }

    /** No application yet, the parents' latency tables and children lists
        wired from the children's parent ids, an empty metrics record. */
    constructor (id: int, devices: seq<FogDevice>, sensors: seq<Sensor>, actuators: seq<Actuator>,
                 resourceManageInterval: real, maxSimulationTime: real)
      ensures Valid()
      ensures this.id == id && this.resourceManageInterval == resourceManageInterval &&
              this.maxSimulationTime == maxSimulationTime
      ensures fogDevices == Wire(devices, devices)
      ensures this.sensors == sensors && this.actuators == actuators
      ensures applications == map[] && appLaunchDelays == map[] && appModulePlacementPolicy == map[]
      ensures subscriptions == [] && outbox == [] && !terminated && metrics == NoMetrics
    {
      this.id := id;
      this.resourceManageInterval := resourceManageInterval;
      this.maxSimulationTime := maxSimulationTime;
      applications := map[];
      appLaunchDelays := map[];
      appModulePlacementPolicy := map[];
      var wired := ConnectWithLatencies(devices);
      fogDevices := wired;
      this.actuators := actuators;
      this.sensors := sensors;
      subscriptions := [];
      outbox := [];
      terminated := false;
      metrics := NoMetrics;
    }

    /** `send(dest, delay, tag, data)`; `sendNow` is a send with delay 0. */
    method Send(dest: int, delay: real, tag: Tag, data: Payload)
      modifies this`outbox
      ensures outbox == old(outbox) + [Message(dest, delay, tag, data)]
    {
      outbox := outbox + [Message(dest, delay, tag, data)];
    }

    /** The inner loop of `submitApplication` for one ACTUATOR edge: subscribe
        the edge's source to every actuator whose type matches the
        destination up to case. */
    method SubscribeActuators(edge: AppEdge)
      requires edge.edgeType == ActuatorEdge
      modifies this`subscriptions
      ensures subscriptions == old(subscriptions) + EdgeSubscriptions(edge, actuators)
    {
      var moduleName := edge.source;
      var j := 0;
      while j < |actuators|
        invariant 0 <= j <= |actuators|
        invariant subscriptions == old(subscriptions) + EdgeSubscriptions(edge, actuators[..j])
      {
        var actuator := actuators[j];
        assert actuators[..j + 1][..j] == actuators[..j];
        if EqualsIgnoreCase(actuator.actuatorType, edge.destination) {
          subscriptions := subscriptions + [Subscription(moduleName, actuator.id, edge.tupleType)];
        }
        j := j + 1;
      }
      assert actuators[..j] == actuators;
    }

    /** `submitApplication(application, delay, modulePlacement)`: store the
        application, its delay and its placement under its id, then record
        the actuator subscriptions of its ACTUATOR edges. */
    method SubmitApplication(app: Application, delay: int, placement: ModulePlacement)
      requires Valid()
      modifies this`applications, this`appLaunchDelays, this`appModulePlacementPolicy, this`subscriptions
      ensures Valid()
      ensures applications == old(applications)[app.appId := app]
      ensures appLaunchDelays == old(appLaunchDelays)[app.appId := delay]
      ensures appModulePlacementPolicy == old(appModulePlacementPolicy)[app.appId := placement]
      ensures subscriptions == old(subscriptions) + Subscriptions(app.edges, actuators)
    {
      applications := applications[app.appId := app];
      appLaunchDelays := appLaunchDelays[app.appId := delay];
      appModulePlacementPolicy := appModulePlacementPolicy[app.appId := placement];
      SubscribeEdges(app.edges);
    }

    /** The outer loop of `submitApplication`: the subscriptions of every
        ACTUATOR edge, edges in list order. */
    method SubscribeEdges(edges: seq<AppEdge>)
      modifies this`subscriptions
      ensures subscriptions == old(subscriptions) + Subscriptions(edges, actuators)
    {
      var i := 0;
      while i < |edges|
        invariant 0 <= i <= |edges|
        invariant subscriptions == old(subscriptions) + Subscriptions(edges[..i], actuators)
      {
        var edge := edges[i];
        ghost var done := Subscriptions(edges[..i], actuators);
        assert Subscriptions(edges[..i + 1], actuators) == done + EdgeSubscriptions(edge, actuators) by {
          assert edges[..i + 1][..i] == edges[..i];
        }
        if edge.edgeType == ActuatorEdge {
          SubscribeActuators(edge);
        } else {
          NoMatchNoSubscription(edge, actuators);
        }
        AppendAssoc(old(subscriptions), done, EdgeSubscriptions(edge, actuators));
        i := i + 1;
      }
      assert edges[..i] == edges;
    }

    /** `submitApplication(application, modulePlacement)`: launch delay 0. */
    method SubmitApplicationNoDelay(app: Application, placement: ModulePlacement)
      requires Valid()
      modifies this`applications, this`appLaunchDelays, this`appModulePlacementPolicy, this`subscriptions
      ensures Valid()
      ensures applications == old(applications)[app.appId := app]
      ensures appLaunchDelays == old(appLaunchDelays)[app.appId := 0]
      ensures appModulePlacementPolicy == old(appModulePlacementPolicy)[app.appId := placement]
      ensures subscriptions == old(subscriptions) + Subscriptions(app.edges, actuators)
    {
      SubmitApplication(app, 0, placement);
    }

    /** The launch messages for one placement entry: APP_SUBMIT then
        LAUNCH_MODULE to the entry's device, for each of its modules. */
    method LaunchModules(app: Application, deviceId: int, modules: seq<AppModule>)
      modifies this`outbox
      ensures outbox == old(outbox) + Launches(app, DevicePairs(deviceId, modules))
    {
      var j := 0;
      while j < |modules|
        invariant 0 <= j <= |modules|
        invariant outbox == old(outbox) + Launches(app, DevicePairs(deviceId, modules[..j]))
      {
        var m := modules[j];
        assert modules[..j + 1][..j] == modules[..j];
        ghost var pairs := DevicePairs(deviceId, modules[..j + 1]);
        assert pairs[..|pairs| - 1] == DevicePairs(deviceId, modules[..j]);
        Send(deviceId, 0.0, AppSubmit, AppData(app));
        Send(deviceId, 0.0, LaunchModule, ModuleData(m));
        j := j + 1;
      }
      assert modules[..j] == modules;
    }

    /** `sendNow(dev.getId(), tag, data)` for every device, in list order. */
    method SendToAllDevices(tag: Tag, data: Payload)
      modifies this`outbox
      ensures outbox == old(outbox) + Broadcast(fogDevices, tag, data)
    {
      var i := 0;
      while i < |fogDevices|
        invariant 0 <= i <= |fogDevices|
        invariant outbox == old(outbox) + Broadcast(fogDevices[..i], tag, data)
      {
        assert fogDevices[..i + 1][..i] == fogDevices[..i];
        Send(fogDevices[i].id, 0.0, tag, data);
        i := i + 1;
      }
      assert fogDevices[..i] == fogDevices;
    }

    /** The loop of `processAppSubmit` over the placement's device-to-modules map. */
    method LaunchPlacement(app: Application, entries: seq<DeviceModules>)
      modifies this`outbox
      ensures outbox == old(outbox) + Launches(app, PlacedPairs(entries))
    {
      var k := 0;
      while k < |entries|
        invariant 0 <= k <= |entries|
        invariant outbox == old(outbox) + Launches(app, PlacedPairs(entries[..k]))
      {
        var e := entries[k];
        LaunchModules(app, e.deviceId, e.modules);
        assert outbox == old(outbox) + Launches(app, PlacedPairs(entries[..k + 1])) by {
          LaunchesStep(app, entries, k);
          AppendAssoc(old(outbox), Launches(app, PlacedPairs(entries[..k])), Launches(app, DevicePairs(e.deviceId, e.modules)));
        }
        k := k + 1;
      }
      assert entries[..k] == entries;
    }

    /** `processAppSubmit(application)`: store the application, tell every
        device about it, then launch every module of its placement. */
    method ProcessAppSubmit(app: Application)
      requires Valid() && app.appId in appModulePlacementPolicy
      modifies this`applications, this`outbox
      ensures Valid()
      ensures applications == old(applications)[app.appId := app]
      ensures outbox == old(outbox) + Activation(app, fogDevices, appModulePlacementPolicy[app.appId])
    {
      applications := applications[app.appId := app];
      var placement := appModulePlacementPolicy[app.appId];
      SendToAllDevices(ActiveAppUpdate, AppData(app));
      LaunchPlacement(app, placement.deviceToModules);
    }

    /** The body of `startEntity`'s first loop for one application: activate
        it at once when its launch delay is 0, and otherwise send the
        controller an APP_SUBMIT after the delay. */
    method StartApplication(appId: string)
      requires Valid() && appId in applications
      modifies this`applications, this`outbox
      ensures Valid() && applications == old(applications)
      ensures outbox == old(outbox) + AppStart(id, applications[appId], appLaunchDelays[appId], fogDevices,
                                               appModulePlacementPolicy[appId])
    {
      var app := applications[appId];
      if appLaunchDelays[appId] == 0 {
        ProcessAppSubmit(app);
        assert old(applications)[appId := app] == old(applications);
      } else {
        Send(id, appLaunchDelays[appId] as real, AppSubmit, AppData(app));
      }
    }

    /** The first loop of `startEntity`, applications in iteration order `order`. */
    method StartApplications(order: seq<string>)
      requires Valid() && Enumerates(order, applications.Keys)
      modifies this`applications, this`outbox
      ensures Valid() && applications == old(applications)
      ensures forall id :: id in order ==> Registered(id, applications, appLaunchDelays, appModulePlacementPolicy)
      ensures outbox == old(outbox) + AppStarts(id, applications, appLaunchDelays, appModulePlacementPolicy, fogDevices, order)
    {
      assert forall id :: id in order ==> Registered(id, applications, appLaunchDelays, appModulePlacementPolicy);
      assert AppStarts(id, applications, appLaunchDelays, appModulePlacementPolicy, fogDevices, order[..0]) == [] by {
        assert order[..0] == [];
      }
      assert outbox == old(outbox) + [];
      var i := 0;
      while i < |order|
        modifies this`applications, this`outbox
        invariant 0 <= i <= |order|
        invariant Valid() && applications == old(applications)
        invariant outbox == old(outbox) + AppStarts(id, applications, appLaunchDelays, appModulePlacementPolicy,
                                                    fogDevices, order[..i])
      {
        AppStartsStep(id, applications, appLaunchDelays, appModulePlacementPolicy, fogDevices, order, i);
        StartApplication(order[i]);
        assert outbox == old(outbox) + AppStarts(id, applications, appLaunchDelays, appModulePlacementPolicy,
                                                 fogDevices, order[..i + 1]) by {
          AppendAssoc(old(outbox), AppStarts(id, applications, appLaunchDelays, appModulePlacementPolicy,
                                             fogDevices, order[..i]),
                      AppStart(id, applications[order[i]], appLaunchDelays[order[i]], fogDevices,
                               appModulePlacementPolicy[order[i]]));
        }
        i := i + 1;
      }
      assert order[..i] == order;
    }

    /** `startEntity`, applications in iteration order `order`: start each
        one, schedule the first resource-management round and the end of the
        run, and send RESOURCE_MGMT to every device. */
    method StartEntity(order: seq<string>)
      requires Valid() && Enumerates(order, applications.Keys)
      modifies this`applications, this`outbox
      ensures Valid() && applications == old(applications)
      ensures outbox == old(outbox) + StartMessages(id, resourceManageInterval, maxSimulationTime, applications,
                                                    appLaunchDelays, appModulePlacementPolicy, fogDevices, order)
    {
      StartApplications(order);
      ghost var starts := AppStarts(id, applications, appLaunchDelays, appModulePlacementPolicy, fogDevices, order);
      ghost var schedule := [Message(id, resourceManageInterval, ControllerResourceManage, NoData),
                             Message(id, maxSimulationTime, StopSimulation, NoData)];
      Send(id, resourceManageInterval, ControllerResourceManage, NoData);
      Send(id, maxSimulationTime, StopSimulation, NoData);
      assert outbox == old(outbox) + (starts + schedule);
      ghost var scheduled := outbox;
      SendToAllDevices(ResourceMgmt, NoData);
      assert outbox == old(outbox) + (starts + schedule + Broadcast(fogDevices, ResourceMgmt, NoData)) by {
        AppendAssoc(old(outbox), starts + schedule, Broadcast(fogDevices, ResourceMgmt, NoData));
      }
    }

    /** `manageResources`: schedule the next round one interval later. */
    method ManageResources()
      modifies this`outbox
      ensures outbox == old(outbox) + ManageMessages(id, resourceManageInterval)
    {
      Send(id, resourceManageInterval, ControllerResourceManage, NoData);
    }

    /** The STOP_SIMULATION branch: terminate, then run the report builders
        in the source's order; `completed` is false where one of them would
        throw NullPointerException. */
    method Stop(tk: TimeKeeper, appIds: seq<string>, loopIds: seq<int>, future: seq<FutureEvent>) returns (completed: bool)
      requires forall id :: id in appIds ==> id in applications
      requires forall i :: 0 <= i < |loopIds| ==> loopIds[i] in tk.loopIdToCurrentAverage
      modifies this`terminated, this`metrics
      ensures terminated
      ensures completed == StopCompletes(fogDevices, applications, appModulePlacementPolicy, appIds, future)
      ensures metrics == StopMetrics(old(metrics), fogDevices, sensors, applications, appModulePlacementPolicy, appIds,
                                     tk.tupleTypeToAverageCpuTime, loopIds, tk.loopIdToCurrentAverage, future)
    {
      terminated := true;
      var appId := LastApp(appIds);
      if appId !in appModulePlacementPolicy {
        return false;
      }
      var placement := BuildPlacement(fogDevices, appModulePlacementPolicy[appId]);
      if placement.None? {
        return false;
      }
      metrics := metrics.(placement := placement);
      var latencies := CopyLatencies(tk.tupleTypeToAverageCpuTime);
      metrics := metrics.(latencyPerTupleType := Some(latencies));
      var loopLatency := AppLoopLatency(loopIds, tk.loopIdToCurrentAverage);
      metrics := metrics.(appLoopLatency := Some(loopLatency));
      var energy := EnergyPerDevice(fogDevices);
      metrics := metrics.(energyConsumptionPerDevice := Some(energy));
      metrics := metrics.(tuplesSentBySensors := Some(TuplesSentBySensors(sensors)));
      var processed := ModuleReport(applications, appIds, TuplesProcessed);
      metrics := metrics.(tuplesProcessedPerModule := Some(processed));
      var recsIn := ModuleReport(applications, appIds, TuplesReceivedPerSec);
      metrics := metrics.(recsInPerModule := Some(recsIn));
      var recsOut := ModuleReport(applications, appIds, TuplesSentPerSec);
      metrics := metrics.(recsOutPerModule := Some(recsOut));
      var remaining := UnexecutedEvents(applications, appIds, future, fogDevices);
      if remaining.None? {
        return false;
      }
      metrics := metrics.(remainingDataPerOperator := remaining);
      completed := true;
    }

    /** `processEvent(ev)`: APP_SUBMIT activates the application it carries,
        CONTROLLER_RESOURCE_MANAGE schedules the next round, STOP_SIMULATION
        ends the run and builds the metrics, and every other tag (among them
        TUPLE_FINISHED) changes nothing. */
    method ProcessEvent(ev: SimEvent, tk: TimeKeeper, appIds: seq<string>, loopIds: seq<int>, future: seq<FutureEvent>)
      returns (completed: bool)
      requires Valid() && tk.Valid()
      requires Enumerates(appIds, applications.Keys)
      requires Enumerates(loopIds, tk.loopIdToTupleIds.Keys)
      requires ev.tag == AppSubmit ==> ev.data.AppData? && ev.data.app.appId in appModulePlacementPolicy
      modifies this`applications, this`outbox, this`terminated, this`metrics
      ensures Valid()
      ensures ev.tag == AppSubmit ==>
                completed && terminated == old(terminated) && metrics == old(metrics) &&
                applications == old(applications)[ev.data.app.appId := ev.data.app] &&
                outbox == old(outbox) + Activation(ev.data.app, fogDevices, appModulePlacementPolicy[ev.data.app.appId])
      ensures ev.tag == ControllerResourceManage ==>
                completed && terminated == old(terminated) && metrics == old(metrics) &&
                applications == old(applications) &&
                outbox == old(outbox) + ManageMessages(id, resourceManageInterval)
      ensures ev.tag == StopSimulation ==>
                terminated && applications == old(applications) && outbox == old(outbox) &&
                completed == StopCompletes(fogDevices, applications, appModulePlacementPolicy, appIds, future) &&
                metrics == StopMetrics(old(metrics), fogDevices, sensors, applications, appModulePlacementPolicy, appIds,
                                       tk.tupleTypeToAverageCpuTime, loopIds, tk.loopIdToCurrentAverage, future)
      ensures ev.tag != AppSubmit && ev.tag != ControllerResourceManage && ev.tag != StopSimulation ==>
                completed && terminated == old(terminated) && metrics == old(metrics) &&
                applications == old(applications) && outbox == old(outbox)
    {
      completed := true;
      match ev.tag {
        case AppSubmit =>
          ProcessAppSubmit(ev.data.app);
        case ControllerResourceManage =>
          ManageResources();
        case StopSimulation =>
          assert forall id :: id in appIds ==> id in applications;
          assert forall i :: 0 <= i < |loopIds| ==> loopIds[i] in tk.loopIdToCurrentAverage by {
            forall i | 0 <= i < |loopIds|
              ensures loopIds[i] in tk.loopIdToCurrentAverage
            {
              assert loopIds[i] in loopIds;
            }
          }
          completed := Stop(tk, appIds, loopIds, future);
        case _ =>
      }
    }
  }
}
