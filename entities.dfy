/** The simulation entities the controller reads and writes, as records.

    Devices, sensors, actuators, applications and placements belong to the
    simulation framework; only the fields the controller touches are kept. */
module Entities {

  /** A tuple still waiting somewhere, reduced to what the backlog report reads:
      the name of the module that emitted it and its file size. */
  datatype PendingTuple = PendingTuple(srcModuleName: string, size: int)

  /** A fog device. `northQueue` and `southQueue` are its pending uplink and
      downlink tuples; `energyConsumption` is the reading it reports. */
  datatype FogDevice = FogDevice(
    id: int,
    name: string,
    parentIds: seq<int>,
    uplinkLatency: real,
    childToLatency: map<int, real>,
    childrenIds: seq<int>,
    energyConsumption: real,
    northQueue: seq<PendingTuple>,
    southQueue: seq<PendingTuple>)

  datatype Sensor = Sensor(id: int, appId: string, totalTuplesSent: int)

  datatype Actuator = Actuator(id: int, appId: string, actuatorType: string)

  /** The three edge kinds of an application graph (AppEdge.SENSOR, ACTUATOR, MODULE). */
  datatype EdgeKind = SensorEdge | ActuatorEdge | ModuleEdge

  datatype AppEdge = AppEdge(source: string, destination: string, tupleType: string, edgeType: EdgeKind)

  /** An application module with the counters the end-of-run report copies. */
  datatype AppModule = AppModule(
    name: string,
    totalTuplesProcessed: int,
    avgTuplesSentPerSec: real,
    avgTuplesReceivedPerSec: real)

  datatype AppLoop = AppLoop(loopId: int, modules: seq<string>)

  datatype Application = Application(
    appId: string,
    modules: seq<AppModule>,
    edges: seq<AppEdge>,
    loops: seq<AppLoop>)

  /** One entry of a placement's device-to-modules map. */
  datatype DeviceModules = DeviceModules(deviceId: int, modules: seq<AppModule>)

  /** A module placement result: the entries of its device-to-modules map, in
      the order in which iterating that map visits them. */
  datatype ModulePlacement = ModulePlacement(deviceToModules: seq<DeviceModules>)

  /** The (device id, module) pairs of one placement entry, in list order. */
  function DevicePairs(deviceId: int, modules: seq<AppModule>): (r: seq<(int, AppModule)>)
    ensures |r| == |modules|
    decreases |modules|
  {
    if modules == [] then []
    else DevicePairs(deviceId, modules[..|modules| - 1]) + [(deviceId, modules[|modules| - 1])]
  }

  /** Pair k of a device's pairs is (device id, module k). */
  lemma {:induction false} DevicePairsIndex(deviceId: int, modules: seq<AppModule>)
    ensures forall k :: 0 <= k < |modules| ==> DevicePairs(deviceId, modules)[k] == (deviceId, modules[k])
    decreases |modules|
  {
    if modules != [] {
      var n := |modules| - 1;
      DevicePairsIndex(deviceId, modules[..n]);
      forall k | 0 <= k < |modules|
        ensures DevicePairs(deviceId, modules)[k] == (deviceId, modules[k])
      {
        if k < n {
          assert modules[..n][k] == modules[k];
        }
      }
    }
  }

  /** Every (device id, module) pair of a placement, in iteration order. */
  function PlacedPairs(entries: seq<DeviceModules>): seq<(int, AppModule)>
    decreases |entries|
  {
    if entries == [] then []
    else
      var e := entries[|entries| - 1];
      PlacedPairs(entries[..|entries| - 1]) + DevicePairs(e.deviceId, e.modules)
  }

  /** Event tags (FogEvents); `OtherTag` stands for every tag the controller ignores. */
  datatype Tag =
    | AppSubmit
    | TupleFinished
    | ControllerResourceManage
    | StopSimulation
    | ResourceMgmt
    | ActiveAppUpdate
    | LaunchModule
    | TupleArrival
    | OtherTag(code: int)

  datatype Payload = NoData | AppData(app: Application) | ModuleData(appModule: AppModule)

  /** A message the controller hands to the engine: `send(dest, delay, tag, data)`;
      `sendNow` is a send with delay 0. */
  datatype Message = Message(dest: int, delay: real, tag: Tag, data: Payload)

  /** An event dispatched to the controller. */
  datatype SimEvent = SimEvent(tag: Tag, data: Payload)

  /** An event still in the engine's future queue: its tag and, for a
      TUPLE_ARRIVAL event, the tuple it carries. */
  datatype FutureEvent = FutureEvent(tag: Tag, tuple: PendingTuple)
}
