# iFogSim controller and time keeper, modelled in Dafny

This project models two classes of iFogSim, a simulator of fog and edge
computing that runs on the CloudSim discrete-event engine:

- `org.fog.placement.Controller`, the entity that owns the fog devices,
  sensors, actuators and submitted applications. It wires the device
  topology when it is built. On start it activates or schedules every
  application. It answers the APP_SUBMIT, CONTROLLER_RESOURCE_MANAGE and
  STOP_SIMULATION events. At the end of the run it fills in the metrics
  record (placement, latencies, energy, per-module counters, backlog).
- `org.fog.utils.TimeKeeper`, the run-scoped bookkeeping of tuple start
  times, per-tuple-type average CPU times and unique ids.

The CloudSim engine is abstracted:

- `send` and `sendNow` append a `Message` to the controller's `outbox`;
- the engine's future queue, the clock (`now`) and the TimeKeeper
  singleton are parameters of the operations that read them;
- wherever the source iterates a Java `HashMap`, the iteration order is an
  explicit parameter (`order`, `appIds`, `loopIds`) that must list every key
  once (`Common.Enumerates`);
- a `Map<Integer, List<AppModule>>` placement is a sequence of
  (device id, modules) entries, in its iteration order.

Operations that change state (`Controller`, `TimeKeeper`) are a class with
fields, `modifies` clauses and loops with invariants. Each loop is proved
equal to a specification function or to its input. The properties the
source promises are proved about those functions. Where the placement and
backlog builders would throw `NullPointerException`, the model returns
`None`, and `Stop` then returns `completed == false`; the other operations
that could throw (`ProcessAppSubmit`, `ProcessEvent`, `AppLoopLatency`)
exclude those inputs by a precondition, and `Subscriptions` does not model
an unknown source module; each is listed under "Left out".

Modules, in dependency order:

- `Common`: Option, Java `int` wrap-around, `String.contains`, `equalsIgnoreCase`.
- `Entities`: devices, sensors, actuators, applications, placements, events.
- `TimeKeeping`: TimeKeeper.
- `Topology`: device lookup and `connectWithLatencies`.
- `Submission`: the actuator subscriptions of `submitApplication`.
- `Lifecycle`: the messages of `startEntity`, `processAppSubmit`, `manageResources`.
- `Reports`: the STOP_SIMULATION report builders.
- `ControllerModel`: the Controller class.

An application with launch delay 0 is activated by `startEntity`
(Controller.java:76-81), not when it is submitted; `submitApplication` only
stores it and subscribes its modules to actuators.

`TimeKeeper` is modelled as the code is written: after a tuple type's first
completion its stored count stays 1, so the stored average is not the mean
from the third completion on (see Findings). The intended update is modelled
beside it as `RecordCorrected`, with its mean property proved.

## Model

| member | source | states |
|---|---|---|
| Common.Wrap32 | src/main/java/org/fog/placement/Controller.java:236-238 | the result is a Java `int`, congruent to the exact value modulo 2^32, and equal to it when it already fits |
| Common.Inc32 | src/main/java/org/fog/utils/TimeKeeper.java:88 | `x++` on an `int`: x + 1 below INT_MAX, INT_MIN at INT_MAX |
| Common.ContainsAt | src/main/java/org/fog/placement/Controller.java:218 | the recursive `String.contains` holds iff `sub` occurs at some position of `s` |
| Entities.DevicePairsIndex | src/main/java/org/fog/placement/Controller.java:350-351 | pair k of one placement entry is (its device id, its k-th module) |
| TimeKeeping.RecordAsWritten | src/main/java/org/fog/utils/TimeKeeper.java:73-80 | a first completion stores (elapsed, 1); a later one leaves the stored count unchanged |
| TimeKeeping.StatsAsWritten | src/main/java/org/fog/utils/TimeKeeper.java:73-80 | after any non-empty run of completions of one type an entry exists and its count is still 1 |
| TimeKeeping.RecordCorrected | src/main/java/org/fog/utils/TimeKeeper.java:73-80 | the intended update: the count goes up by one with every completion |
| TimeKeeping.StatsCorrected | src/main/java/org/fog/utils/TimeKeeper.java:73-80 | corrected entries exist iff there were samples, with count equal to the number of samples |
| TimeKeeping.AsWrittenHalves | src/main/java/org/fog/utils/TimeKeeper.java:77-79 | as written, from the second sample on the average is the mean of the previous average and the newest sample |
| TimeKeeping.AsWrittenMeanUpToTwo | src/main/java/org/fog/utils/TimeKeeper.java:73-80 | as written, with one or two samples the average is still the arithmetic mean |
| TimeKeeping.AsWrittenNotMean | src/main/java/org/fog/utils/TimeKeeper.java:76-80 | as written, samples 3, 6, 9 give the average 6.75 where their mean is 6 |
| TimeKeeping.AsWrittenWithinBounds | src/main/java/org/fog/utils/TimeKeeper.java:73-80 | the as-written average still lies within any bounds that hold every sample |
| TimeKeeping.CorrectedIsMean | src/main/java/org/fog/utils/TimeKeeper.java:73-80 | the corrected recurrence stores exactly (mean of all samples, number of samples) |
| TimeKeeping.IdsFromOne | src/main/java/org/fog/utils/TimeKeeper.java:87-89 | successive `getUniqueId` calls hand out start, start + 1, ... while every id handed out stays within INT_MAX |
| TimeKeeping.IdsDistinct | src/main/java/org/fog/utils/TimeKeeper.java:54 | from a fresh counter, up to INT_MAX calls give pairwise distinct ids |
| TimeKeeping.CorrectedWithinBounds | src/main/java/org/fog/utils/TimeKeeper.java:73-80 | the corrected average lies within any bounds that hold every sample |
| TimeKeeping.MeanWithinBounds | src/main/java/org/fog/utils/TimeKeeper.java:79 | the mean of samples within [lo, hi] lies within [lo, hi] |
| TimeKeeping.RecordKeepsSummary | src/main/java/org/fog/utils/TimeKeeper.java:73-80 | one more sample keeps the average and count tables equal to the as-written summary of each type's history |
| TimeKeeping.TimeKeeper.constructor | src/main/java/org/fog/utils/TimeKeeper.java:53-63 | a new instance has count 1 and every table empty |
| TimeKeeping.TimeKeeper.ClearData | src/main/java/org/fog/utils/TimeKeeper.java:46-48 | the state becomes that of a new instance |
| TimeKeeping.TimeKeeper.GetUniqueId | src/main/java/org/fog/utils/TimeKeeper.java:87-89 | returns the old counter and stores its 32-bit increment |
| TimeKeeping.TimeKeeper.TupleStartedExecution | src/main/java/org/fog/utils/TimeKeeper.java:65-67 | the tuple's start time is set (or overwritten) to the clock; nothing else changes |
| TimeKeeping.TimeKeeper.TupleEndedExecution | src/main/java/org/fog/utils/TimeKeeper.java:69-81 | nothing changes without a recorded start; otherwise only the tuple type's entry takes the as-written update with the elapsed time (the first completion stores it with count 1, a later one rewrites only the average), and the start time is kept |
| TimeKeeping.TimeKeeper.RecordExecution | src/main/java/org/fog/utils/TimeKeeper.java:73-80 | the tuple type's entry, and no other, takes the as-written update, and the tables stay a summary of the history |
| TimeKeeping.StoredAsWritten | src/main/java/org/fog/utils/TimeKeeper.java:69-81 | a stored entry's count is 1 however many completions its type had; its average is their mean while there are at most two, and from the second on the mean of the previous average and the newest time |
| TimeKeeping.AverageWithinBounds | src/main/java/org/fog/utils/TimeKeeper.java:69-81 | every stored average lies within any bounds that hold every execution time of its type |
| Topology.FindDevice | src/main/java/org/fog/placement/Controller.java:52-58 | the first device with that id, or None iff no device has it |
| Topology.GetCloud | src/main/java/org/fog/placement/Controller.java:246-251 | the first device named "cloud", or None iff there is none |
| Topology.HitsFound | src/main/java/org/fog/placement/Controller.java:62-69 | a parent id that names device j links the child to j |
| Topology.HitsOnly | src/main/java/org/fog/placement/Controller.java:62-69 | a device is linked only to the child being processed |
| Topology.LinkParentsSkeleton | src/main/java/org/fog/placement/Controller.java:62-70 | linking one child changes no device field except its child tables |
| Topology.LinkParentsChildrenAt | src/main/java/org/fog/placement/Controller.java:62-70 | device j's children list gains the child once per parent id that names j |
| Topology.LinkParentsLatencyAt | src/main/java/org/fog/placement/Controller.java:62-70 | device j's latency table maps the child to its uplink latency iff some parent id names j, and is otherwise unchanged |
| Topology.WireSkeleton | src/main/java/org/fog/placement/Controller.java:60-72 | the wiring changes no device field except the child tables |
| Topology.WireKeepsHits | src/main/java/org/fog/placement/Controller.java:63 | parent ids resolve to the same devices before and after any part of the wiring |
| Topology.WireChildren | src/main/java/org/fog/placement/Controller.java:60-72 | device j's children list is its old list followed by every child that names j, children in list order |
| Topology.WireTable | src/main/java/org/fog/placement/Controller.java:60-72 | device j's latency table has exactly the old keys and the linked children, and old keys not re-linked keep their values |
| Topology.WireUntouched | src/main/java/org/fog/placement/Controller.java:60-72 | a device that no child names as a parent is unchanged |
| Topology.WireLatency | src/main/java/org/fog/placement/Controller.java:67-69 | with distinct child ids, each parent a child names maps it to its uplink latency and lists it as a child |
| Topology.LinkParentsSkipsUnknown | src/main/java/org/fog/placement/Controller.java:63-66 | parent ids that name no device are skipped without error |
| Topology.ConnectWithLatencies | src/main/java/org/fog/placement/Controller.java:60-72 | the nested loops compute the wiring of every device as a child of its parents |
| Submission.ServedCount | src/main/java/org/fog/placement/Controller.java:321-322 | zero iff the edge serves none of the actuators |
| Submission.EdgeSubscriptionsCount | src/main/java/org/fog/placement/Controller.java:321-324 | an edge makes one subscription per actuator it serves |
| Submission.EdgeSubscriptionsSound | src/main/java/org/fog/placement/Controller.java:319-324 | every subscription of an edge names the edge's source module and tuple type and an actuator the edge serves |
| Submission.EdgeSubscriptionsComplete | src/main/java/org/fog/placement/Controller.java:319-324 | every actuator whose type equals the edge's destination up to case is subscribed |
| Submission.ExactlyOnce | src/main/java/org/fog/placement/Controller.java:321-323 | with distinct actuator ids, each served actuator is subscribed exactly once and any other not at all |
| Submission.NoMatchNoSubscription | src/main/java/org/fog/placement/Controller.java:319-322 | a non-ACTUATOR edge, or one that serves no actuator, subscribes nothing |
| Submission.SubscriptionsSpec | src/main/java/org/fog/placement/Controller.java:318-326 | an application's subscriptions are exactly the union of its edges' subscriptions |
| Submission.CaseInsensitiveExample | src/main/java/org/fog/placement/Controller.java:322 | an edge to "Display" serves an actuator of type "DISPLAY" |
| Lifecycle.BroadcastLayout | src/main/java/org/fog/placement/Controller.java:345-347 | a broadcast sends message k at once to device k, in list order |
| Lifecycle.BroadcastCount | src/main/java/org/fog/placement/Controller.java:87-88 | a broadcast holds one message per device with its own tag and none with another |
| Lifecycle.LaunchesLayout | src/main/java/org/fog/placement/Controller.java:350-355 | placed pair k receives APP_SUBMIT as message 2k and LAUNCH_MODULE with its module as message 2k+1 |
| Lifecycle.LaunchesAppend | src/main/java/org/fog/placement/Controller.java:350-355 | the launches of two runs of pairs are those of the first run followed by those of the second |
| Lifecycle.LaunchesImmediate | src/main/java/org/fog/placement/Controller.java:352-353 | every launch message has delay 0 |
| Lifecycle.LaunchesCount | src/main/java/org/fog/placement/Controller.java:350-355 | the launches hold one APP_SUBMIT and one LAUNCH_MODULE per pair and nothing else |
| Lifecycle.ActivationCounts | src/main/java/org/fog/placement/Controller.java:339-356 | an activation sends one ACTIVE_APP_UPDATE per device and one APP_SUBMIT and one LAUNCH_MODULE per placed module |
| Lifecycle.PlacedPairsFrom | src/main/java/org/fog/placement/Controller.java:350-351 | every placed pair names the device of some placement entry |
| Lifecycle.UnplacedOnlyUpdated | src/main/java/org/fog/placement/Controller.java:345-355 | every activation message is the ACTIVE_APP_UPDATE broadcast or goes to a device the placement names |
| Lifecycle.AppStartsOnlyActivate | src/main/java/org/fog/placement/Controller.java:76-81 | the application part of `startEntity` sends no message with a tag other than the activation tags |
| Lifecycle.AppStartDelay | src/main/java/org/fog/placement/Controller.java:77-80 | a non-zero delay gives one delayed APP_SUBMIT to the controller itself; delay 0 gives an activation in which nothing is delayed |
| Lifecycle.ScheduleCount | src/main/java/org/fog/placement/Controller.java:83-85 | the two self-addressed messages are one CONTROLLER_RESOURCE_MANAGE and one STOP_SIMULATION |
| Lifecycle.StartCount | src/main/java/org/fog/placement/Controller.java:75-90 | for any non-activation tag, `startEntity` sends only the schedule's and the broadcast's messages of it |
| Lifecycle.StartCounts | src/main/java/org/fog/placement/Controller.java:75-90 | `startEntity` sends one CONTROLLER_RESOURCE_MANAGE, one STOP_SIMULATION and one RESOURCE_MGMT per device |
| Lifecycle.ManageOnce | src/main/java/org/fog/placement/Controller.java:294-296 | a resource-management round schedules exactly one further round, after the configured interval, to the controller itself |
| Reports.CollectKeys | src/main/java/org/fog/placement/Controller.java:137-143 | putting pairs into an empty map leaves exactly the keys put, each mapped to a value put with it |
| Reports.CollectLast | src/main/java/org/fog/placement/Controller.java:137-143 | a key keeps the value of the last pair that puts it |
| Reports.NamePairsSpec | src/main/java/org/fog/placement/Controller.java:140-142 | pair k is (name, value) of module k |
| Reports.ModulePairsHas | src/main/java/org/fog/placement/Controller.java:138-143 | every module of every application contributes its (name, value) pair |
| Reports.ModulePairsOnly | src/main/java/org/fog/placement/Controller.java:138-143 | every pair comes from a module of an iterated application |
| Reports.ModuleReportSpec | src/main/java/org/fog/placement/Controller.java:136-156 | a per-module report has a key iff some module of some application has that name, and each value is that of a module with the name |
| Reports.ModuleReport | src/main/java/org/fog/placement/Controller.java:224-233 | the nested loops of `setTuplesProcessedPerAppModule`, `setRecordsInPerModule` and `setRecordsOutPerModule` build the collected per-module map |
| Reports.PutModules | src/main/java/org/fog/placement/Controller.java:140-142 | the inner loop puts (name, value) for every module of one application |
| Reports.PlacementPairsSpec | src/main/java/org/fog/placement/Controller.java:127-131 | the placement pairs exist iff every placed device id names a device |
| Reports.PlacementPairsValues | src/main/java/org/fog/placement/Controller.java:128-130 | a successful report has one pair per placed pair: the module's name and its device's name |
| Reports.PlacementReportFails | src/main/java/org/fog/placement/Controller.java:127-131 | the placement report fails exactly when some placed device id names no device |
| Reports.PlacementReportLast | src/main/java/org/fog/placement/Controller.java:127-131 | a module name maps to the name of the device of its last placement |
| Reports.PlacementNoneStays | src/main/java/org/fog/placement/Controller.java:127-131 | once a prefix of the pairs fails, every longer run fails |
| Reports.PlacedPairsAppend | src/main/java/org/fog/placement/Controller.java:127-128 | the pairs of two runs of entries are those of the first followed by those of the second |
| Reports.PlaceModules | src/main/java/org/fog/placement/Controller.java:128-130 | the inner loop extends the report by one entry's modules, or fails where the device is missing |
| Reports.BuildPlacement | src/main/java/org/fog/placement/Controller.java:121-134 | the nested loops of `setPlacement` compute the placement report |
| Reports.CopyLatencies | src/main/java/org/fog/placement/Controller.java:277-283 | the latency table is a key-for-key copy of the average CPU time table |
| Reports.LoopLatencySpec | src/main/java/org/fog/placement/Controller.java:286-292 | the loop latency is 0.0 with no loop, one of the loops' averages otherwise, and that loop's average with exactly one |
| Reports.AppLoopLatency | src/main/java/org/fog/placement/Controller.java:286-292 | the loop keeps the current average of the last loop id visited |
| Reports.LoopModulesSpec | src/main/java/org/fog/placement/Controller.java:265-268 | nothing is found iff no loop has the id; otherwise the modules of the first one with it |
| Reports.ModulesForLoopIdSpec | src/main/java/org/fog/placement/Controller.java:262-271 | null iff no application has a loop with the id; otherwise the modules of the first such loop of the first such application |
| Reports.EnergyPairs | src/main/java/org/fog/placement/Controller.java:256-258 | pair k is (name, energy consumption) of device k |
| Reports.EnergyReportSpec | src/main/java/org/fog/placement/Controller.java:254-260 | the energy report has a key for exactly the device names, and a name maps to the energy of its last device |
| Reports.EnergyPerDevice | src/main/java/org/fog/placement/Controller.java:254-260 | the loop builds the collected energy map |
| Reports.TuplesSentBySensors | src/main/java/org/fog/placement/Controller.java:236-238 | the stream sum is a Java `int` |
| Reports.SensorSumWraps | src/main/java/org/fog/placement/Controller.java:236-238 | the sum wrapped at every addition is the exact total wrapped once, and the exact total when that fits |
| Reports.AddFutureSpec | src/main/java/org/fog/placement/Controller.java:208-222 | the future-queue pass succeeds iff every counted TUPLE_ARRIVAL comes from a module with an entry, and then adds each module's counted sizes |
| Reports.AddNorthSpec | src/main/java/org/fog/placement/Controller.java:183-194 | the north pass keeps the key set and adds each module's queued sizes, skipping unknown modules |
| Reports.AddSouthSpec | src/main/java/org/fog/placement/Controller.java:196-206 | the south pass succeeds iff every tuple comes from a module with an entry, and then adds each module's queued sizes |
| Reports.InitialBacklogKeys | src/main/java/org/fog/placement/Controller.java:170-176 | the starting table has a key for exactly the module names |
| Reports.InitialBacklogZero | src/main/java/org/fog/placement/Controller.java:174 | every starting entry is 0 |
| Reports.RemainingDataSome | src/main/java/org/fog/placement/Controller.java:169-181 | the backlog report exists iff every counted future event and every south-queue tuple comes from a known module |
| Reports.RemainingDataValues | src/main/java/org/fog/placement/Controller.java:169-181 | its keys are the module names, and module m's value is its future, north and south sizes summed |
| Reports.FutureNoneStays | src/main/java/org/fog/placement/Controller.java:219 | once the future pass fails, later events do not recover it |
| Reports.SouthNoneStays | src/main/java/org/fog/placement/Controller.java:203 | once a prefix of the south tuples fails, every longer run fails |
| Reports.AddNorthAppend | src/main/java/org/fog/placement/Controller.java:184-193 | the north pass over two runs is the pass over the second from the result of the first |
| Reports.AddSouthAppend | src/main/java/org/fog/placement/Controller.java:197-205 | the south pass over two runs fails if the first fails, and otherwise continues from its result |
| Reports.FutureQueueEvents | src/main/java/org/fog/placement/Controller.java:208-222 | the loop computes the future-queue pass, None where it would dereference null |
| Reports.NorthQueueEvents | src/main/java/org/fog/placement/Controller.java:186-192 | the inner loop computes the north pass over one device's queue |
| Reports.NorthTupleQueueEvents | src/main/java/org/fog/placement/Controller.java:183-194 | the nested loops compute the north pass over every device's queue |
| Reports.SouthQueueEvents | src/main/java/org/fog/placement/Controller.java:199-204 | the inner loop computes the south pass over one device's queue, None where it would dereference null |
| Reports.SouthTupleQueueEvents | src/main/java/org/fog/placement/Controller.java:196-206 | the nested loops compute the south pass over every device's queue |
| Reports.UnexecutedEvents | src/main/java/org/fog/placement/Controller.java:169-181 | zeroing every module name, then the three passes, gives the backlog report |
| ControllerModel.ModuleReportsSameKeys | src/main/java/org/fog/placement/Controller.java:136-156 | any two per-module reports over the same applications have the same keys |
| ControllerModel.StopMetricsComplete | src/main/java/org/fog/placement/Controller.java:104-117 | after a STOP_SIMULATION that completes, the placement and the backlog are set, and the three per-module reports share the backlog's keys |
| ControllerModel.StopMetricsPlacementFails | src/main/java/org/fog/placement/Controller.java:106 | `setPlacement` fails iff the last application has no placement or places on an unknown device, and then no metric changes |
| ControllerModel.SingleAppPlacement | src/main/java/org/fog/placement/Controller.java:121-134 | with one application, the reported placement is that of its own policy |
| ControllerModel.Controller.constructor | src/main/java/org/fog/placement/Controller.java:32-46 | no application yet, devices wired from their parent ids, sensors and actuators stored, nothing sent, empty metrics except `tuplesSentBySensors`, a Java `int` that starts at 0 |
| ControllerModel.Controller.Send | src/main/java/org/fog/placement/Controller.java:80 | one message is appended to the outbox |
| ControllerModel.Controller.SubscribeActuators | src/main/java/org/fog/placement/Controller.java:321-324 | the inner loop logs exactly the edge's subscriptions |
| ControllerModel.Controller.SubmitApplication | src/main/java/org/fog/placement/Controller.java:305-327 | the application, its delay and its placement are stored under its id, and exactly its edges' subscriptions are made |
| ControllerModel.Controller.SubscribeEdges | src/main/java/org/fog/placement/Controller.java:318-326 | the outer loop logs the subscriptions of every edge, in edge order |
| ControllerModel.Controller.SubmitApplicationNoDelay | src/main/java/org/fog/placement/Controller.java:329-331 | the same as a submission with delay 0 |
| ControllerModel.Controller.LaunchModules | src/main/java/org/fog/placement/Controller.java:351-354 | the inner loop sends APP_SUBMIT and LAUNCH_MODULE for every module of one entry |
| ControllerModel.Controller.SendToAllDevices | src/main/java/org/fog/placement/Controller.java:345-347 | one message with the tag is sent to every device, in list order |
| ControllerModel.Controller.LaunchPlacement | src/main/java/org/fog/placement/Controller.java:349-355 | the nested loops send the launches of every placed pair, in placement order |
| ControllerModel.Controller.ProcessAppSubmit | src/main/java/org/fog/placement/Controller.java:339-356 | the application is stored under its id and exactly its activation is sent |
| ControllerModel.Controller.StartApplication | src/main/java/org/fog/placement/Controller.java:77-80 | one application is activated at once (delay 0) or scheduled as APP_SUBMIT after its delay |
| ControllerModel.Controller.StartApplications | src/main/java/org/fog/placement/Controller.java:76-81 | every application is started in iteration order |
| ControllerModel.Controller.StartEntity | src/main/java/org/fog/placement/Controller.java:75-90 | the outbox gains the application starts, the first resource round, the end of the run and a RESOURCE_MGMT per device |
| ControllerModel.Controller.ManageResources | src/main/java/org/fog/placement/Controller.java:294-296 | the next resource round is scheduled one interval later |
| ControllerModel.Controller.Stop | src/main/java/org/fog/placement/Controller.java:104-117 | the run is terminated; the metrics are those the report builders leave in order, and `completed` is false exactly where one would throw |
| ControllerModel.Controller.ProcessEvent | src/main/java/org/fog/placement/Controller.java:92-119 | APP_SUBMIT activates its application, CONTROLLER_RESOURCE_MANAGE schedules the next round, STOP_SIMULATION ends the run with the metrics, and any other tag changes nothing |

## Left out

- Console output (`System.out.println` in `processAppSubmit`) is not modelled.
- `setExecutionTime` reads the wall clock (`Calendar`), so the execution-time metric is not modelled.
- `setNetworkUsage` reads `NetworkUsageMonitor`, a static outside this model, so the network-usage metric is not modelled.
- `setThroughputPerAppModule` is never called and divides by the engine clock, so it is not modelled.
- `FogUtils.appIdToGeoCoverageMap` updates in `submitApplication` and `processAppSubmit` are not modelled; the map belongs to another class.
- `setControllerId` on devices and sensors, and the `setApp` loops over sensors and actuators in `submitApplication`, change objects the controller does not own; they are not modelled.
- The TimeKeeper singleton (`getInstance`) is not modelled; the instance is passed as a parameter, and `clearData` resets that instance.
- `addCostCalcData` has its whole body commented out and does nothing, so it is not modelled.
- Plain getters and setters, and `loopIdToTupleIds()`, only return or replace a field; they are not modelled.
- `processTupleFinished` and `shutdownEntity` have empty bodies; TUPLE_FINISHED is modelled as changing nothing.
- `CloudSim.terminateSimulation()` is modelled by the `terminated` flag.
- The engine's delivery of messages is outside this model; the outbox records what is sent, in order.
- Java `HashMap` iteration order is not computed; it is a parameter listing every key once.
- Objects are values: devices, applications and modules are datatypes, so aliasing between the controller's lists and other holders is not modelled.
- `subscribeActuator` calls are logged in the controller's `subscriptions` field instead of being applied to the `AppModule` objects.
- `actuator.getActuatorType().equalsIgnoreCase(...)` is modelled with ASCII case folding only.
- Only the `Metrics` fields the controller sets are modelled; the `Metrics` class itself and its exporters are not.
- `getStringForLoopId` returns the loop's module list; the `toString` rendering of that list is not modelled.
- The backlog sums are unbounded integers; `long` overflow is not modelled.
- Reports.FutureQueueEvents: the cast of an event's data to `Tuple` is modelled by the data shape; a `ClassCastException` is not.
- Submission.Subscriptions: `application.getModuleByName` returning null for an unknown source module, and the resulting exception, is not modelled.
- ControllerModel.Controller.ProcessAppSubmit: requires a placement policy stored under the application's id; without one the source throws `NullPointerException`.
- ControllerModel.Controller.ProcessEvent: requires APP_SUBMIT events to carry an application with a stored placement; the other data would throw `ClassCastException` or `NullPointerException`.
- Reports.AppLoopLatency: requires every tracked loop id to have a current average. A missing one would throw when unboxed. The maps are filled outside this model, so `TimeKeeping.TimeKeeper.Valid` carries this as an invariant.
- ControllerModel.Controller.Stop: requires only that the iterated ids are applications and that the loop ids have averages, not the whole controller invariant.

## Findings

| source | as written | input that shows it | evidently intended | confidence | as-written member | corrected member |
|---|---|---|---|---|---|---|
| src/main/java/org/fog/utils/TimeKeeper.java:76-80 | a later completion updates the average with the stored count but never increments the count, so it stays 1 | three completions of one tuple type with elapsed times 3, 6, 9 store 6.75; their mean is 6 | the count goes up with every completion, and the stored average is the arithmetic mean of all elapsed times | not executed | TimeKeeping.AsWrittenNotMean | TimeKeeping.CorrectedIsMean |
