# Pixel hardware services: a verified model of their control logic

This project models the parts of the Pixel hardware services that decide something, and proves what they
decide over whole runs. Everything that talks to the kernel, binder or a statistics service is an input or an
output event of the model.

- **Thermal engine** (`severity.dfy`, `sensor_graph.dfy`, `formulas.dfy`, `emulation_reach.dfy`,
  `sensor_status.dfy`, `emulation_arrival.dfy`, `smoothing.dfy`, `watcher_pass.dfy`, `rail_order.dfy`,
  `notifications.dfy`, `thermal_helper.dfy`). A temperature and the previous severity give the next severity, with hysteresis. Over
  every run of readings "severity at or above level L" is a two-threshold latch of level L alone, *if and only if*
  L has a positive hysteresis or no higher threshold lies above it; the parser defaults the hysteresis to zero, so
  the restriction is real. Falling through a level costs at least its hysteresis of downward movement. Virtual
  sensors read each other recursively and through a cache; a read equals the pure recursive value of the link graph
  with emulated temperatures and usable samples given, and the samples it stores change no other reading. Emulating
  a temperature marks exactly the watched virtual sensors a chain of links leads to. A watcher pass reads exactly the
  sensors that are due, keeps every severity equal to the severity of a run over the temperatures the sensor was
  evaluated at, keeps the notifications replayable, and sleeps exactly until the first sensor whose read did not
  fail asks to be looked at. A sensor whose read fails casts no vote, so a pass in which all of them fail returns
  no finite sleep. A mark forces a read, not a read past a cached sample that is still fresh: `FreshSampleHides`
  is an emulated temperature that does not arrive, and `EmulationArrives` says when it does. Marking follows links
  through watched virtual sensors only, so a sensor that depends on the target through a coefficient or an
  unwatched sensor changes without being marked (`MarkLaw`). The rails are read again after the first successful
  read of a pass, so with rails the order of the sensors shows (`OrderShows`) and without rails it does not.
- **Deadline worker pool** (`worker_pool.dfy`, `worker_pool_loss.dfy`, `worker_pool_timing.dfy`,
  `worker_pool_delivery.dfy`). A machine over interleaved steps, one per critical section or unlocked access, for
  any number of threads and callers. No package runs twice; nothing runs after `removeCallback`. `schedule` reads the id counter after it released
  the lock: a package of a registered worker is lost only if two of its `schedule` calls overlapped in that gap,
  and *if and only if* they did, unless an entry for an earlier worker at the same address was left behind.
  `OverlapLoses` loses one; `LeftBehindStandsIn` and `LeftBehindRunsEarly` show what such an entry does. Every package
  that is stored stays stored until it is handed to its callback with its payload (`DeliveryLaw`). `loop`
  ignores the result of `wait_until`: no package is popped early or out of order *if and only if* the pool has at
  most one thread. The repository creates one.
- **ADPF PID controller** (`adpf_pid.dfy`, `adpf_terms.dfy`, `integers.dfy`). The output is the sum of three
  terms, each with the gain its sign selects. Longer durations never lower the output, despite
  truncation, clamping and the gain switch, *if and only if* the D window is the longest. Splitting a batch
  leaves no trace *if and only if* the I window takes every sample. The D term divides by zero, and
  has no value, *if and only if* the target is less than 100000 ns away from zero. The next minimum is a 32-bit
  sum, and follows the output *if and only if* that sum does not go around.
- **Battery defender** (`battery_defender.dfy`, `battery_defender_runs.dfy`). Charger-present time is the loaded
  baseline plus the credits since the last clear, and the defender becomes active *if and only if* it exceeds the
  activation time. The defender stays charging through a run *if and only if* no power gap lasts as long as the resume time. The persisted files stay within the write delay of the live
  times, and n lives of the process drift by at most n - 1 write delays.
- **Event rate limiter** (`rate_limiter.dfy`). Four slots and a counter decide like the full history would, and
  no hour of any run holds more than four events.
- **IO usage** (`io_usage.dfy`, `comma_format.dfy`). The top arrays hold the five largest sums whatever order the
  map yields the users in; totals and increments are exact modulo 2^64; numbers print with commas and read back. The
  terminator of a print goes past the buffer *if and only if* the number has a comma and its print is exactly as
  wide as the buffer, which the callers' buffers of 32 rule out.
- **Pressure stall metrics** (`psi_parser.dfy`, `psi_format.dfy`, `psi_aggregate.dfy`). The parser from lines of
  text to 20 slots, the text the kernel prints, the minimum, maximum and sum between uploads.
- **Display residency** (`display_residency.dfy`). Reported times add up to the time since the first entry. An
  update reads the clock before it takes the lock; over a run no reported time goes down *if and only if*, for every
  query, the first update that leaves the state it saw carries no earlier time than the query.

Where a comment in the sources and the code differ, the model follows the code: the comment over
`readPressureStall` promises `floor(value x 100 + 0.5)` for an average, the code truncates toward zero, which is
different exactly where that number is negative and not whole (`AverageRounding`).

A sensor is called plain if it and everything it is computed from is steady: without a step ratio, or with one and
a sample that a second read at the same time finds in the cache. Assumptions on inputs are written as
preconditions. Temperatures, gains and parsed doubles are reals; NaN is an absent option; clocks and timers are
unbounded integers except where a wrap-around is written out. A sum of two `int` values wraps around, as it does
where the language's undefined overflow has the usual effect.

## Model

| member | source | states |
|---|---|---|
| Severities.GetSeverityFromThresholds | thermal/thermal-helper.cpp:524-563 | the downward loop with its four flags finds, on both sides, the highest reached level, or the highest held one where that would be a drop |
| Severities.TopReached | thermal/thermal-helper.cpp:538-541 | the result is reached and no higher level is |
| Severities.TopHeld | thermal/thermal-helper.cpp:542-545 | the result is held by its hysteresis and no higher level is |
| Severities.Mirror | thermal/thermal-helper.cpp:546-553 | a cold table as a hot one: same levels and hysteresis, thresholds negated |
| Severities.SeverityStep | thermal/thermal-helper.cpp:524-563 | for every table and previous severity the next severity, in terms of thresholds and hysteresis |
| Severities.CheckHotTable | thermal/utils/thermal_info.cpp:889-952 | the parser accepts a hot table if and only if all its thresholds ascend, no threshold lies in a higher one's hysteresis band, and none is below FLT_MIN, although it compares neighbours only |
| Severities.CheckColdTable | thermal/utils/thermal_info.cpp:954-1017 | the same for the mirrored cold table |
| Severities.AdjacentSuffices | thermal/utils/thermal_info.cpp:936-952 | bands of neighbouring thresholds being clear implies all pairs are, once thresholds ascend |
| Severities.LatchStep | thermal/thermal-helper.cpp:524-563 | one severity step is one step of the level's own latch |
| Severities.StickyTracksLatch | thermal/thermal-helper.cpp:1197-1213 | over every run of a sticky level, severity at or above it equals its latch |
| Severities.SlipsOffThreshold | thermal/thermal-helper.cpp:536-562 | without hysteresis, two readings suffice to leave the latch |
| Severities.LatchLaw | thermal/thermal-helper.cpp:524-563 | the severity tracks the latch of a level over all runs if and only if the level is sticky |
| Severities.ColdMirrorsHot | thermal/thermal-helper.cpp:546-560 | a cold run is the hot run of the mirrored table over negated temperatures |
| Severities.DescentCoversSinking | thermal/thermal-helper.cpp:536-562 | the potential argument for one reading: a fall is paid for by downward movement |
| Severities.NoChatter | thermal/thermal-helper.cpp:536-562 | falls through a level times its hysteresis never exceed the total descent of the temperature |
| SensorGraph.MaximumIsGreatest | thermal/thermal-helper.cpp:1052-1057 | MAXIMUM is attained by a term and bounds every term in float range |
| SensorGraph.MinimumIsLeast | thermal/thermal-helper.cpp:1058-1063 | MINIMUM is attained by a term and bounds every term in float range |
| SensorGraph.CountIsCardinality | thermal/thermal-helper.cpp:1044-1048 | COUNT_THRESHOLD is the number of linked sensors that hit |
| Formulas.WeightedIs | thermal/thermal-helper.cpp:1049-1051 | WEIGHTED_AVG is the sum of the readings, each times its coefficient |
| Formulas.SingleWeight | thermal/thermal-helper.cpp:1049-1051 | a single coefficient that is not zero weighs its own reading alone |
| Formulas.WeightedAdds | thermal/thermal-helper.cpp:1049-1051 | it is additive in the coefficients and in the readings |
| Formulas.WeightedIsAverage | thermal/thermal-helper.cpp:1049-1051 | with coefficients that are not negative and add up to 1 it lies between any bounds of the readings |
| Formulas.MaximumIsMaximum | thermal/thermal-helper.cpp:1052-1057 | MAXIMUM is the greatest product of reading and coefficient in the range of a float |
| Formulas.MinimumIsMinimum | thermal/thermal-helper.cpp:1058-1063 | MINIMUM is the least one |
| Formulas.CountIsCount | thermal/thermal-helper.cpp:1044-1048 | COUNT_THRESHOLD is the number of readings at or above their coefficient, or below the magnitude of a negative one |
| Formulas.SourcesGive | thermal/thermal-helper.cpp:881-907 | what links give: all their values, or what the first one without a value gives, by kind of link |
| Formulas.VirtualReads | thermal/thermal-helper.cpp:1000-1072 | a virtual sensor computes what its formula makes of its links and coefficients, plus its offset, or what the first missing one gives |
| SensorGraph.OwnValuesAddNothing | thermal/thermal-helper.cpp:954-1090 | in a set of sensors closed under what they read, giving sensors the values they have changes no reading, whatever is given elsewhere; by mutual induction over ranks, links and coefficients |
| SensorGraph.EmulationReachesDependentsOnly | thermal/thermal-helper.cpp:954-1090 | emulating a sensor changes only sensors computed from it through links and sensor coefficients |
| SensorGraph.RailsDoNotMatter | thermal/thermal-helper.cpp:881-907 | without rails a reading depends on the thermal files alone |
| SensorGraph.FedByIsAffected | thermal/thermal-helper.cpp:291-311 | a direct link followed by a chain is a chain |
| SensorGraph.AffectedIsFedBy | thermal/thermal-helper.cpp:291-311 | every chain of watched virtual sensors starts with a direct link |
| SensorGraph.AffectedLaw | thermal/thermal-helper.cpp:291-311 | a sensor is affected if and only if it is watched and virtual and one of its links names the target or an affected sensor |
| EmulationReach.CoverKeeps | thermal/thermal-helper.cpp:291-311 | if every watched dependent of the target is marked, no unmarked watched sensor ever changes under emulation |
| EmulationReach.DependenceShows | thermal/thermal-helper.cpp:954-1090 | a dependence on a physical sensor always shows: in some world, with some temperatures given, the dependent reads differently under emulation |
| EmulationReach.MarkLaw | thermal/thermal-helper.cpp:291-311 | emulating a physical sensor leaves every unmarked watched sensor alone, in all worlds, if and only if every watched sensor computed from it is reached through links of watched virtual sensors |
| EmulationReach.CoefficientIsNotMarked | thermal/thermal-helper.cpp:296-304 | a configuration in which a sensor coefficient carries the emulation to a sensor that is never marked |
| EmulationReach.VirtualTargetMayNotShow | thermal/thermal-helper.cpp:291-311 | a configuration with a virtual target whose emulation changes no unmarked watched sensor in any world, although one is computed from it |
| EmulationArrival.EmulationArrives | thermal/thermal-helper.cpp:313-336 | with a coherent cache and no fresh sample between the target and a sensor, after the emulation reading that sensor through the cache is reading it past the cache |
| EmulationArrival.FreshSampleHides | thermal/thermal-helper.cpp:978-989 | a coherent cache in which a fresh sample keeps a sensor at 20 degrees while the one it repeats is emulated at 50 |
| SensorStatuses.StoreKeepsReads | thermal/thermal-helper.cpp:1080-1086 | storing what a sensor reads as its sample changes no reading of a plain sensor, smoothed or not, fresh or not |
| SensorStatuses.CoherentCacheIsInvisible | thermal/thermal-helper.cpp:978-989 | if every fresh sample is its sensor's value, reading through the cache is reading past it |
| SensorStatuses.UnsmoothedIsPlain | thermal/thermal-helper.cpp:1074-1078 | without step ratios every sensor is plain |
| SensorStatuses.PlainIsReadOnce | thermal/thermal-helper.cpp:1074-1086 | a plain sensor needs no condition on the ways that lead to it |
| SensorStatuses.LinkKept | thermal/thermal-helper.cpp:1005-1018 | having read earlier links does not show in a later one, if no sensor that is not steady is computed into both |
| Smoothing.ReadingLaw | thermal/thermal-helper.cpp:967-1078 | what a read gives by emulated temperature, age of the sample, time resolution, step ratio and passive delay, and what a physical sensor computes |
| Smoothing.BlendBetween | thermal/thermal-helper.cpp:1074-1078 | a blend lies between the last sample and what is computed, at the one for ratio 0 and at the other for ratio 1 |
| Smoothing.SecondReadDiffers | thermal/thermal-helper.cpp:1074-1086 | a smoothed sensor that two links lead to reads 8 and then 12, where the value over the graph adds 8 and 8 |
| SensorStatuses.AllDoneIsMarkedFrom | thermal/thermal-helper.cpp:291-311 | after the loop exactly the affected sensors are marked |
| SensorStatuses.EvaluationIsExplained | thermal/thermal-helper.cpp:1197-1213 | storing an evaluation's severities extends the run they belong to |
| SensorStatuses.SeverityIsLatched | thermal/thermal-helper.cpp:1197-1213 | a watched sensor's stored hot severity is, level by level, the latch over the temperatures it was evaluated at, its stored cold severity that of the mirrored table over the negated ones, and its severity is at or above a level if and only if one of the two latches is on |
| SensorStatuses.SeverityIsWorse | thermal/thermal-helper.cpp:466-472 | the stored severity is at or above a level if and only if the hot or the cold one is |
| Notifications.ChangesExtend | thermal/thermal-helper.cpp:1245-1249 | a notification that changes the known severity keeps the log free of repetitions and replayable |
| Notifications.ConsecutiveDiffer | thermal/thermal-helper.cpp:1205-1213 | two consecutive notifications for one sensor never carry the same severity |
| Notifications.FirstIsNotNone | thermal/thermal-helper.cpp:1205-1213 | a sensor's first notification is not NONE |
| ThermalHelper.Helper.constructor | thermal/thermal-helper.cpp:167-175 | every sensor starts at NONE, never updated, uncached, not emulated |
| ThermalHelper.Helper.ReadDataByType | thermal/thermal-helper.cpp:881-907 | the reading is the link's value over the graph, failures and missing data included, with emulated temperatures and usable cached samples given and recent ones blended in; only caches upstream of the link change, to samples of now, and no reading of a plain sensor does |
| ThermalHelper.Helper.ReadLinks | thermal/thermal-helper.cpp:1005-1018 | the loop over linked sensors gives all their values or the first failure |
| ThermalHelper.Helper.ApplyFormula | thermal/thermal-helper.cpp:1029-1070 | the coefficient loop computes the formula over all terms plus the offset, or the first failure |
| ThermalHelper.Helper.ReadVirtual | thermal/thermal-helper.cpp:1000-1072 | a virtual sensor computes its formula over the recursive values of what it reads |
| ThermalHelper.Helper.ReadThermalSensor | thermal/thermal-helper.cpp:954-1090 | terminates on every acyclic graph, shared sub-sensors included, and returns the recursive value with emulated temperatures and, unless bypassed, fresh samples given and recent samples blended in by step ratio, if each sensor that is not steady is computed into it in one way only; only upstream caches change, to samples of now, and no reading of a plain sensor does |
| ThermalHelper.Helper.CheckUpdateSensorForEmul | thermal/thermal-helper.cpp:291-311 | terminates and marks exactly the watched virtual sensors reached from the target through chains of watched virtual sensors; all else is unchanged |
| ThermalHelper.Helper.EmulTemp | thermal/thermal-helper.cpp:313-336 | false and nothing changed for an unknown sensor; otherwise the target gets the temperature and is to be updated, the affected sensors keep theirs and are to be updated with the same throttling, nothing else changes; severities and notifications stay consistent |
| ThermalHelper.Helper.EmulClearAll | thermal/thermal-helper.cpp:377-382 | every sensor ends cleared and pending, whatever order the marking interleaves with the clearing |
| ThermalHelper.Helper.EmulClear | thermal/thermal-helper.cpp:372-394 | "all" clears every sensor, a name exactly that one, anything else fails without effect |
| ThermalHelper.Helper.ReadTemperature | thermal/thermal-helper.cpp:416-484 | the multiplied value of the graph, for a watched sensor the severities its previous ones lead to, and the worse of the two; a missing or failed value is an error |
| ThermalHelper.Helper.Evaluate | thermal/thermal-helper.cpp:1184-1213 | on success the history grows by the sensor's value over the graph and the stored severities stay explained by it; it fails if and only if there is no value, and then nothing but caches changes |
| ThermalHelper.Helper.TestDue | thermal/thermal-helper.cpp:1119-1161 | when a sensor is due: never updated, named by an event itself or through a trigger, or overdue for the delay that its and its triggers' severities select |
| ThermalHelper.Helper.Visit | thermal/thermal-helper.cpp:1104-1237 | one sensor's turn: read if and only if marked or due; past its sample if and only if it is physical, was updated before and is named by an event; evaluated at its value in the world of its turn; the mark is taken; a change is reported, with the temperature of the evaluation, if and only if the severity changed; its vote is exactly the delay in force after its last update, and there is none if and only if the read failed |
| ThermalHelper.Helper.Deliver | thermal/thermal-helper.cpp:1244-1254 | with a callback exactly the changes of callback-enabled sensors are sent, and replaying all notifications gives their current severities; without one nothing is sent |
| ThermalHelper.Helper.ThermalWatcherCallback | thermal/thermal-helper.cpp:1094-1269 | a whole pass keeps severities explained and notifications replayable, reads exactly the watched sensors that are marked, never updated, named by an event or overdue for the delay in force at their turn, takes the marks, evaluates emulated sensors at their emulated temperature and, without events, the plain sensors up to the first success at their values when the pass began and the later ones in the refreshed world, or all of them at their values when the pass began if no sensor reads a rail, and sleeps exactly until the first sensor that did not fail asks to be looked at; with a callback it sends the changes of callback-enabled sensors, with their temperatures, and nothing else |
| WatcherPass.EarlyTurn | thermal/thermal-helper.cpp:1102-1218 | a turn before the rails are refreshed keeps every plain sensor read so far evaluated at its value when the pass began |
| WatcherPass.LaterTurn | thermal/thermal-helper.cpp:1102-1237 | a turn after the refresh keeps the early evaluations and evaluates in the refreshed world from the samples at the refresh on |
| WatcherPass.RefreshStep | thermal/thermal-helper.cpp:1215-1218 | every turn keeps: before the refresh every read has failed, and of the reads up to the refresh exactly one has succeeded |
| WatcherPass.WithoutRailsOnePhase | thermal/thermal-helper.cpp:1215-1218 | without rails the refresh and the order of the sensors do not show |
| RailOrder.OrderShows | thermal/thermal-helper.cpp:1215-1218 | with a rail they do: in every pass over two sensors on one rail the one whose turn comes first is evaluated at the old power, the other one at the new |
| RailOrder.FirstPass | thermal/thermal-helper.cpp:1094-1269 | a first pass of a helper that ends with these two histories |
| WatcherPass.ChangesStep | thermal/thermal-helper.cpp:1205-1213 | the collected notifications name exactly the sensors whose severity changed, once each |
| WatcherPass.GoesOn | thermal/thermal-helper.cpp:1102-1237 | one turn keeps everything that is claimed of a pass |
| WatcherPass.DeliverStep | thermal/thermal-helper.cpp:1245-1249 | handing out one change keeps the log in step with old and new severities |
| WatcherPass.WantedIs | thermal/thermal-helper.cpp:1245-1249 | exactly the changes of callback-enabled sensors are wanted |
| WatcherPass.WantedAppends | thermal/thermal-helper.cpp:1244-1254 | in their order |
| WatcherPass.VoteStep | thermal/thermal-helper.cpp:1167-1234 | each turn keeps the sleep the least of the delays asked for |
| WatcherPass.SleepSpelled | thermal/thermal-helper.cpp:1113-1234 | no sensor that votes waits longer than its passive or polling delay, as its severities and triggers decide, and one waits exactly that long |
| WatcherPass.ReadWhenDue | thermal/thermal-helper.cpp:1119-1161 | which sensors a pass has read: by mark, by event, by trigger, and by the delay that severity and triggers select |
| WatcherPass.QuietTriggersDecide | thermal/thermal-helper.cpp:1119-1161 | for a sensor without triggers, or whose triggers are not throttled by the pass and do not recover in it, the statuses at the start decide whether it is read |
| WorkerPool.AtMostOnce | power-libperfmgr/aidl/BackgroundWorker.h:106-144 | in every interleaving, with any number of threads, no package runs its callback twice |
| WorkerPool.RemovedUntilCreated | power-libperfmgr/aidl/BackgroundWorker.cpp:70-77 | a removed callback stays removed until the worker is created again |
| WorkerPool.NothingAfterRemoval | power-libperfmgr/aidl/BackgroundWorker.cpp:70-141 | after removeCallback no thread is inside the callback or enters it, until it is added again, while the worker may live on with open schedule calls |
| WorkerPoolLoss.FlightStep | power-libperfmgr/aidl/BackgroundWorker.cpp:79-141 | every step keeps the bookkeeping of ids in flight |
| WorkerPoolLoss.AllCountedStep | power-libperfmgr/aidl/BackgroundWorker.h:108-113 | every step keeps the count of ids read back against ids given out |
| WorkerPoolLoss.OneIsLeftOut | power-libperfmgr/aidl/BackgroundWorker.h:108-113 | fewer ids read back than given out leaves one that was never read |
| WorkerPoolLoss.LostExactlyWhenCrowded | power-libperfmgr/aidl/BackgroundWorker.h:113-113 | a registered worker created with nothing on its way to its address has a lost package if and only if two of its calls were in the gap at once |
| WorkerPoolLoss.CrowdedMeansOverlap | power-libperfmgr/aidl/BackgroundWorker.h:106-114 | the recorded crowding of any live worker is an overlap of its own calls that happened in the run |
| WorkerPoolLoss.LossMeansOverlap | power-libperfmgr/aidl/BackgroundWorker.h:106-144 | in every run a package of any registered worker, whatever was at its address before, is lost only if two of its schedule calls have overlapped |
| WorkerPoolLoss.LossLaw | power-libperfmgr/aidl/BackgroundWorker.h:106-144 | in every run a registered worker created with nothing on its way to its address has a lost package if and only if two of its schedule calls have overlapped |
| WorkerPoolLoss.OverlapLoses | power-libperfmgr/aidl/BackgroundWorker.h:106-114 | three steps of two overlapping calls lose the first package, with any number of threads |
| WorkerPoolLoss.LeftBehindStandsIn | power-libperfmgr/aidl/BackgroundWorker.h:91-114 | a run in which an entry left behind by an earlier worker at the address stands in for the one that an overlap lost |
| WorkerPoolTiming.SettledStep | power-libperfmgr/aidl/BackgroundWorker.cpp:79-141 | every step keeps each id of an uncrowded worker in one place, with the deadline it was scheduled for |
| WorkerPoolTiming.ExactlyOnePending | power-libperfmgr/aidl/BackgroundWorker.h:106-144 | with non-overlapping schedule calls every stored package of such a worker has exactly one pending id |
| WorkerPoolTiming.PunctualStep | power-libperfmgr/aidl/BackgroundWorker.cpp:86-129 | with one thread, no wait ends before the earliest deadline it was set for |
| WorkerPoolTiming.TwoThreadsPopEarly | power-libperfmgr/aidl/BackgroundWorker.cpp:101-128 | with two or more threads there is a run that pops a package before its deadline |
| WorkerPoolTiming.NeverEarlyLaw | power-libperfmgr/aidl/BackgroundWorker.cpp:86-129 | every pop of every run takes an earliest deadline that has passed, if and only if there is at most one thread |
| WorkerPoolTiming.RunsAfterDeadline | power-libperfmgr/aidl/BackgroundWorker.h:76-76 | with one thread and non-overlapping calls a package of such a worker runs only after the deadline it was scheduled with |
| WorkerPoolTiming.LeftBehindRunsEarly | power-libperfmgr/aidl/BackgroundWorker.h:91-141 | a run in which an entry left behind runs the first package of the next worker at its address before its deadline |
| WorkerPoolDelivery.NothingVanishes | power-libperfmgr/aidl/BackgroundWorker.h:106-143 | over every run a package stored in a live worker is still stored, or has been handed to the callback, with its payload |
| WorkerPoolDelivery.RunsWereStored | power-libperfmgr/aidl/BackgroundWorker.h:126-143 | nothing runs but what a call of schedule stored, with the payload it stored |
| WorkerPoolDelivery.DeliveryLaw | power-libperfmgr/aidl/BackgroundWorker.h:106-143 | a package of a clean and registered worker without overlapping calls is pending exactly once if and only if it has not run exactly once |
| WorkerPoolDelivery.ScheduleAlone | power-libperfmgr/aidl/BackgroundWorker.h:106-114 | a call of schedule that nothing comes between is always possible, stores the package under the next id and queues one entry for it |
| WorkerPoolDelivery.DueIsRun | power-libperfmgr/aidl/BackgroundWorker.cpp:86-141 | a thread at its loop brings a due top entry of a registered worker to its callback in three steps |
| WorkerPoolDelivery.TopIsEarliest | power-libperfmgr/aidl/BackgroundWorker.cpp:92-98 | a thread finds nothing exactly in an empty queue, and otherwise an earliest deadline |
| WorkerPoolDelivery.NothingDueWaits | power-libperfmgr/aidl/BackgroundWorker.cpp:101-121 | with nothing due a thread waits for the earliest deadline, and a stopped pool ends it |
| WorkerPoolDelivery.BusyComesBack | power-libperfmgr/aidl/BackgroundWorker.cpp:130-141 | a busy thread gets back to its loop by at most three steps of its own |
| WorkerPoolDelivery.RunLoops | power-libperfmgr/aidl/BackgroundWorker.cpp:86-124 | over every run no thread leaves its loop before the pool is stopped |
| AdpfPid.ClampOrdered | power-libperfmgr/libperfmgr/AdpfConfig.cc:33-38 | the divided integral bounds stay in order |
| AdpfPid.PowerHintSession.constructor | power-libperfmgr/aidl/PowerHintSession.cpp:121-135 | a session starts open, active and without accumulated error |
| AdpfPid.PowerHintSession.ConvertWorkDurationToBoostByPid | power-libperfmgr/aidl/PowerHintSession.cpp:61-119 | one loop over three windows gives the three truncated terms, the integral clamped at every sample, and a derivative sum that telescopes to the last error minus the one before its window; there is no value if and only if the target is less than one unit away from zero |
| AdpfPid.PowerHintSession.ReportActualWorkDuration | power-libperfmgr/aidl/PowerHintSession.cpp:270-324 | which calls are refused, and unchanged state then; for which targets the D term has no value; otherwise the next uclamp minimum, with the 32-bit cast and sum |
| AdpfPid.IntegralMonotone | power-libperfmgr/aidl/PowerHintSession.cpp:88-94 | longer durations never lower the clamped integral |
| AdpfPid.OutputMonotone | power-libperfmgr/aidl/PowerHintSession.cpp:70-109 | pointwise longer durations never lower the output |
| AdpfPid.NextUclampMonotone | power-libperfmgr/aidl/PowerHintSession.cpp:315-322 | nor the next uclamp minimum, for gains, integral bounds, durations and a current minimum that leave room in 32 bits |
| AdpfPid.DtLaw | power-libperfmgr/aidl/PowerHintSession.cpp:54-58 | the divisor of the D term is zero exactly for targets less than 100000 ns away from zero |
| AdpfPid.OutputFits | power-libperfmgr/aidl/PowerHintSession.cpp:103-119 | if three times the largest gain times the largest error, the largest integral bound and the current minimum together fit in 32 bits, so do the output and its sum with the current minimum |
| AdpfPid.UclampLaw | power-libperfmgr/aidl/PowerHintSession.cpp:317-320 | over a range of outputs the next minimum is monotone if and only if its 32-bit sum with the current minimum goes around equally often at both ends |
| AdpfPid.LongerLowersMinimum | power-libperfmgr/aidl/PowerHintSession.cpp:315-322 | a configuration, a state and two durations with which the longer one wraps the sum and drops the minimum from the upper to the lower bound |
| AdpfTerms.NextMinIs | power-libperfmgr/aidl/PowerHintSession.cpp:315-322 | the current minimum plus the output, kept between the bounds, as long as both fit in 32 bits |
| AdpfPid.ShortDWindowNotMonotone | power-libperfmgr/aidl/PowerHintSession.cpp:70-109 | a shorter D window has gains and durations where a longer duration lowers the output |
| AdpfPid.MonotoneLaw | power-libperfmgr/aidl/PowerHintSession.cpp:70-109 | the controller is monotone for all gains, batches and states if and only if the D window is the longest |
| AdpfPid.IntegralInBounds | power-libperfmgr/aidl/PowerHintSession.cpp:90-94 | the integral is within its bounds after every sample |
| AdpfPid.IntegralSplits | power-libperfmgr/aidl/PowerHintSession.cpp:72-101 | the integral over two batches is that over their concatenation |
| AdpfPid.WindowedIForgets | power-libperfmgr/aidl/PowerHintSession.cpp:72-101 | a limited I window makes batch boundaries visible |
| AdpfPid.BatchingLaw | power-libperfmgr/aidl/PowerHintSession.cpp:72-101 | batching leaves no trace in integral and previous error if and only if the I window is unlimited |
| AdpfTerms.IntegralBounds | power-libperfmgr/libperfmgr/AdpfConfig.cc:30-38 | the integral is kept between the whole parts of its bounds divided by the I gain, at zero without one |
| AdpfTerms.Superposition | power-libperfmgr/aidl/PowerHintSession.cpp:102-111 | the output is the sum of what each term would give alone |
| AdpfTerms.PTerm | power-libperfmgr/aidl/PowerHintSession.cpp:70-103 | the P term is the gain for the sign of the sum of deviations in its window, times their mean, toward zero |
| AdpfTerms.SteadyP | power-libperfmgr/aidl/PowerHintSession.cpp:102-103 | with every sample of the window e units from the target it is po * e above and pu * e below it, toward zero |
| AdpfTerms.ITerm | power-libperfmgr/aidl/PowerHintSession.cpp:104-104 | the I term is the I gain times the clamped integral, toward zero |
| AdpfTerms.IntegralStep | power-libperfmgr/aidl/PowerHintSession.cpp:94-98 | a sample moves the integral by its deviation times the target in units, and no further than the bounds |
| AdpfTerms.DTerm | power-libperfmgr/aidl/PowerHintSession.cpp:88-107 | the D term is the gain for the sign of the slope over its window, times the slope, per unit of the target and per sample, toward zero |
| AdpfTerms.RampD | power-libperfmgr/aidl/PowerHintSession.cpp:105-107 | over a ramp of k units per sample it is dOver * k or dUnder * k per unit of the target, however long the window |
| AdpfTerms.UnusedGains | power-libperfmgr/aidl/PowerHintSession.cpp:102-107 | a gain that its sign does not select does not show in the output |
| BatteryDefender.Defender.constructor | health/BatteryDefender.cpp:43-56 | a new process starts in INIT with empty timers and nothing written |
| BatteryDefender.Defender.StateMachineGetNextState | health/BatteryDefender.cpp:314-372 | the next state of each state, with the fall-through that lets a clear override an activation |
| BatteryDefender.Defender.Update | health/BatteryDefender.cpp:460-492 | memory and files after a whole update |
| BatteryDefender.WriteTimeToFile | health/BatteryDefender.cpp:124-133 | if what was remembered is in the file, a successful call leaves the file within the write delay of the value and exact at zero; a file changes only to the value and only if that is significant; a failed write is remembered as done |
| BatteryDefenderRuns.ReachedHighMeansFilled | health/BatteryDefender.cpp:296-300 | the high-level flag holds if and only if the battery counted as full at an update since the last clear |
| BatteryDefenderRuns.TimeIsAccountedFor | health/BatteryDefender.cpp:246-312 | charger-present time is the loaded baseline plus the intervals of exactly those updates since the last clear that ran charging, powered and full |
| BatteryDefenderRuns.ActiveIsEarned | health/BatteryDefender.cpp:314-372 | while enabled, charging, not cleared and without too long a gap the defender is active if and only if it was before or the accounted time exceeds the activation time in force, and connected otherwise |
| BatteryDefenderRuns.OffWhenNotGoingOn | health/BatteryDefender.cpp:314-396 | otherwise it is disabled if and only if told so, connected when power comes back, and disconnected in every other case, with all timers at zero while off |
| BatteryDefenderRuns.ActiveTimeIsAccountedFor | health/BatteryDefender.cpp:291-294 | active time is the loaded value plus the intervals of the updates that found the defender active since the last clear |
| BatteryDefenderRuns.GapIsAccountedFor | health/BatteryDefender.cpp:246-255 | the gap timer is the time since the last update that had power or wiped the timers |
| BatteryDefenderRuns.GapLaw | health/BatteryDefender.cpp:314-372 | while enabled and not cleared, the charging state lasts through a run if and only if no power gap reaches the resume time |
| BatteryDefenderRuns.ShortGapsKeepTime | health/BatteryDefender.cpp:246-255 | tolerated gaps never lower the charger-present time |
| BatteryDefenderRuns.FilesFollow | health/BatteryDefender.cpp:487-489 | from the first update on both files stay within the write delay of the live times |
| BatteryDefenderRuns.LifeAddsEarned | health/BatteryDefender.cpp:69-75 | an uninterrupted life ends with what it loaded plus what it earned |
| BatteryDefenderRuns.RestartsLoseLittle | health/BatteryDefender.cpp:69-133 | over n powered lives the time differs from the exact sum by at most n - 1 write delays |
| RateLimiter.Reporter.constructor | pixelstats/include/pixelstats/BatteryCapacityReporter.h:76-77 | no events, all slots empty |
| RateLimiter.Reporter.ShouldReportEvent | pixelstats/BatteryCapacityReporter.cpp:98-128 | an event is let through if and only if the clock is not zero and fewer than four of all earlier accepted events lie in the closed hour up to now; slots, counter and history stay in agreement |
| RateLimiter.UsedIsRecent | pixelstats/BatteryCapacityReporter.cpp:105-112 | the clean slots in use are as many as the accepted events of the last hour |
| RateLimiter.SpacedExtends | pixelstats/BatteryCapacityReporter.cpp:98-128 | letting such an event through keeps every hour, wherever it starts, at four events or fewer |
| IoUsage.InsertedIsLargest | perfstatsd/io_usage.cpp:167-177 | one turn through the k largest of a bag gives the k largest of the bag with the new sum |
| IoUsage.LargestDescends | perfstatsd/io_usage.cpp:167-189 | the k largest descend and are padded with zeros |
| IoUsage.BagAdds | perfstatsd/io_usage.cpp:285-292 | the bag of sums does not depend on the order of the users |
| IoUsage.TotalsStep | perfstatsd/io_usage.cpp:288-288 | adding a user keeps all six totals equal to the sums modulo 2^64 |
| IoUsage.TopStep | perfstatsd/io_usage.cpp:290-291 | the array stays the top of the users folded so far, each one a user and none twice |
| IoUsage.TopSpelled | perfstatsd/io_usage.cpp:167-189 | five places descending by foreground and background bytes of their direction modulo 2^64, and no user outside with more than the last place |
| IoUsage.UpdateTop | perfstatsd/io_usage.cpp:167-189 | the swap loop inserts the sum; a place changes hands only for a strictly larger one, and what is dropped is no larger than any |
| IoUsage.IoStats.constructor | perfstatsd/include/io_usage.h:150-153 | both clock fields are equal, which marks the initial state |
| IoUsage.IoStats.CalcIncrement | perfstatsd/io_usage.cpp:237-257 | per user the difference to the previous reading, the reading itself for a new user |
| IoUsage.IncrementsSpelled | perfstatsd/include/io_usage.h:66-77 | each of the six counters by itself modulo 2^64, all of it for a new user |
| IoUsage.IoStats.Accumulate | perfstatsd/io_usage.cpp:280-292 | for every iteration order the totals are the sums modulo 2^64 and the arrays hold the five largest sums |
| IoUsage.IoStats.CalcAll | perfstatsd/io_usage.cpp:259-293 | the first reading only becomes the baseline; later ones report their increments |
| IoUsage.IncrementsAddUp | perfstatsd/io_usage.cpp:237-257 | baseline plus reported increments give back the last reading, even where a counter wrapped around |
| IoUsage.OrderDoesNotShow | perfstatsd/io_usage.cpp:167-189 | two top arrays of the same users have equal, descending sums |
| CommaFormat.Snprintf | perfstatsd/io_usage.cpp:46-46 | the length of all digits, and the digits where they fit |
| CommaFormat.FormatNum | perfstatsd/io_usage.cpp:45-67 | it succeeds if and only if both guards pass; then digits from the right, a comma at every fourth place and nowhere else, and the terminator; the place after the buffer is written exactly on an overrun |
| CommaFormat.GuardsSpelled | perfstatsd/io_usage.cpp:47-54 | both guards on the number of digits and the size |
| CommaFormat.CommasEveryFourth | perfstatsd/io_usage.cpp:57-65 | counted from the right every fourth place is a comma, and no other one |
| CommaFormat.OverrunLaw | perfstatsd/io_usage.cpp:47-56 | the guards pass and the terminator lies outside the buffer if and only if the number has a comma and its print is exactly as wide as the buffer |
| CommaFormat.SevenDigitsOverrunNine | perfstatsd/io_usage.cpp:47-56 | 1234567 in a buffer of nine overruns; 7 in a buffer of one does not |
| CommaFormat.ThirtyTwoIsEnough | perfstatsd/io_usage.cpp:45-67 | a buffer of 32 is never overrun by a 64-bit number |
| CommaFormat.GroupsStrip | perfstatsd/io_usage.cpp:57-65 | removing the commas gives back the digits |
| CommaFormat.DecRoundTrip | perfstatsd/io_usage.cpp:58-60 | the digits of a number have its value |
| CommaFormat.DecLength | perfstatsd/io_usage.cpp:46-49 | a 64-bit number has at most twenty digits |
| CommaFormat.FormatRoundTrip | perfstatsd/io_usage.cpp:45-67 | every 64-bit number takes at most 26 places, and its print without commas reads back as the number |
| PsiParser.SlotsPartition | pixelstats/MmMetricsReporter.cpp:788-799 | each file, category and name has its own slot in range; the cpu file never uses a negative one |
| PsiParser.SlotOwner | pixelstats/MmMetricsReporter.cpp:788-799 | every slot belongs to a metric |
| PsiParser.SlotsInOrder | pixelstats/MmMetricsReporter.cpp:738-753 | the order in which the metrics are stored |
| PsiParser.TokenizeLaw | pixelstats/MmMetricsReporter.cpp:847-848 | a delimiter splits, and nothing else does |
| PsiParser.TrimLaw | pixelstats/MmMetricsReporter.cpp:847-848 | white space around a line is taken away, and nothing else |
| PsiParser.LineIs | pixelstats/MmMetricsReporter.cpp:849-871 | which lines are well formed |
| PsiParser.PairIs | pixelstats/MmMetricsReporter.cpp:897-904 | which words are pairs |
| PsiParser.ValuesInRange | pixelstats/MmMetricsReporter.cpp:936-951 | a total is the parsed number as a signed 64-bit one, and what does not parse is -1 |
| PsiParser.LastPairCounts | pixelstats/MmMetricsReporter.cpp:891-907 | of several pairs with the same name the last one counts |
| PsiParser.FindName | pixelstats/MmMetricsReporter.cpp:928-932 | the first position of a name, the length of the table for an unknown one |
| PsiParser.SavePressureMetrics | pixelstats/MmMetricsReporter.cpp:923-964 | exactly one slot changes, to the parsed value or -1; unknown names and indices out of range are refused |
| PsiParser.AverageRounding | pixelstats/MmMetricsReporter.cpp:945-951 | an average is the documented floor of its hundredths plus a half if and only if that is not negative or is whole |
| PsiParser.NegativeAverageRoundsUp | pixelstats/MmMetricsReporter.cpp:945-951 | -0.01 is stored as 0 and not as -1 |
| PsiParser.ParsePressureStallWords | pixelstats/MmMetricsReporter.cpp:891-907 | succeeds if and only if every word is a pair with a known name; each slot of the line gets the last value given for it, no other slot changes |
| PsiParser.ParsePressureStallFileContent | pixelstats/MmMetricsReporter.cpp:836-880 | succeeds if and only if every line is well formed, the cpu "full" line being skipped unread; each slot of the file holds the last value given for it |
| PsiParser.ReadPressureStall | pixelstats/MmMetricsReporter.cpp:781-818 | all 20 metrics from their own file and line, or all -1 if any file is missing or malformed |
| PsiFormat.JoinedSplits | pixelstats/MmMetricsReporter.cpp:848-848 | splitting a joined list of words gives the list back |
| PsiFormat.LineSplits | pixelstats/MmMetricsReporter.cpp:745-772 | a line in the kernel's format splits into its category and four pairs |
| PsiFormat.FileReads | pixelstats/MmMetricsReporter.cpp:836-880 | a file in the kernel's format gives each metric its printed value, in either order of the lines and with or without the old cpu "full" line |
| PsiFormat.KernelTextReadsBack | pixelstats/MmMetricsReporter.cpp:781-818 | reading what the kernel prints finds each of the 20 values in its slot |
| PsiAggregate.LeastIs | pixelstats/MmMetricsReporter.cpp:1070-1070 | the minimum bounds every sample and is one |
| PsiAggregate.GreatestIs | pixelstats/MmMetricsReporter.cpp:1071-1071 | the maximum bounds every sample and is one |
| PsiAggregate.AverageBetween | pixelstats/MmMetricsReporter.cpp:1128-1138 | the truncated mean lies between minimum and maximum, for negative samples too |
| PsiAggregate.TakenIsAggregated | pixelstats/MmMetricsReporter.cpp:1053-1074 | taking in a sample turns the aggregates of the samples so far into those with it |
| PsiAggregate.AveragesInOrder | pixelstats/MmMetricsReporter.cpp:1053-1060 | which metrics are the averages |
| PsiAggregate.MmMetricsReporter.TakeAverages | pixelstats/MmMetricsReporter.cpp:1050-1076 | the loop over 20 metrics updates the 45 slots so that they hold minimum, maximum and sum of all accepted samples |
| PsiAggregate.MmMetricsReporter.AggregatePressureStall | pixelstats/MmMetricsReporter.cpp:1008-1080 | a sample with a bad value changes no aggregate and sets the totals to -1; a good one is accepted and its totals stored |
| PsiAggregate.MmMetricsReporter.FillPressureStallAtom | pixelstats/MmMetricsReporter.cpp:1087-1151 | differences of totals where both are known, minimum, maximum and truncated mean of the accepted samples in 32 bits, in order and exact if minimum and maximum fit, -1 without samples, in a vector extended if it is short and otherwise unchanged; then counting restarts |
| DisplayResidency.AddsUp | powerstats/DisplayStateResidencyDataProvider.cpp:72-142 | over every log the reported times sum to query time minus first entry time and the entry counts to the recognised updates |
| DisplayResidency.StateReport | powerstats/DisplayStateResidencyDataProvider.cpp:72-142 | for every state the reported time is the time spent in it, the count the number of updates that recognised it, and the time stamp that of the last one |
| DisplayResidency.GapLaw | powerstats/DisplayStateResidencyDataProvider.cpp:106-142 | an update after a query takes reported time away if and only if it changes the state and its time lies before the query's |
| DisplayResidency.ResidencyLaw | powerstats/DisplayStateResidencyDataProvider.cpp:72-142 | over a run no reported time ever goes down, whenever the next query comes, if and only if for every query the first update that leaves the state it saw is timed no earlier than the query |
| DisplayResidency.QueriesNeverDecrease | powerstats/DisplayStateResidencyDataProvider.cpp:72-142 | from one query of such a run to a later one no state's reported time goes down |
| DisplayResidency.LateUpdateTakes | powerstats/DisplayStateResidencyDataProvider.cpp:106-142 | a run in which a late update takes four units back |
| DisplayResidency.Find | powerstats/DisplayStateResidencyDataProvider.cpp:126-127 | the first state whose name is part of the data |
| DisplayResidency.DataProvider.constructor | powerstats/DisplayStateResidencyDataProvider.cpp:36-48 | no current state, all residencies zero |
| DisplayResidency.DataProvider.UpdateStats | powerstats/DisplayStateResidencyDataProvider.cpp:106-142 | the state follows the log of recognised updates |
| DisplayResidency.DataProvider.GetResults | powerstats/DisplayStateResidencyDataProvider.cpp:72-92 | the stored residencies with the current state credited up to now, whose times and counts add up |

## Left out

- Sysfs, properties, binder, epoll, JSON and statistics services: their values are parameters, their effects are results.
- Throttling requests, power budgets and cooling devices called from the watcher pass: not part of this model.
- The learned and linear temperature estimators: foreign library code.
- `emulSeverity`: only emulated temperatures and their clearing are modelled.
- Power hints sent next to the callbacks, and reading a temperature threshold after a successful temperature read, which always succeeds for a watched sensor.
- Compaction, direct reclaim and CMA metrics, and the other reporters: tables and one-branch logic.
- The list of users without a known name in `IoStats`, and printing the usage report.
- Boot control, recovery, touch, power share, USB and other wrappers: no control logic of this kind.
- Rounding of floats and doubles: all of them are reals, and truncation to integers is written out.
- ThermalHelper.Helper.ThermalWatcherCallback: a pass reads one clock value, thermal files change only where the rails do, and emulation calls come between passes, because the source locks each access separately; the evaluation of a sensor that is not plain, or in a pass with events, is stated for its turn, not for the pass, since earlier turns show in it.
- ThermalHelper.Helper.ReadThermalSensor: the value is stated for sensors into which every sensor that is not steady is computed in one way only, because such a sensor is blended again every time it is read (SecondReadDiffers).
- ThermalHelper.Helper.ReadDataByType: the value is stated under the condition of ReadThermalSensor.
- ThermalHelper.Helper.ReadLinks: the value is stated under the condition of ReadThermalSensor.
- ThermalHelper.Helper.ApplyFormula: the value is stated under the condition of ReadThermalSensor.
- ThermalHelper.Helper.ReadVirtual: the value is stated under the condition of ReadThermalSensor.
- ThermalHelper.Helper.ReadTemperature: the value is stated under the condition of ReadThermalSensor.
- ThermalHelper.Helper.Evaluate: the value is stated under the condition of ReadThermalSensor.
- ThermalHelper.Helper.Visit: the value is stated under the condition of ReadThermalSensor.
- EmulationReach.MarkLaw: for a physical target and links that exist; for a virtual target only one direction holds (CoverKeeps), and VirtualTargetMayNotShow refutes the other.
- Cyclic link graphs: acyclicity is assumed, as a numbering of the sensors, because the parser does not check it.
- WorkerPoolLoss.LossLaw: for a worker whose callback is not removed and at whose creation nothing was on its way to its address; LeftBehindStandsIn refutes it otherwise, and LossMeansOverlap is the direction that always holds.
- WorkerPoolTiming.ExactlyOnePending: for such a worker, because a removed callback drops entries and an entry left behind is a second pending id.
- WorkerPoolTiming.RunsAfterDeadline: for a worker at whose creation nothing was on its way to its address; LeftBehindRunsEarly refutes it otherwise.
- AdpfPid.PowerHintSession.ReportActualWorkDuration: staleness timers, tracing and boosts are not part of this model; the integral, the previous error and the control variable after a D term without a value are not specified, because converting that quotient is undefined.
- AdpfPid.MonotoneLaw: for targets of at least 100000 ns, as a target is a positive duration; the sign of the D term turns with that of the target.
- BatteryDefender.Defender.Update: the charge-level files, the health properties and how the activation time is read from its property are not part of this model.
- BatteryDefenderRuns.RestartsLoseLittle: for lives that start with power and are never cleared, because other lives lose time by design.
- RateLimiter.Reporter.ShouldReportEvent: for a clock that does not run backwards, as the boot clock does not.
- DisplayResidency.DataProvider.UpdateStats: the data is the text up to its terminator.
