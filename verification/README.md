# Verified models of the location stack, the FM configuration parser, the thermal HAL and the blob list

This project models the parts of the device tree that hold real state: the AGPS data-connection state machine, the
outdoor-trip multiplexer, the elapsed-realtime estimator, the FM configuration file parser with its chained hash table,
the data-item observer, the geofence double map, the network-handle table, the thermal severity estimator, and the
script that regenerates the proprietary file list.

Each component comes in two forms. Functions on values (`AgpsModel`, `TripModel`, `ObserverModel`, `ConfSyntax` and the
first halves of the smaller files) say what one call does; whole runs fold them. Classes and methods with loops follow
the source step by step (`Agps`, `Batching`, `OsObserver`, `ConfTable`, `ConfFile`, and the classes of the smaller
files), and each `ensures` says that the object's value takes exactly the step of the function. The theorems are about
the functions, over every run, so they hold of the classes as well.

| file | what it holds |
|---|---|
| `AgpsModel.dfy`, `AgpsTheorems.dfy`, `AgpsCallbacks.dfy`, `AgpsDrain.dfy`, `Agps.dfy` | the AGPS state machine and its manager, with a history of all commands and callbacks: invariants, who is told what, draining |
| `TripModel.dfy`, `TripTheorems.dfy`, `TripTiming.dfy`, `TripCommands.dfy`, `TripFailures.dfy`, `BatchingAdapter.dfy` | trip sessions that share one hardware batch, with the hardware's odometer beside them: conservation, waking up in time, the commands sent, the runs that fail |
| `ElapsedRealtime.dfy` | the three-clock recurrence and its closed form |
| `ConfTable.dfy`, `ConfSyntax.dfy`, `ConfText.dfy`, `ConfFileParser.dfy` | the two-level chained hash table, the line grammar, writing and reading back, the block-wise reader |
| `SetMap.dfy`, `ObserverModel.dfy`, `ObserverTheorems.dfy`, `ObserverClients.dfy`, `SystemStatusOsObserver.dfy` | the set-valued map, the two subscription tables, the item cache, what clients and framework are told |
| `Geofence.dfy` | fences by hardware id, hardware ids by client key |
| `NetworkInfo.dfy`, `NetworkTypes.dfy` | the ten-slot handle table, merged in place with the cached one; its type mask and the items kept |
| `Thermal.dfy` | thresholds, hysteresis, callbacks |
| `PythonText.dfy`, `Proprietary.dfy`, `ProprietaryLayout.dfy` | Python's string operations, the generator and its loader, the layout of the list |
| `Common.dfy` | options, 32-bit arithmetic, walks over sets |

`dafny verify dfyconfig.toml` checks everything.

## Where the code does not do what it is meant to do

The models follow the code. Each of these is a theorem, most with the exact condition and a run that reaches it.

- A second request for a handle that is already active while the connection is open is granted again
  (`AgpsTheorems.ApplyGranted`; the run is `AgpsTheorems.RegrantExample`).
- A handle requested from both machines can only be released from AGNSS, because `releaseATL` looks there first and a
  released handle stays listed until its close. The internet machine then does not drain unless its connection was open
  (`AgpsDrain.ManagerDrain`; the run is `AgpsDrain.SharedHandleExample`).
- A modem restart in PENDING leaves a machine with no subscribers that a RELEASED event does not bring back to RELEASED
  (`AgpsDrain.ManagerDrain`; the run is `AgpsDrain.StuckExample`).
- `LocUnorderedSetMap::update` is documented to return the values it removed; it returns those that stay
  (gps/utils/LocUnorderedSetMap.h:186-201). So updating the subscription of a client that already has items strikes it
  off the items it keeps (`ObserverTheorems.UpdateInverse`; the run is `ObserverTheorems.UpdateExample`), and a change of
  such an item is not delivered to it (`ObserverTheorems.CompleteDelivery`; the run is `ObserverTheorems.MissedDelivery`).
- A subscription with a data request does not subscribe to its new items, and a subscription object set again keeps items
  nobody subscribes to any more; after either the framework's set is not that of the items with clients
  (`ObserverTheorems.ServeFrameworkAgrees`; the runs are `ObserverTheorems.DataRequestExample` and
  `ObserverTheorems.ReturningObjectExample`).
- A trip that starts after the hardware has passed the armed distance, but before its report, re-arms the batch with
  its own distance and may make it fire too late for the others (`TripTiming.StartArms`, `TripTiming.LateStart`; the run
  is `TripFailures.LateStartExample`). A start whose distance query fails takes all of the armed distance to be left, with
  the same effect (the run is `TripFailures.UnansweredStartExample`).
- Stopping a trip can arm the full old distance again, although the batch has covered part of it
  (`TripTiming.StopArms`; the run is `TripFailures.StopExample`).
- A trip start that restarts the batch loses the distance covered since the last report (`TripTheorems.StartConserves`;
  the run is `TripFailures.StaleStartExample`).
- An engine restart resets the baselines in a copy of each session only (gps/batching/BatchingAdapter.cpp:291-308), so
  it loses the distance of every live trip unless the batch had counted nothing (`TripTheorems.EngineConserves`; the run
  is `TripFailures.EngineExample`).
- With the engine lock disabled a first batch that the hardware refused counts as accepted
  (gps/batching/BatchingAdapter.cpp:852-857); its trip starts with whatever the counter stood at
  (`TripTheorems.FirstConserves`).
- A file name with a colon that gets a line of its own can take another file's line in the next run of the generator
  (`Proprietary.FixpointExactly`; the run is `Proprietary.ColonExample`).
- A first network report is stored without being merged, so a first *disconnect* lists its handle as connected
  (`NetworkInfo.FirstReportMatters`).
- A disconnect with other handles of its type left sets the type mask to that type alone, so the mask forgets the other
  types listed (`NetworkTypes.ReceivedTypes`; the run is `NetworkTypes.TypesExample`).
- A restart of the geofences forgets their pause flags and gives keys back to entries that had lost them
  (`Geofence.RestartRebuilds`).
- The hysteresis is divided by the sensor's scale; the battery percentage is not scaled, so it must recover by 5000
  percentage points before a severity is given up (`Thermal.BatteryNeverRecovers`).
- The FM parser accepts a carriage return at the very end of a file and ignores a last line without a newline
  (`ConfFile.ParseLoadFile`).

## Model

| member | source | states |
|---|---|---|
| AgpsTheorems.ManagerSafety | gps/gnss/Agps.cpp:73-283 | In every run of manager calls, for both machines: handles are distinct, RELEASED means an empty list, the ledger is 0 or 1, every subscriber is accounted for; without modem restarts the open states have an active subscriber and RELEASING is non-empty; with fresh handles every active subscriber was told "open" exactly once while ACQUIRED and not at all otherwise |
| AgpsTheorems.FrameworkLedger | gps/gnss/Agps.cpp:289-308 | Requests less releases less denials in PENDING less closes forced on ACQUIRED is 1 in PENDING and ACQUIRED and 0 elsewhere, in every run with restarts |
| AgpsTheorems.SubscriberConservation | gps/gnss/Agps.cpp:310-380 | For every handle: accepted requests = live + closed + denied + dropped by modem restart |
| AgpsTheorems.RunKeeps | gps/gnss/Agps.cpp:109-283 | One induction over all runs for shape, ledger and conservation |
| AgpsTheorems.RunGrants | gps/gnss/Agps.cpp:73-194 | Grant exactly once, in every run in which no listed active handle asks again while ACQUIRED |
| AgpsTheorems.ApplyGranted | gps/gnss/Agps.cpp:92-98 | A step keeps grant-exactly-once if and only if it is not a repeated request of a listed active handle in ACQUIRED |
| AgpsTheorems.RegrantExample | gps/gnss/Agps.cpp:92-98 | The concrete run in which one handle is granted twice |
| AgpsTheorems.ApplyShape | gps/gnss/Agps.cpp:392-442 | Every event keeps state and list in agreement, and the open states occupied unless the modem restarts |
| AgpsTheorems.ApplySettled | gps/gnss/Agps.cpp:289-308 | Every event moves ledger and state together |
| AgpsTheorems.ApplyConserved | gps/gnss/Agps.cpp:345-380 | Every event that takes a subscriber off the list gives it exactly one final callback, or drops it on restart |
| AgpsCallbacks.ExactlyTold | gps/gnss/Agps.cpp:73-283 | For every state, step and handle: the records a step adds are exactly those it owes. A denial in PENDING refuses everyone listed and nothing else refuses; a close in ACQUIRED closes everyone, one that ends RELEASING the inactive ones, a release a subscriber that does not wait; a grant tells the active ones; the connection is requested and released exactly when it has to be |
| AgpsCallbacks.RefusedWhenDenied | gps/gnss/Agps.cpp:243-283 | In every manager run a subscriber has been refused exactly once for each failed open that met its machine in PENDING while it was listed |
| AgpsCallbacks.StepLink | gps/gnss/Agps.cpp:289-372 | A request sets type and mask, a grant name and bearer, nothing else changes them, and all that a step tells the modem or the framework carries them as they then are |
| AgpsCallbacks.RequestReaches | gps/gnss/Agps.cpp:537-597 | Types -1, 1 and 5 go to AGNSS, all others to the internet machine; a demoted request goes as type 1, its mask with bit 4 and without bit 9; without a machine it is refused at once, else listed there, active, waiting for the close |
| AgpsCallbacks.OpenReaches | gps/gnss/Agps.cpp:627-644 | A successful open reaches the machine of its type: bearer kept, name kept if of the stated length and at most 100 characters, PENDING opened and any other state left |
| AgpsCallbacks.ReportReaches | gps/gnss/Agps.cpp:646-675 | Failed opens and closes reach the machine of their type, a modem restart both |
| AgpsCallbacks.MachinesExist | gps/gnss/Agps.cpp:514-535 | After any run a machine exists if and only if some call offered what it needs |
| AgpsCallbacks.Created | gps/gnss/Agps.cpp:514-535 | A machine is created released and empty, for type 1 or 3 |
| AgpsDrain.QuitAll | gps/gnss/Agps.cpp:109-171 | Releases taken by one machine, in any order: the active subscribers left are those not named, every other entry stays as it was, the state changes only when nobody active is left, and callbacks plus live entries stay constant |
| AgpsDrain.CloseDrains | gps/gnss/Agps.cpp:196-241 | One RELEASED event drains a machine if and only if it is not PENDING, nor RELEASING with somebody active; each subscriber is then told once |
| AgpsDrain.DrainExactly | gps/gnss/Agps.cpp:196-241 | For one machine and any releases it takes, followed by one RELEASED event: drained if and only if it was not emptied in PENDING, and its connection was open or every active subscriber was named |
| AgpsDrain.ReleasesRoute | gps/gnss/Agps.cpp:599-625 | In a run of `releaseATL` calls each machine takes exactly the handles it owned at the start, AGNSS before the internet machine |
| AgpsDrain.ReleasesDrain | gps/gnss/Agps.cpp:599-662 | After any manager run, any `releaseATL` calls and one closed report for each machine: drained if and only if not emptied in PENDING, and open or all its active handles reached it; a drain closes each subscriber exactly once |
| AgpsDrain.ManagerDrain | gps/gnss/Agps.cpp:599-662 | After any manager run, releasing every listed handle and one closed report for each machine: AGNSS is drained if and only if it was not emptied in PENDING; the internet machine if and only if besides that it was ACQUIRED or no active handle of it is also listed by AGNSS |
| AgpsDrain.SharedHandleExample | gps/gnss/Agps.cpp:599-625 | The run in which one handle is requested from both machines and the internet machine stays PENDING |
| AgpsDrain.StuckExample | gps/gnss/Agps.cpp:664-675 | The run in which a modem restart leaves both machines PENDING and empty, past their closed reports |
| AgpsDrain.DrainWithoutRestart | gps/gnss/Agps.cpp:196-241 | In runs without modem restarts AGNSS always drains; the internet machine does if and only if it was ACQUIRED or shares no active handle with AGNSS |
| AgpsTheorems.Projection | gps/gnss/Agps.cpp:514-675 | A run of manager calls, seen from either machine, is a run of that machine from its creation |
| AgpsTheorems.FreshNeverRegrants | gps/gnss/Agps.cpp:563-597 | If no request of a manager run names a listed handle, no machine regrants |
| Agps.AgpsStateMachine.SetApn | gps/gnss/Agps.cpp:444-463 | An APN is kept only if present, not too long and of the stated length |
| Agps.AgpsStateMachine.GetSubscriber | gps/gnss/Agps.cpp:465-478 | The first listed subscriber with the handle; none exactly if there is none |
| Agps.AgpsStateMachine.AnyActiveSubscribers | gps/gnss/Agps.cpp:432-442 | Whether an active subscriber is listed |
| Agps.AgpsStateMachine.AddSubscriber | gps/gnss/Agps.cpp:392-411 | A copy goes to the end of the list unless the handle is listed |
| Agps.AgpsStateMachine.DeleteSubscriber | gps/gnss/Agps.cpp:413-430 | Every entry with the handle goes, the order of the rest stays |
| Agps.AgpsStateMachine.NotifyEventToSubscriber | gps/gnss/Agps.cpp:345-380 | One callback of the event's kind, then the subscriber's entries go if asked |
| Agps.AgpsStateMachine.NotifyAllSubscribers | gps/gnss/Agps.cpp:310-343 | The walk that erases while it iterates tells everyone in the audience once, in order, and keeps the others |
| Agps.AgpsStateMachine.DropAllSubscribers | gps/gnss/Agps.cpp:495-506 | The list is emptied without a callback |
| Agps.AgpsStateMachine.ProcessAgpsEventSubscribe | gps/gnss/Agps.cpp:73-107 | From RELEASED the connection is requested and the state is PENDING; in ACQUIRED the newcomer is granted at once; a listed handle is never listed twice; the invariants hold again |
| Agps.AgpsStateMachine.ProcessAgpsEventUnsubscribe | gps/gnss/Agps.cpp:109-171 | The subscriber goes inactive or is told and erased; the connection is given up exactly when the list is empty or nobody active is left in it |
| Agps.AgpsStateMachine.ProcessAgpsEventGranted | gps/gnss/Agps.cpp:173-194 | Only PENDING becomes ACQUIRED; exactly the active subscribers are granted, in list order |
| Agps.AgpsStateMachine.ProcessAgpsEventReleased | gps/gnss/Agps.cpp:196-241 | In ACQUIRED everyone is told and erased; in RELEASING the inactive ones are, and the connection is requested again if someone active is left; nothing else changes |
| Agps.AgpsStateMachine.ProcessAgpsEventDenied | gps/gnss/Agps.cpp:243-283 | In PENDING everyone is refused and erased; RELEASING is left as on a release; nothing else changes |
| Agps.AgpsManager.CreateAgpsStateMachines | gps/gnss/Agps.cpp:514-535 | Which machines come into being |
| Agps.AgpsManager.RequestATL | gps/gnss/Agps.cpp:563-597 | The request reaches the machine of its (possibly demoted) type, or is refused at once |
| Agps.AgpsManager.ReleaseATL | gps/gnss/Agps.cpp:599-625 | The release reaches the first machine that lists the handle, or nobody |
| Agps.AgpsManager.ReportAtlOpenSuccess | gps/gnss/Agps.cpp:627-644 | Bearer and APN are stored, then the grant is taken |
| Agps.AgpsManager.ReportAtlOpenFailed | gps/gnss/Agps.cpp:646-653 | The denial reaches the machine of its type |
| Agps.AgpsManager.ReportAtlClosed | gps/gnss/Agps.cpp:655-662 | The close reaches the machine of its type |
| Agps.AgpsManager.HandleModemSSR | gps/gnss/Agps.cpp:664-675 | Both lists are dropped; the states stay |
| TripTiming.TripArming | gps/batching/BatchingAdapter.cpp:746-785 | In every run of travel, starts, reports, stops and engine restarts, whatever the hardware answers, with distances below 2^31 and each event meeting the condition of its kind (a report has none): the armed distance never exceeds what any live trip still needs, so a trip that is complete finds it covered |
| TripTiming.ReportArms | gps/batching/BatchingAdapter.cpp:746-785 | A completed-trips report always keeps the arming, whether its restart is taken or not |
| TripTiming.StartArms | gps/batching/BatchingAdapter.cpp:870-941 | For every answer of the hardware: a start beside others keeps the arming if and only if it leaves the batch alone, or arms no more than each remaining trip's stored distance leaves open |
| TripTiming.StartOnTime | gps/batching/BatchingAdapter.cpp:899-913 | A start whose query is answered before the armed distance is passed keeps the arming |
| TripTiming.FiresInTime | gps/batching/BatchingAdapter.cpp:746-785 | In such runs that also conserve distances and leave the hardware armed no later than the adapter believes: when the hardware has covered a live trip's distance since the trip joined, it has covered the distance it was armed with |
| TripTiming.NextTaken | gps/batching/BatchingAdapter.cpp:846-941 | An event leaves the hardware armed no later than the adapter believes if and only if a new batch was taken or the old one was armed with no more; reports and stops always do |
| TripFailures.LateStartExample | gps/batching/BatchingAdapter.cpp:899-913 | The run in which a late start leaves a complete trip waiting for another 200 metres |
| TripFailures.UnansweredStartExample | gps/batching/BatchingAdapter.cpp:893-913 | The run in which a start whose query fails arms 50 metres for a trip that needs 5 |
| TripTiming.LateStart | gps/batching/BatchingAdapter.cpp:899-913 | Behind the armed distance the unsigned remainder wraps, and the batch is always re-armed with the new trip's distance |
| TripTiming.StopArms | gps/batching/BatchingAdapter.cpp:946-1007 | Stopping a trip keeps the arming if and only if no restart is due or accepted, or the distance it arms and what each remaining trip has covered stay within that trip's distance |
| TripFailures.StopExample | gps/batching/BatchingAdapter.cpp:1054-1106 | The run in which a stop arms 70 metres for a trip that needs 30: complete, it finds 30 of them counted |
| TripTiming.RestartArms | gps/batching/BatchingAdapter.cpp:1010-1114 | The restart after any departure keeps the arming if and only if that holds |
| TripTiming.FiredInTime | gps/batching/BatchingAdapter.cpp:1054-1087 | With every trip up to date and the batch fired, the restart arms the least remaining distance, which is in time for all |
| TripTiming.EngineUpArmsLeast | gps/batching/BatchingAdapter.cpp:285-320 | After an engine restart the armed distance is the least that any live trip still has to go |
| TripTiming.EngineArms | gps/batching/BatchingAdapter.cpp:285-320 | An engine restart keeps the books in range and the arming if and only if no new batch begins, or no trip travelled or was re-based on the counter since the old one began and none is overrun by the new distance |
| TripTiming.CompletionMeansFired | gps/batching/BatchingAdapter.cpp:756-760 | A trip is complete only when the batch has covered the armed distance |
| TripTheorems.LeastTBFIsMinimum | gps/batching/BatchingAdapter.cpp:1043-1047 | The running minimum that starts from 0 is a lower bound of all positive intervals |
| TripTheorems.LeastRemainingIsMinimum | gps/batching/BatchingAdapter.cpp:1036-1041 | The running minimum of the remaining distances is one of them and below all of them |
| TripTheorems.FixIntervalServesAll | gps/batching/BatchingAdapter.cpp:285-320 | The ongoing interval is never larger than a live trip's, through starts, stops, completions, failed restarts and engine restarts |
| TripTheorems.ActPaced | gps/batching/BatchingAdapter.cpp:879-920 | Every single message or response keeps the interval small enough |
| TripCommands.FixesServeAll | gps/batching/BatchingAdapter.cpp:834-943 | In every run in which each trip that joins is served by the batch taken with it, or else by the one running: the interval the hardware last took is no longer than any live trip asked for |
| TripCommands.NextServed | gps/batching/BatchingAdapter.cpp:834-943 | That is the exact condition: an event leaves every trip served if and only if a trip that joins is |
| TripCommands.CommandServes | gps/batching/BatchingAdapter.cpp:879-941 | Every interval sent is no longer than that of any trip then in the sessions, whatever the answer |
| TripCommands.TakenIsBelieved | gps/batching/BatchingAdapter.cpp:915-937 | Distance and interval that the hardware takes are those the adapter then believes |
| TripCommands.StartRestartsExactly | gps/batching/BatchingAdapter.cpp:884-913 | A start beside others restarts the batch if and only if it needs a shorter interval or a distance shorter than what is left |
| TripCommands.BatchCommands | gps/batching/BatchingAdapter.cpp:834-868 | The batch is started exactly for the first trip and after an engine restart, and stopped exactly when the last trip goes |
| TripCommands.RestartExactly | gps/batching/BatchingAdapter.cpp:1028-1106 | The restart after a departure is sent if and only if a distance or an interval is due, carries the least distance to go and the least interval where they are due and the old ones else, and is taken over if and only if accepted |
| TripCommands.NextTight | gps/batching/BatchingAdapter.cpp:1082-1088 | A step keeps the ongoing interval one that some live trip asked for if and only if a trip with it is left, or a new one is accepted |
| TripCommands.SessionsLeft | gps/batching/BatchingAdapter.cpp:752-776 | Reports, stops and engine restarts take away exactly the stopped and the completed trips, and change no trip's distance or interval |
| TripCommands.FlagsRemember | gps/batching/BatchingAdapter.cpp:764-772 | The two flags say exactly whether a trip with the ongoing interval or distance has ever departed |
| TripTheorems.TripConservation | gps/batching/BatchingAdapter.cpp:752-776 | For every live trip the booked distance R + (A - O) is what the hardware covered since the trip joined, modulo 2^32, in every run of travel, starts, reports, stops and engine restarts, whatever the answers, whose events each conserve |
| TripTheorems.NextConserves | gps/batching/BatchingAdapter.cpp:834-943 | An event conserves every trip if and only if it is not a start that re-bases without carrying distances over, nor, while the counter is not 0, a first batch that only the adapter takes or an engine restart with a new batch under live trips |
| TripTheorems.FirstConserves | gps/batching/BatchingAdapter.cpp:846-868 | A first trip conserves if and only if it is refused, the hardware took its batch, or the counter stands at 0 |
| TripTheorems.EngineConserves | gps/batching/BatchingAdapter.cpp:285-320 | An engine restart conserves if and only if no trip is live, no batch is taken, or the old one had counted nothing |
| TripFailures.EngineExample | gps/batching/BatchingAdapter.cpp:291-308 | The run in which an engine restart right behind a report loses 30 metres of a trip |
| TripTheorems.StartConserves | gps/batching/BatchingAdapter.cpp:871-941 | For every response: a start beside others conserves every trip if and only if it leaves the batch alone, or each remaining trip's stored distance and the counter that runs on make up what it covered, with that counter 0 for a new trip |
| TripTheorems.CurrentCarries | gps/batching/BatchingAdapter.cpp:922-929 | Current stored distances and an accepted restart are enough for that |
| TripFailures.StaleStartExample | gps/batching/BatchingAdapter.cpp:922-929 | The run in which a restarting start loses 30 metres of another trip |
| TripTheorems.RestartConserves | gps/batching/BatchingAdapter.cpp:1095-1106 | A restart that re-bases on the counter conserves every trip, whether it succeeds or not |
| TripTheorems.ReportConserves | gps/batching/BatchingAdapter.cpp:746-785 | A completed-trips report conserves every trip that stays |
| TripTheorems.StopConserves | gps/batching/BatchingAdapter.cpp:972-994 | A stop conserves every trip that stays |
| TripTheorems.ReportMakesCurrent | gps/batching/BatchingAdapter.cpp:756-758 | After a report, whether its restart succeeds or not, every stored distance is current, so a start at the same counter conserves |
| TripTheorems.ReportCompletesExactly | gps/batching/BatchingAdapter.cpp:756-762 | In conserving runs a report completes exactly the trips whose distance the hardware has covered since they joined |
| Batching.BatchingAdapter.StartTripBatchingMultiplex | gps/batching/BatchingAdapter.cpp:834-943 | For every response of the hardware: who is in the sessions, what is armed, and the one command sent |
| Batching.BatchingAdapter.RebaseAllStored | gps/batching/BatchingAdapter.cpp:922-930 | Every session is re-based on its stored distance |
| Batching.BatchingAdapter.RebaseAll | gps/batching/BatchingAdapter.cpp:1095-1106 | Every session is re-based on the counter |
| Batching.BatchingAdapter.LeastOfAll | gps/batching/BatchingAdapter.cpp:1030-1049 | The two running minima over the sessions in key order |
| Batching.BatchingAdapter.RestartTripBatching | gps/batching/BatchingAdapter.cpp:1010-1114 | The batch is restarted exactly when a shorter distance or another interval is due, and re-based only if the hardware took it |
| Batching.BatchingAdapter.TallyAll | gps/batching/BatchingAdapter.cpp:752-776 | The loop that erases completed sessions leaves exactly the others up to date, sets the two dropped flags exactly when a completed trip matched, and lists the completed ones in key order |
| Batching.BatchingAdapter.ReportCompletedTripsEvent | gps/batching/BatchingAdapter.cpp:732-793 | The completed trips, listed in key order, are exactly those whose updated distance reaches their target; the batch is restarted exactly if there are any |
| Batching.BatchingAdapter.StopTripBatchingMultiplex | gps/batching/BatchingAdapter.cpp:946-1007 | The session goes, the dropped flags are set exactly when it matched, and the batch is restarted for the rest or stopped with the last one |
| Batching.BatchingAdapter.RestartSessions | gps/batching/BatchingAdapter.cpp:285-320 | Arming after the engine came up; nothing is armed if the start fails |
| ElapsedRealtime.GetCurrentTime | gps/core/LocApiBase.cpp:1037-1074 | The clocks of the first try among twenty whose two boot readings are less than 15 microseconds apart, if no try before it failed to read |
| ElapsedRealtime.AlwaysInStep | gps/core/LocApiBase.cpp:938-988 | The telescoping invariant: counter, previous time stamp and clock difference are functions of the fixes since the last jump |
| ElapsedRealtime.EstimateIsClosedForm | gps/core/LocApiBase.cpp:957-988 | Every fix is told the boot time less the default travel time up to the sixth of a streak, and from then on the sixth fix's boot time moved by the modem's own time |
| ElapsedRealtime.StreakStep | gps/core/LocApiBase.cpp:961-964 | A reset ends a streak, a fix without clock or trust leaves it, and any other fix extends it if and only if its time between fixes says nothing or is just the distance to the streak's last time stamp, forwards; else it begins a new one |
| ElapsedRealtime.StreakIsRegular | gps/core/LocApiBase.cpp:961-964 | Neighbours in a streak are that far apart, in every run |
| ElapsedRealtime.ClockJumpImmunity | gps/core/LocApiBase.cpp:969-981 | Two runs that differ only in the wall clock are told the same times |
| ElapsedRealtime.StreakIgnoresWallClock | gps/core/LocApiBase.cpp:961-964 | Which fixes count does not depend on the wall clock |
| ElapsedRealtime.ElapsedRealtimeEstimator.GetElapsedRealtimeEstimateNanos | gps/core/LocApiBase.cpp:938-988 | One step of the recurrence in the object's fields |
| ElapsedRealtime.ElapsedRealtimeEstimator.DoReset | gps/core/LocApiBase.cpp:990-996 | Back to the initial state |
| ConfSyntax.ClassifiesHeaders | RevampedFMRadio/jni/ConfFileParser.cpp:655-730 | A line is scanned as the header of a group if and only if the grammar says so |
| ConfSyntax.ClassifiesPairs | RevampedFMRadio/jni/ConfFileParser.cpp:738-792 | A line is scanned as a key and a value if and only if the grammar says so |
| ConfSyntax.ClassifiesNothing | RevampedFMRadio/jni/ConfFileParser.cpp:527-573 | A line is passed over if and only if it is blank or a comment |
| ConfSyntax.ReaderFoldsLines | RevampedFMRadio/jni/ConfFileParser.cpp:463-522 | The byte-wise reader accepts exactly the texts whose carriage returns are followed by a line feed or another one and whose newline-terminated lines fold without a stop; its state is that fold |
| ConfSyntax.FoldIsExact | RevampedFMRadio/jni/ConfFileParser.cpp:527-557 | Lines fold without a stop if and only if each is blank, a comment, a header with a new name, or a new key under a current group; the table then holds the old groups unchanged and exactly the new headers and pairs, each pair under the last header before it |
| ConfSyntax.FeedAppend | RevampedFMRadio/jni/ConfFileParser.cpp:463-522 | Reading in two parts is reading the whole |
| ConfText.WrittenIsRead | RevampedFMRadio/jni/ConfFileParser.cpp:434-557 | Any sections with new names, distinct keys and values on one line, written with either line ending on each line, load, and add exactly those sections to the table |
| ConfText.LinesOfText | RevampedFMRadio/jni/ConfFileParser.cpp:475-515 | Written lines are read back, whatever their endings |
| ConfText.CharacterClasses | RevampedFMRadio/jni/ConfFileParser.cpp:527-730 | White space, letters and digits, and blanks, by their codes |
| ConfFile.HeaderName | RevampedFMRadio/jni/ConfFileParser.cpp:655-730 | The index walks find the name exactly when the line is a well-formed header |
| ConfFile.KeyAndValue | RevampedFMRadio/jni/ConfFileParser.cpp:738-792 | The index walks find key and value exactly when the line is a well-formed pair |
| ConfFile.LineIsGrp | RevampedFMRadio/jni/ConfFileParser.cpp:655-730 | Succeeds exactly for a header with a new name, which becomes an empty group; otherwise nothing changes |
| ConfFile.LineIsKeyValuePair | RevampedFMRadio/jni/ConfFileParser.cpp:738-792 | Succeeds exactly for a pair with a new key under a current group; otherwise nothing changes |
| ConfFile.ParseLine | RevampedFMRadio/jni/ConfFileParser.cpp:527-557 | One line is one step of the fold |
| ConfFile.ParseBlock | RevampedFMRadio/jni/ConfFileParser.cpp:475-515 | The bytes of one block, with a line and a carriage return carried over from the block before |
| ConfFile.ParseLoadFrmFhandler | RevampedFMRadio/jni/ConfFileParser.cpp:463-522 | Verdict and table are those of the byte-wise reader on the concatenated blocks, so they do not depend on where the blocks split the file |
| ConfFile.ParseLoadFile | RevampedFMRadio/jni/ConfFileParser.cpp:434-458 | Loading succeeds exactly when the carriage returns are in order and every newline-terminated line is fine where it stands; the table is then the fold of the lines, and holds exactly what they say; a file that cannot be opened changes nothing |
| ConfTable.GroupTable.AddGrp | RevampedFMRadio/jni/ConfFileParser.cpp:606-648 | Adds an empty group to the map if the name is new, and changes nothing otherwise, for any hash function |
| ConfTable.GroupTable.FindGroup | RevampedFMRadio/jni/ConfFileParser.cpp:578-602 | The walk along one bucket finds a group exactly when the map has it |
| ConfTable.GroupTable.AddKeyValuePair | RevampedFMRadio/jni/ConfFileParser.cpp:794-878 | Adds the pair if the group exists and the key is new in it, and changes nothing otherwise |
| ConfTable.GroupTable.GetValue | RevampedFMRadio/jni/ConfFileParser.cpp:382-429 | Returns exactly what the map of maps holds |
| ConfTable.GroupTable.GetKeys | RevampedFMRadio/jni/ConfFileParser.cpp:320-380 | Lists each key of the group exactly once; the length is the stored number of keys |
| ConfTable.GroupTable.GetGrps | RevampedFMRadio/jni/ConfFileParser.cpp:275-316 | Lists each group exactly once; the length is the stored number of groups |
| SetMap.AddedAt | gps/utils/LocUnorderedSetMap.h:153-183 | What adding values under keys means for every key |
| SetMap.TrimmedAt | gps/utils/LocUnorderedSetMap.h:84-151 | What trimming values under keys means for every key; emptied entries go |
| SetMap.LocUnorderedSetMap.Add | gps/utils/LocUnorderedSetMap.h:172-183 | The map after the loop, and the keys that were new |
| SetMap.LocUnorderedSetMap.TrimOrRemove | gps/utils/LocUnorderedSetMap.h:135-151 | The map after the loop, the entries that went and the values that went |
| SetMap.LocUnorderedSetMap.RemoveAndReturnInterset | gps/utils/LocUnorderedSetMap.h:62-76 | The intersection, and the two sets without it |
| SetMap.LocUnorderedSetMap.Update | gps/utils/LocUnorderedSetMap.h:186-201 | The map after the update; what is returned is the intersection of old and new values, not what was removed |
| OsObserver.SystemStatusOsObserver.HandleSetSubscriptionObj | gps/core/SystemStatusOsObserver.cpp:62-89 | A new subscription object is told all keys of the item table and asked for their data, if there are any |
| OsObserver.SystemStatusOsObserver.HandleSubscribe | gps/core/SystemStatusOsObserver.cpp:94-140 | Both tables gain the client's items; the framework is asked for data, or else told exactly the items nobody had; the client is sent the cached ones |
| OsObserver.SystemStatusOsObserver.HandleUpdateSubscription | gps/core/SystemStatusOsObserver.cpp:142-212 | The client's items are replaced; the framework is told the items that gained their first or lost their last client; the client is sent its new cached items |
| OsObserver.SystemStatusOsObserver.HandleUnsubscribe | gps/core/SystemStatusOsObserver.cpp:214-253 | The client's items among those named go; the framework is told the items left without clients |
| OsObserver.SystemStatusOsObserver.HandleUnsubscribeAll | gps/core/SystemStatusOsObserver.cpp:255-294 | All of the client's items go; the framework is told the items left without clients |
| OsObserver.SystemStatusOsObserver.UpdateCache | gps/core/SystemStatusOsObserver.cpp:558-589 | The cache changes exactly for accepted items that are new or different |
| OsObserver.SystemStatusOsObserver.SendCachedDataItems | gps/core/SystemStatusOsObserver.cpp:530-556 | One call with exactly the cached items among those asked for, or none |
| OsObserver.SystemStatusOsObserver.HandleNotify | gps/core/SystemStatusOsObserver.cpp:299-376 | The cache takes the batch, and the calls are one share of the changed items for each reached client |
| ObserverTheorems.SubscribeAt | gps/core/SystemStatusOsObserver.cpp:105-126 | Both tables gain exactly the new pairs |
| ObserverTheorems.UpdateAt | gps/core/SystemStatusOsObserver.cpp:151-200 | The client table holds the new items; the item table loses the client on every item it keeps |
| ObserverTheorems.UnsubscribeAt | gps/core/SystemStatusOsObserver.cpp:223-243 | Both tables lose exactly the named pairs |
| ObserverTheorems.UnsubscribeAllAt | gps/core/SystemStatusOsObserver.cpp:262-284 | Both tables lose exactly the client's pairs |
| ObserverTheorems.TablesStayInverse | gps/core/SystemStatusOsObserver.cpp:105-284 | The tables describe one relation after every run in which no client that has items is updated |
| ObserverTheorems.ServeInverse | gps/core/SystemStatusOsObserver.cpp:105-284 | A request keeps the tables inverse if and only if it is not such an update |
| ObserverTheorems.UpdateInverse | gps/core/SystemStatusOsObserver.cpp:151-172 | An update keeps the tables inverse if and only if the client had no items |
| ObserverTheorems.UpdateExample | gps/core/SystemStatusOsObserver.cpp:151-172 | One item, one client, one update: the client is struck off |
| ObserverTheorems.LedgerFollowsItems | gps/core/SystemStatusOsObserver.cpp:69-81 | The framework's subscribed set is the set of items with clients after every run, updates included, whose requests each keep that agreement |
| ObserverTheorems.ServeFrameworkAgrees | gps/core/SystemStatusOsObserver.cpp:69-284 | A request keeps the agreement if and only if it is neither a subscription with a data request for items new to the table, nor a subscription object that holds items without clients |
| ObserverTheorems.DataRequestAgrees | gps/core/SystemStatusOsObserver.cpp:112-125 | A data request keeps it if and only if there is no subscription object or no item is new |
| ObserverTheorems.DataRequestExample | gps/core/SystemStatusOsObserver.cpp:112-125 | One object, one data request for a new item: the framework's set misses it |
| ObserverTheorems.SetSubscriptionAgrees | gps/core/SystemStatusOsObserver.cpp:69-81 | Setting an object establishes it if and only if the object held no item without clients |
| ObserverTheorems.ReturningObjectExample | gps/core/SystemStatusOsObserver.cpp:69-81 | An object set again after another one still holds the item that was given up in between |
| ObserverTheorems.ServeNoEmptyEntries | gps/utils/LocUnorderedSetMap.h:84-95 | No table ever holds an empty entry |
| ObserverClients.ServeAsks | gps/core/SystemStatusOsObserver.cpp:69-125 | A new object is asked once for the data of exactly the items with clients, the current object once for exactly the items of a data request, new or not, and no other request asks for any |
| ObserverClients.RequestsReach | gps/core/SystemStatusOsObserver.cpp:112-116 | In every run each such data request reached its object with just its items |
| ObserverClients.RequestsCome | gps/core/SystemStatusOsObserver.cpp:112-116 | And every data request made comes from one of them |
| ObserverTheorems.NeverANullClient | gps/core/SystemStatusOsObserver.cpp:134-139 | The null client never gets into the client table |
| ObserverTheorems.ChangedIsExact | gps/core/SystemStatusOsObserver.cpp:311-321 | Items outside the changed set keep their cached value, items in it have one |
| ObserverClients.CachedIsLast | gps/core/SystemStatusOsObserver.cpp:558-589 | After a batch the cache holds each item's last accepted value, or what it held |
| ObserverClients.ChangedIsDifferent | gps/core/SystemStatusOsObserver.cpp:558-589 | An item counts as changed if and only if some accepted value of it is not the one that was cached |
| ObserverTheorems.ExactDelivery | gps/core/SystemStatusOsObserver.cpp:311-344 | Whatever the tables hold, a batch calls a client if and only if it subscribes to a changed item and the item table lists it for one; each at most once, with exactly the changed items it subscribes to and their new values |
| ObserverTheorems.CompleteDelivery | gps/core/SystemStatusOsObserver.cpp:311-344 | Every client that subscribes to a changed item is called if and only if the item table lists each of them for some changed item; so always when the tables are inverse |
| ObserverTheorems.RunsDeliverExactly | gps/core/SystemStatusOsObserver.cpp:299-376 | Exact delivery after every run of requests |
| ObserverTheorems.RunsDeliverToAll | gps/core/SystemStatusOsObserver.cpp:299-376 | After every run in which no client that has items is updated, exactly the clients that subscribe to a changed item are called |
| ObserverClients.ClientsAreInformed | gps/core/SystemStatusOsObserver.cpp:94-376 | In every run in which no client that has items is updated, what a client was last told for an item it subscribes to, at once or by a batch, is the item's cached value |
| ObserverClients.SentTells | gps/core/SystemStatusOsObserver.cpp:530-556 | A first response tells its client exactly what is cached of the items, and nobody else |
| ObserverTheorems.MissedDelivery | gps/core/SystemStatusOsObserver.cpp:151-172 | After one subscription and one update to the same item, a change of that item is not delivered |
| Geofence.RunsKeepDoubleMap | gps/geofence/GeofenceAdapter.cpp:88-250 | After every run of saves with fresh keys and ids, removals, pauses, changes, client stops and restarts: every key leads to an entry that carries it, no two entries share a key, and an unkeyed entry belongs to a client that was stopped during the run |
| Geofence.SaveKeeps | gps/geofence/GeofenceAdapter.cpp:722-738 | Saving under a fresh key and hardware id keeps the double map |
| Geofence.RemoveKeeps | gps/geofence/GeofenceAdapter.cpp:741-763 | Removing keeps the double map, and a keyed fence and its key are gone |
| Geofence.PauseKeeps | gps/geofence/GeofenceAdapter.cpp:766-787 | Pausing and resuming keep the double map |
| Geofence.ModifyKeeps | gps/geofence/GeofenceAdapter.cpp:790-801 | Modifying keeps the double map |
| Geofence.StopKeeps | gps/geofence/GeofenceAdapter.cpp:88-115 | A stopped client has no keys left and keeps exactly the entries whose removal the hardware refused |
| Geofence.RestartKeeps | gps/geofence/GeofenceAdapter.cpp:216-250 | After a restart every entry is keyed again |
| Geofence.RestartRebuilds | gps/geofence/GeofenceAdapter.cpp:216-250 | A restart taken in full keeps every key's fence data, both ways, and no fence is paused |
| Geofence.RunsShow | gps/geofence/GeofenceAdapter.cpp:722-801 | In every run each operation has, on the fences found by key, the plain effect: a save enters a fence not paused, removing, pausing and modifying touch the one keyed entry and only what they name, a stopped client's keys go, a restart shows every retaken fence unpaused |
| Geofence.LeadsShows | gps/geofence/GeofenceAdapter.cpp:88-250 | The same for one operation on any double map |
| Geofence.BreachPlace | gps/geofence/GeofenceAdapter.cpp:864-895 | Every reported fence of a client stands in the client's list at the place its order gives it |
| Geofence.BreachSource | gps/geofence/GeofenceAdapter.cpp:864-895 | Every listed id comes from a reported fence of that client, in order |
| Geofence.GeofenceAdapter.SaveGeofenceItem | gps/geofence/GeofenceAdapter.cpp:722-738 | Both maps after a save |
| Geofence.GeofenceAdapter.RemoveGeofenceItem | gps/geofence/GeofenceAdapter.cpp:741-763 | Both maps after a removal |
| Geofence.GeofenceAdapter.StopClientSessions | gps/geofence/GeofenceAdapter.cpp:88-115 | Both maps after the loop that erases while it iterates |
| Geofence.GeofenceAdapter.RestartGeofences | gps/geofence/GeofenceAdapter.cpp:216-250 | Both maps rebuilt under the new hardware ids; exactly the fences that were paused are paused in hardware |
| Geofence.GeofenceAdapter.GeofenceBreach | gps/geofence/GeofenceAdapter.cpp:864-895 | Each client with reported fences gets its list, and nobody else |
| NetworkInfo.TableRefinesSet | gps/core/SystemStatus.h:514-580 | In every run of reports the newest item's table is a duplicate-free prefix that holds exactly a bounded set of connections |
| NetworkInfo.ConnectRefines | gps/core/SystemStatus.h:527-538 | A connect adds to the set unless the handle is listed or the table is full |
| NetworkInfo.DisconnectRefines | gps/core/SystemStatus.h:539-567 | A disconnect takes exactly its own entry away |
| NetworkInfo.ConnectDisconnectRestores | gps/core/SystemStatus.h:527-567 | On one table: connecting an absent handle and disconnecting it restores a table with room, entry by entry, if and only if the slot used was a cleared one |
| NetworkInfo.RunsAreCleared | gps/core/SystemStatus.h:514-586 | In every run whose first report has a known handle, all slots behind the valid ones are cleared |
| NetworkInfo.RunsRestore | gps/core/SystemStatus.cpp:1355-1371 | After any run, a connect and a disconnect report of an absent handle restore a table with room if and only if the type has a bit and the slot was cleared; in runs whose first report has a known handle it is |
| NetworkInfo.FirstReportMatters | gps/core/SystemStatus.cpp:1355-1371 | The tables after every prefix of a run are what its reports say if and only if the first report is not a disconnect of a known handle |
| NetworkTypes.TypesFollowTable | gps/core/SystemStatus.h:514-580 | In every run whose reports each keep it, the newest type mask holds exactly the types of the connections listed |
| NetworkTypes.ReceivedTypes | gps/core/SystemStatus.h:527-580 | A report keeps mask and table in agreement if and only if it changes nothing, connects a type that is listed, gets listed or has no bit, disconnects one of a type with no other handle left or nothing but such, or has no bit while none is listed |
| NetworkTypes.TypesExample | gps/core/SystemStatus.h:570-574 | The run in which a disconnect makes the mask forget another type |
| NetworkTypes.NewestIsCurrent | gps/core/SystemStatus.h:514-526 | The newest item always tells the last report's connection, the table merged with it, and the name kept |
| NetworkTypes.NameSource | gps/core/SystemStatus.h:523-526 | Whose name the newest item gives in any run: the last mobile report's, or of one that found none, kept by all reports since |
| NetworkTypes.KeptItemsDiffer | gps/core/SystemStatus.cpp:1355-1371 | In every run at most five items are kept and none is like the one before it |
| NetworkInfo.SystemStatusNetworkInfo.Collate | gps/core/SystemStatus.h:514-586 | Table, types and APN after the merge, edited in place, and the table and types copied back into the reporter's item |
| NetworkInfo.SystemStatusNetworkInfo.ListHandle | gps/core/SystemStatus.h:528-538 | The loop that lists a handle in the first free slot unless it meets the handle first |
| NetworkInfo.SystemStatusNetworkInfo.DropHandle | gps/core/SystemStatus.h:540-567 | The loop that finds the entry, counts the others of its type and moves the last entry into the gap |
| NetworkInfo.NetworkInfoReports.SetItemInReport | gps/core/SystemStatus.cpp:1355-1371 | An item is stored exactly when it is the first or differs from the cached one, at most five are kept, and the reporter gets the merged table back |
| Thermal.ReentryNeedsRise | thermal/thermalCommon.cpp:432-458 | In every run, a sensor that left a severity downwards and has it again saw a reading beyond the one at which it left by more than 5 degrees (5000 percentage points for the unscaled battery) |
| Thermal.CallsBounded | thermal/thermalCommon.cpp:426-472 | However long the run: while readings stay within 5 degrees (5000 points) of each other, k thresholds give at most k(k+3)/2 callbacks, five for a configured sensor |
| Thermal.CallsPaid | thermal/thermalCommon.cpp:426-472 | The budget behind it: every fall costs a level for good and every climb passes a level still alive |
| Thermal.CallsDiffer | thermal/thermalUtils.cpp:84-95 | Consecutive callbacks of a run differ, the first differs from the start, the last is the current severity |
| Thermal.UnchangedTemperature | thermal/thermalCommon.cpp:426-472 | Reading the same temperature again changes nothing, for any thresholds |
| Thermal.Estimated | thermal/thermalCommon.cpp:432-460 | The highest severity whose threshold holds, with the hysteresis for the current one, or NONE |
| Thermal.ConfiguredSeverity | thermal/thermalCommon.cpp:241-460 | The severity of a configured sensor from its configuration, status and reading alone: shutdown, else the throttling severity, else none, the current one kept 5 degrees (5000 percentage points) longer |
| Thermal.SlackIsMargin | thermal/thermalCommon.cpp:432-447 | The scaled hysteresis is 5 degrees, or 5000 points for the unscaled percentage |
| Thermal.Latched | thermal/thermalCommon.cpp:433-447 | While no reading clears the hysteresis the severity never falls |
| Thermal.BatteryNeverRecovers | thermal/thermalCommon.cpp:435-447 | For the unscaled battery percentage no reading can clear it |
| Thermal.ThermSensor.constructor | thermal/thermalCommon.cpp:241-292 | At most two thresholds, on the side of the ramp, zero meaning none |
| Thermal.ThermSensor.EstimateSeverity | thermal/thermalCommon.cpp:426-472 | The new and the previous severity, and whether a change is reported |
| Thermal.ThermalUtils.Notify | thermal/thermalUtils.cpp:84-95 | One callback exactly when the severity changed |
| Thermal.ThermalUtils.UeventParse | thermal/thermalUtils.cpp:97-110 | The scaled reading of a known sensor is evaluated; an unknown one is ignored; over all sensors no callback repeats the one before for its sensor |
| Proprietary.ParseOfBuild | regenerate_proprietary.py:20-42 | Parsing what is built for a path gives the path back if and only if its line was kept or the path has none of the three separators |
| ProprietaryLayout.PathIsFound | regenerate_proprietary.py:20-42 | The path of a line is found whatever source path, attributes and hash are written around it |
| ProprietaryLayout.IndexIsLast | regenerate_proprietary.py:45-64 | A path is known if and only if some line has it, and the last such line is kept |
| ProprietaryLayout.LineFor | regenerate_proprietary.py:167-203 | Which line a file gets, with the literal chromatix prefix and attribute |
| Proprietary.BuildIsEntry | regenerate_proprietary.py:167-203 | What is built is a line the loader takes as it is |
| Proprietary.GoodTablesExample | regenerate_proprietary.py:74-164 | Tables in the script's form meet the conditions: a title, a group, a mapped source path, an attribute |
| Proprietary.ReferencesAreGood | regenerate_proprietary.py:45-64 | Whatever the old list held, every kept line is stripped, no comment, and parses to the path it is kept under |
| Proprietary.EachFileOnce | regenerate_proprietary.py:276-296 | Over all groups every file is listed exactly as often as it was found |
| Proprietary.MembersCount | regenerate_proprietary.py:276-283 | A file is listed under its first matching group and under no other |
| Proprietary.ReadBack | regenerate_proprietary.py:264-298 | Loading the text that was written gives one line for each file, the one built for it, in the order of the groups |
| ProprietaryLayout.ListLayout | regenerate_proprietary.py:264-298 | In the text written every file's line stands under the header of its first matching group, or the one for the rest, in order, and no other line stands anywhere |
| ProprietaryLayout.FirstGroup | regenerate_proprietary.py:276-283 | That header is the one of the first group with a prefix that begins the path |
| ProprietaryLayout.KeptLinesStay | regenerate_proprietary.py:192-203 | Whatever line a file had in the old list, it has in the new one, under its group's header |
| Proprietary.FixpointExactly | regenerate_proprietary.py:264-298 | Running again on the text that was written writes the same text if and only if every file that finds a line in it finds the line it was given |
| Proprietary.Fixpoint | regenerate_proprietary.py:264-298 | It does whenever every file whose line was not kept has none of the three separators in its name |
| Proprietary.ColonExample | regenerate_proprietary.py:20-64 | Two files, one with a colon in its name: the second run gives the first file the second one's line |
| Proprietary.LoadReferenceEntries | regenerate_proprietary.py:45-64 | The loop computes the index of the lines, later ones winning |
| Proprietary.Regenerate | regenerate_proprietary.py:260-298 | The loops over groups and files, with the set of files already taken, write the specified text |
| PythonText.PiecesOfJoin | regenerate_proprietary.py:298-298 | Joined lines split back into themselves |
| PythonText.Boundaries | regenerate_proprietary.py:56-57 | The line boundaries by their code points, all of them white space |

## Left out

- TripTheorems.FixIntervalServesAll: intervals of zero are excluded, since the running minimum takes 0 for "nothing yet".
- ElapsedRealtime.EstimateIsClosedForm: nanosecond times and the fix counter are mathematical integers; 64-bit and 32-bit
  overflow is not modelled.
- Proprietary.FixpointExactly: a file name whose line was not kept must be one the loader takes as it is (not empty, no
  line breaks, outer blanks or leading `#`); the literal tables (groups, headers, fallback lines and suffixes) are
  parameters, and `GoodTables` states what is asked of them.
- NetworkInfo.SystemStatusNetworkInfo.Collate: reports are fresh items; type masks are sets of bit positions.
- Agps.AgpsManager.ReportAtlOpenSuccess: this and the two reports like it ask that a machine exists for the type, as the
  source dereferences it unchecked.
- Geofence.RestartRebuilds: the hardware's new ids are a parameter and are distinct.
- Memory management (cloning, deleting, failing allocations, lifetime of iterators and of erased sessions).
- Files, sysfs, netlink, JNI, message queues and logging; each message and each response callback is one atomic step
  whose answers are parameters.
- Registration of event masks, the session lists beside the trip sessions, and response reporting to clients.
- The hash function of the FM table: an arbitrary pure function. Releasing the table is not modelled.
- `turnOn`/`turnOff` reference counts and the backhaul messages of the observer.
- Floating point: thermal temperatures and thresholds are reals; writing trip points back to the driver is not modelled.
- `collect_files` (a sorted listing of a directory tree) is a parameter of the generator, and its progress messages are
  left out.
