# WalkerHolic: motion states and alert delivery, in Dafny

WalkerHolic watches an elderly user through a Raspberry Pi worn on the body.
The device classifies each moment as daily life, walking or a fall. It sends
telemetry and fall alerts over a WebSocket to a FastAPI server. The server
mirrors the user's state, opens and closes walking sessions, and arms a
15-second emergency timer after every stored fall. A periodic sweep escalates
an expired timer to a CRITICAL broadcast, and two manual routes let the user
resolve an emergency or confirm that help is needed. A React dashboard
normalises the state labels it receives, formats durations and draws the
emergency timer. A Supabase wrapper decides when an answer is real data and
when it is a mock fallback.

This project models that pipeline as pure functions over immutable records.
Time is an explicit input in integer milliseconds, and clock readings are
positive (`Basics.Stamp`). Confidence weights are integer tenths. Queues are
bounded sequences. The store and the sockets are parameters: a store call
either returns, raises or runs in mock mode, and a socket is either CONNECTED
or not and its send either completes or raises.

Modules, leaf first:

- `Basics`: options, decimal digits, ASCII lower-casing, Python's `strip()`, substring search, and a JSON value type.
- `WalkingDetector`, `StateManager`, `DataSender` and `Packages`: the walking client (`Walking_Raspberry.py`). They cover peak detection, confidence scoring and hysteresis, the state machine, the two bounded queues with their drain step, the reconnect back-off, and the wire packages.
- `SimpleClient`: the compact client (`Raspberry_Complete.py`). Its queue and back-off policy is `DataSender.CompactClientPolicy`.
- `RealtimeClient`: the real-time client's 16-bit register decoding and prediction schedule.
- `ServerTracker`, `Frames`, `WalkingManager` and `BasicManager`: the two server connection managers.
- `Routes`: the socket endpoint loop, the emergency controls and views, and the risk tiers.
- `StatusDisplay`: the dashboard helpers.
- `WsClient`: the dashboard's socket service.
- `Store`: the database wrapper.

Where the source's own comments state an intent that its code does not meet, the model follows the code:

- `confirm_help_needed` is documented as immediate emergency handling (backend/app/api/routes.py:682, 690). The code broadcasts but never disarms the timer, and with no timer it raises before broadcasting. `Routes.ConfirmHelpAsWritten` models this.
- `disconnect()` marks the counter update as preventing reconnection (frontend/src/services/websocket.js:121). The code only sets the counter to the maximum, which a pending attempt still accepts. `WsClient.DisconnectAsWritten` models this.

## Model

| member | source | states |
|---|---|---|
| WalkingDetector.PeaksAreGreedySelection | Walking_Raspberry.py:119-125 | The peak list is sound: every index exceeds the threshold and is the maximum of its 21-sample neighbourhood, and consecutive peaks are at least 15 apart. It is also complete: every other candidate lies within 15 samples after an accepted peak. |
| WalkingDetector.ScanPeaksSound | Walking_Raspberry.py:119-125 | From any point of the scan over `range(20, len-20)`, a sound list of peaks stays sound to the end. |
| WalkingDetector.ScanPeaksComplete | Walking_Raspberry.py:119-125 | If every candidate before the scan position is accepted or suppressed, then at the end every candidate in the window is. |
| WalkingDetector.FrequencyInRangeIff | Walking_Raspberry.py:127-138 | The cadence check, with the frequency taken as peaks / 3 s, accepts exactly 4 to 10 peaks in the window. |
| WalkingDetector.Intervals | Walking_Raspberry.py:144-146 | The intervals are the differences of consecutive peak indices, one fewer than the peaks. |
| WalkingDetector.ConfidenceTenths | Walking_Raspberry.py:132-149 | The confidence is an even number of tenths in [0, 10]. It reaches the 0.7 threshold exactly when the spread and cadence checks both pass. It is 0 when no check passes and 1.0 when all three do. |
| WalkingDetector.Decide | Walking_Raspberry.py:151-183 | Inside the 1.5 s debounce nothing changes. Otherwise one counter counts the current run of positive or negative cycles and the other is zeroed. Walking starts exactly at the third positive cycle. It stops exactly at the fifth negative cycle once walking has lasted 2 s. |
| WalkingDetector.Analyze | Walking_Raspberry.py:105-183 | The window is unchanged. A cycle counts as walking exactly when the deviation is in range and 4 to 10 peaks lie above mean + 0.15·std, and it scores 1.0 with regular peaks too. Inside the 1.5 s debounce only the score moves. Otherwise a walking cycle extends the walking streak and zeroes the idle one, and any other cycle the reverse. Walking starts exactly on the third walking cycle in a row, and stops exactly on the fifth idle one once it has lasted 2 s. |
| WalkingDetector.AddSample | Walking_Raspberry.py:95-103 | The window is a 300-sample deque. Until it is full, nothing but the window changes. |
| WalkingDetector.Run | Walking_Raspberry.py:95-103 | Every sequence of samples keeps the detector invariant: the window is bounded, at most one counter is non-zero, and the confidence is at most 1.0. |
| WalkingDetector.NoVerdictBeforeWindowFills | Walking_Raspberry.py:95-103 | From a fresh detector, fewer than 300 samples leave it not walking with confidence 0. |
| WalkingDetector.RunBelowCapacity | Walking_Raspberry.py:95-103 | Below capacity, samples only grow the window, one slot each. |
| StateManager.DeviceLabel | Walking_Raspberry.py:60-65 | Each device state has a non-empty wire label. |
| StateManager.DeviceLabelInjective | Walking_Raspberry.py:60-65 | Two states share a label exactly when they are the same state. |
| StateManager.UpdateState | Walking_Raspberry.py:200-246 | A reported transition restarts the state clock, and no report means no transition. An accepted fall overrides everything and clears a pending start. Daily→Walking happens exactly after a pending start at least 3 s old. Walking→Daily needs more than 8 s, and Fall→Daily more than 5 s. Emergency is never entered. |
| StateManager.PendingWalkHistory | Walking_Raspberry.py:214-228 | A running confirmation clock started at a walking cycle, and no non-walking cycle has come since. |
| StateManager.WalkingNeedsContinuousWalking | Walking_Raspberry.py:214-228 | Entering Walking from Daily implies a walking cycle at least 3 s earlier. |
| StateManager.NeverEmergency | Walking_Raspberry.py:200-246 | From any state but Emergency, no sequence of cycles reaches Emergency. |
| StateManager.FallsRespectCooldown | Walking_Raspberry.py:248-252 | Two accepted falls are more than 10 s apart. |
| DataSender.PushTelemetry | Walking_Raspberry.py:279-288 | Telemetry on a full queue evicts exactly the oldest item and admits the new one. Otherwise the item is appended. |
| DataSender.PushAlert | Walking_Raspberry.py:290-296 | An alert is admitted exactly when the queue has room. A refused alert leaves the queue unchanged. |
| DataSender.TelemetryKeepsNewest | Raspberry_with_realtime_transmission_websocket_updated.py:64-73 | After any sequence of pushes, the queue holds exactly the newest min(n, cap) items offered, in order. |
| DataSender.PushAllTelemetry | Raspberry_with_realtime_transmission_websocket_updated.py:64-73 | Repeated pushes never exceed the queue's capacity. |
| DataSender.DrainTick | Walking_Raspberry.py:298-336 | A pending alert is served before any telemetry, and telemetry only while connected. Something reaches the socket exactly when an item was due, a socket exists and the send completed. A retrying sender puts an undelivered alert back, and telemetry is never put back. |
| DataSender.AlertsNeverLostWhenRetrying | Raspberry_with_realtime_transmission_websocket_updated.py:103-122 | Under a retrying policy, a pending alert is either delivered or still queued, whatever the socket does. |
| DataSender.CompactClientLosesFailedAlert | Raspberry_Complete.py:186-193 | Under the compact client's policy, an alert taken out with no socket is lost. |
| DataSender.RequeueReordersAlerts | Walking_Raspberry.py:318-322 | Alerts [a, b] and a failed send leave the queue as [b, a]. |
| DataSender.DrainTickInOrder | Walking_Raspberry.py:298-336 | The corrected drain takes alerts only from the front, and only by delivering them. |
| DataSender.InOrderDeliversInQueueOrder | Walking_Raspberry.py:298-336 | Under the corrected drain, delivered alerts followed by the queue left over equal the original alert queue. |
| DataSender.RunInOrder | Walking_Raspberry.py:298-336 | Repeated corrected drain passes keep both queues within capacity. |
| DataSender.HandlerRound | Walking_Raspberry.py:484-508 | A connected round resets the delay to 1 s. A failed round sleeps the current delay. The next delay is the double, capped at 30 s. |
| DataSender.DelayAfterFailures | Raspberry_Complete.py:325-347 | After k failed attempts from a reset, the next sleep is min(2^k, 30) seconds. |
| DataSender.DelayAfter | Raspberry_with_realtime_transmission_websocket_updated.py:275-300 | The back-off delay always lies between 1 and 30 seconds. |
| SimpleClient.AddSample | Raspberry_Complete.py:74-98 | With 100 samples buffered, std > 0.15 counts an active cycle and zeroes the idle count, and otherwise the reverse. Walking turns on exactly at 5 active cycles in a row and off exactly at 10 idle ones. |
| SimpleClient.UpdateState | Raspberry_Complete.py:108-141 | A report happens exactly when the manager changed. An accepted fall, meaning no earlier fall or more than 10 s since it, takes priority. Daily→Walking is immediate. Walking→Daily comes after more than 5 s, and Fall→Daily after more than 3 s. |
| SimpleClient.RunFull | Raspberry_Complete.py:74-98 | A full window stays full and keeps the detector invariant. |
| SimpleClient.ActiveCount | Raspberry_Complete.py:83 | The number of active cycles never exceeds the number of cycles. |
| SimpleClient.NoWalkingBeforeFiveActiveCycles | Raspberry_Complete.py:83-97 | While the current streak plus the active cycles still to come (std > 0.15) stay below five, walking does not turn on, however many idle cycles come between. |
| SimpleClient.ActiveCyclesStartWalking | Raspberry_Complete.py:83-97 | Each active cycle in a row extends the streak by one and zeroes the idle count. After at least one such cycle, walking is on exactly when it already was or the streak has reached five. |
| RealtimeClient.ReadWord2c | Raspberry_with_realtime_transmission_websocket_updated.py:157-162 | The value read is high·256 + low, minus 65536 when the high byte's top bit is set. It always lies in [−32768, 32767]. |
| RealtimeClient.DecodeEncode | Raspberry_with_realtime_transmission_websocket_updated.py:157-162 | Reading back the two bytes of any signed 16-bit value gives that value. |
| RealtimeClient.EncodeDecode | Raspberry_with_realtime_transmission_websocket_updated.py:157-162 | Every byte pair is the encoding of the value read from it. |
| RealtimeClient.AddData | Raspberry_with_realtime_transmission_websocket_updated.py:206-209 | A sample goes into the 150-slot deque and the counter grows by one. |
| RealtimeClient.AddAll | Raspberry_with_realtime_transmission_websocket_updated.py:206-209 | The buffer never exceeds 150 samples. |
| RealtimeClient.AddAllCounts | Raspberry_with_realtime_transmission_websocket_updated.py:198-209 | After n more samples, a predictor whose counter equals its buffer length (a fresh one, say) holds min(counter + n, 150) samples, and its counter has grown by n. |
| RealtimeClient.FullStaysFull | Raspberry_with_realtime_transmission_websocket_updated.py:206-209 | A full buffer stays full while the counter keeps counting. |
| RealtimeClient.PredictionSchedule | Raspberry_with_realtime_transmission_websocket_updated.py:211-213 | After n samples from a fresh predictor, a prediction is due exactly when n ≥ 150 and n is a multiple of 5. |
| Packages.WithStateInfo | Walking_Raspberry.py:461-462 | `state_info` is attached exactly when it is non-empty. |
| Packages.StateInfo | Walking_Raspberry.py:258-269 | The report carries the device's state label and whether a fall can be detected. It carries `pending_walking` exactly when a walking start is pending. |
| Packages.Package | Walking_Raspberry.py:446-482 | A device package has exactly a type and data, plus `state_info` exactly when the state info is non-empty. |
| Packages.FallData | Walking_Raspberry.py:468-479 | The data of a fall package has exactly five keys. It names the user, has `fall_detected` true, and has the probability as confidence. |
| Packages.ImuPackage | Walking_Raspberry.py:446-463 | The package has type `imu_data` and the reading's record as data. It carries `state_info` exactly when the state info is non-empty. |
| Packages.FallPackage | Walking_Raspberry.py:465-482 | The package has type `fall_detection`. Its data names the user, has `fall_detected` true and the probability as confidence, and has exactly five keys. It carries `state_info` exactly when the state info is non-empty. |
| Packages.ImuPackageRoundTrip | Walking_Raspberry.py:446-463 | The server routes a device telemetry package to the IMU path and reads back the same six components and the same state info. |
| Packages.FallPackageRoute | Walking_Raspberry.py:465-482 | The server routes a device fall package to the fall path, with `fall_detected` true and the probability as confidence. |
| Packages.DeviceSensorDataSentAsText | backend/app/core/websocket_manager_walking.py:504-508 | A device fall record has no `acc_x` and an object as `sensor_data`, so the CSV backup replaces its sensor data by JSON text before the alert is broadcast. |
| Packages.DeviceReportRejected | backend/app/core/websocket_manager_walking.py:56-66 | Every report the device sends is rejected by the server tracker, which stays unchanged. |
| Packages.StateInfoForServer | Walking_Raspberry.py:258-269 | The corrected report has the same keys and values as the device's report, except for the state label. |
| Packages.ServerMirrorsDevice | backend/app/core/websocket_manager_walking.py:56-82 | With server labels, the tracker's state equals the device's state after every report. |
| ServerTracker.ServerLabel | backend/app/core/websocket_manager_walking.py:32-37 | Each server state has its own non-empty Korean label. |
| ServerTracker.ParseServerState | backend/app/core/websocket_manager_walking.py:61-66 | A recognised value is one of the four labels, and it maps to that label's state. |
| ServerTracker.ParseServerLabel | backend/app/core/websocket_manager_walking.py:32-37 | Every label parses back to its own state. |
| ServerTracker.UpdateFromRaspberry | backend/app/core/websocket_manager_walking.py:56-82 | An unknown label changes nothing and returns false, and a missing label reads as Daily. A recognised label is mirrored and reports a change exactly when it differs. Entering Fall records the fall time, and every valid report refreshes the update time. |
| ServerTracker.UpdateIdempotent | backend/app/core/websocket_manager_walking.py:56-82 | Repeating a report changes nothing but the update time and reports no change. |
| Frames.RouteFrame | backend/app/core/websocket_manager.py:52-69 | A frame goes to the IMU path for type `imu_data` and to the fall path for `fall_detection`, with its `data` and `state_info`. Non-JSON, a non-object, or a typed frame without `data` is dropped. Any other object goes whole to the legacy path. |
| Frames.LegacyConfidence | backend/app/core/websocket_manager.py:165 | The confidence is `probability`, else `confidence_score`, else 0.8. |
| Frames.LegacyFallRecord | backend/app/core/websocket_manager.py:159-167 | A legacy fall becomes a record with exactly five keys, `fall_detected` true, and the message itself as `sensor_data`. |
| Frames.LegacyImuRecord | backend/app/core/websocket_manager.py:169-183 | The six components of `accel` and `gyro` land one-to-one on `acc_x`..`gyr_z`. |
| Frames.ClassifyLegacy | backend/app/core/websocket_manager.py:148-183 | A message is a fall exactly when `event` is `fall_detected`, `fall_detected` is true, or it has a `fall_alert` or `emergency` key. Otherwise it is telemetry exactly when it has well-formed `accel` and `gyro`, and it raises when they are present but malformed. |
| BasicManager.Connect | backend/app/core/websocket_manager.py:33-41 | Registers the socket, creates empty buffers for a new user and keeps existing ones. |
| BasicManager.Disconnect | backend/app/core/websocket_manager.py:43-50 | Removes only the connection entry. The buffers stay. |
| BasicManager.CapBatch | backend/app/core/websocket_manager.py:100-102 | A batch longer than 50 keeps its newest 50 records, and a shorter one is untouched. |
| BasicManager.ProcessImu | backend/app/core/websocket_manager.py:71-112 | The frame fails and changes nothing exactly when the timestamp test or assignment raises. Otherwise a batch reaching 5 is handed to the store whole, with the new record as it was stamped. A record left in the batch is the one the CSV backup rewrote in place: an object without `acc_x` has its non-string `sensor_data` replaced by JSON text. A sender whose acknowledgement raises loses its connection. Other users' batches are untouched, and batches stay below the flush size between frames. |
| BasicManager.NonObjectPayloads | backend/app/core/websocket_manager.py:77-86 | The string `"timestamp"` and the list `["timestamp"]` pass the timestamp test unchanged, and such a frame is batched. An empty string or `null` fails. |
| BasicManager.CapNeverTriggers | backend/app/core/websocket_manager.py:88-102 | Between frames, the 50-record cap never cuts anything. |
| BasicManager.FallAlert | backend/app/core/websocket_manager.py:185-195 | The alert carries exactly the user, timestamp, confidence (default 0) and message. |
| BasicManager.ProcessFall | backend/app/core/websocket_manager.py:114-146 | A fall object is completed with its defaults and alerted to every reachable observer. The other observers' connections are dropped, and the batches stay. A non-object fails and changes nothing. |
| BasicManager.HandleFrame | backend/app/core/websocket_manager.py:52-69 | Frames are dispatched by type, legacy ones after classification, and an unreadable frame changes nothing. |
| BasicManager.LegacyFallAlerts | backend/app/core/websocket_manager.py:148-168 | A legacy fall message alerts every reachable observer and keeps its confidence. |
| WalkingManager.Connect | backend/app/core/websocket_manager_walking.py:105-138 | Registers the socket, creates buffers and a Daily tracker for a new user, keeps those of a returning user, and starts the monitor. |
| WalkingManager.Disconnect | backend/app/core/websocket_manager_walking.py:140-178 | For a connected user, removes the connection, buffers, tracker and timer, and stops the monitor once no connection remains. For any other user it changes nothing. |
| WalkingManager.DisconnectLeftovers | backend/app/core/websocket_manager_walking.py:150-157 | The leftover batch goes to the store only for a connected user. |
| WalkingManager.DisconnectAll | backend/app/core/websocket_manager_walking.py:487-489 | Disconnecting a set removes exactly its connected members' state. |
| WalkingManager.DisconnectAllStep | backend/app/core/websocket_manager_walking.py:487-489 | The order in which the noted observers are disconnected does not matter. |
| WalkingManager.Reachable | backend/app/core/websocket_manager_walking.py:478-486 | An observer receives a broadcast exactly when its socket is CONNECTED and its send completes. |
| WalkingManager.Stamped | backend/app/core/websocket_manager_walking.py:472-475 | A timestamp is added only when the alert has none. Nothing else in the alert changes. |
| WalkingManager.Broadcast | backend/app/core/websocket_manager_walking.py:470-494 | The count is the number of reachable observers. Exactly the others are disconnected, after the loop, and a failure never stops delivery to the rest. Recipients keep their socket and timer; the others lose their timer with their connection. |
| WalkingManager.StartWalkingSession | backend/app/core/websocket_manager_walking.py:327-341 | Only a live store that returned an id opens a session. A mock store or a failed save leaves the tracker unchanged. |
| WalkingManager.EndSessionRequest | backend/app/core/websocket_manager_walking.py:343-358 | An update is sent exactly when the user has a tracker with an open session and the store is live. |
| WalkingManager.EndWalkingSession | backend/app/core/websocket_manager_walking.py:343-366 | The session stays open exactly when the live update raised. |
| WalkingManager.HandleStateChange | backend/app/core/websocket_manager_walking.py:297-325 | A session opens only in Walking with none open and closes only outside Walking. The timer is disarmed exactly on a change into Daily, and nothing else changes. |
| WalkingManager.SessionOnlyWhileWalking | backend/app/core/websocket_manager_walking.py:297-307 | After a state change, an open session implies Walking unless closing it failed. |
| WalkingManager.ApplyStateInfo | backend/app/core/websocket_manager_walking.py:204-210 | The tracker mirrors the report, and the only timer that can go is the user's own, on a change into Daily. |
| WalkingManager.TimestampedRecord | backend/app/core/websocket_manager_walking.py:213-216 | An object gets a timestamp if it has none. A string passes unchanged exactly when it contains `timestamp`, and a list exactly when it holds that string. Anything else raises. |
| WalkingManager.ProcessImu | backend/app/core/websocket_manager_walking.py:199-252 | A state report that is truthy but not an object fails first. A truthy report moves the sender's tracker exactly as `update_from_raspberry` does, and a falsy one leaves every tracker alone. After the report is applied, the frame fails exactly when the timestamp test or assignment raises. Otherwise a batch reaching 5 is handed to the store whole, with the new record as it was stamped. A record left in the batch is the one the CSV backup rewrote in place. A sender whose acknowledgement raises is torn down. |
| WalkingManager.FallAlert | backend/app/core/websocket_manager_walking.py:454-468 | The `fall_alert` carries the user, the record's confidence (default 0), the record's `sensor_data` (default an empty object) and level HIGH. |
| WalkingManager.AfterCsv | backend/app/core/websocket_manager_walking.py:496-508 | `_save_to_csv` replaces `sensor_data` by its JSON text exactly when the record has no `acc_x` and its `sensor_data` is not a string. Every other key, and every other record, is left as it was. |
| WalkingManager.FallRecord | backend/app/core/websocket_manager_walking.py:265-271 | A record gains a timestamp, `fall_detected` true and confidence 0.8 only where absent, and keeps all its own fields. |
| WalkingManager.ArmTimer | backend/app/core/websocket_manager_walking.py:276-290 | The timer is armed at the current time exactly when the live store accepted the record. |
| WalkingManager.ProcessFall | backend/app/core/websocket_manager_walking.py:254-295 | The fall alert goes out whenever the record could be processed, whatever the store did. It carries the record as the CSV backup left it, so sensor data that is not a string goes out as JSON text. A timer is new or re-armed only for this user and only after a live save. |
| WalkingManager.HandleFrame | backend/app/core/websocket_manager_walking.py:180-197 | Frames go to their paths by type. A legacy fall always reaches the broadcast, and an unrecognised legacy message changes nothing. |
| WalkingManager.DeclaredAlert | backend/app/core/websocket_manager_walking.py:396-408 | The `emergency_declared` alert names the user and carries the whole seconds elapsed and level CRITICAL. |
| WalkingManager.DisarmAndBroadcast | backend/app/core/websocket_manager_walking.py:381-408 | The user's timer is gone and no timer is re-armed. Other timers disappear only for observers the broadcast disconnected. The alert goes out with its own type and data fields. |
| WalkingManager.Declare | backend/app/core/websocket_manager_walking.py:379-408 | The user's timer is gone. Other timers disappear only for observers the broadcast disconnected, and reachable observers keep theirs. |
| WalkingManager.SweepAsWritten | backend/app/core/websocket_manager_walking.py:368-415 | The pass declares only users whose snapshot entry has expired. A pass that is not cut short is exactly the corrected sweep. |
| WalkingManager.SweepAsWrittenReachesExpired | backend/app/core/websocket_manager_walking.py:368-415 | A reachable user whose armed timer has expired is declared by the pass, or the pass is cut short with that user's timer still armed. |
| WalkingManager.SweepAsWrittenExtends | backend/app/core/websocket_manager_walking.py:375-381 | A pass only appends to the users it has declared. |
| WalkingManager.Sweep | backend/app/core/websocket_manager_walking.py:368-415 | The corrected sweep never aborts. |
| WalkingManager.NextSweepDelay | backend/app/core/websocket_manager_walking.py:411-415 | The next pass comes after 30 s exactly when this pass raised, and otherwise after 5 s. |
| WalkingManager.SweepKeepsInvariant | backend/app/core/websocket_manager_walking.py:372-408 | Part-way through, no timer is added or re-armed, every declared user was expired and appears once, and every visited expired entry is disarmed. |
| WalkingManager.SweepEscalatesExpired | backend/app/core/websocket_manager_walking.py:368-415 | After a corrected pass, the timers left are exactly the unexpired ones, unchanged. Each declared user had an expired timer and is declared once. A reachable observer's expired timer is always declared. |
| WalkingManager.FirstDeclarationDropsBroken | backend/app/core/websocket_manager_walking.py:487-489 | A declaration's broadcast disconnects a broken observer and takes its timer with it. |
| WalkingManager.SweepAbandonsLaterTimers | backend/app/core/websocket_manager_walking.py:372-381 | With the middle of three expired observers broken, the sweep as written declares the first, aborts, and leaves the third armed and undeclared. |
| WalkingManager.SweepSkipsDisarmed | backend/app/core/websocket_manager_walking.py:372-381 | On the same server, the corrected sweep declares both observers it can still reach. |
| WalkingManager.DeferredSessionClose | backend/app/core/websocket_manager_walking.py:142-145 | The session close that `disconnect` schedules for a connected user never reaches the store, and for a user with no connection nothing is scheduled. |
| WalkingManager.SessionCloseBeforeTeardown | backend/app/core/websocket_manager_walking.py:343-362 | Closing before the teardown sends the update exactly when a live session is open. |
| WalkingManager.DisconnectLeavesSessionOpen | backend/app/core/websocket_manager_walking.py:140-166 | A user who disconnects mid-walk against the live store keeps the session open as written, and only the corrected order closes it. |
| WalkingManager.UserStatus | backend/app/core/websocket_manager_walking.py:568-595 | The status is unknown exactly without a tracker. An armed timer outranks every state message and reports the time since the fall. |
| Routes.IntSeconds | backend/app/api/routes.py:634 | `int()` truncates toward zero, so the result is within one second of the duration on the side of zero. |
| Basics.Strip | backend/app/api/routes.py:47 | The result is no longer than the text and neither starts nor ends with a character Python counts as white space, Unicode spaces included. |
| Routes.Serve | backend/app/api/routes.py:41-80 | The loop reads at most the events it is given, and it never passes on more frames than it has read. |
| Routes.ServeStopsAtFirstEnd | backend/app/api/routes.py:41-80 | The loop ends exactly at the first ending event: a frame that is `disconnect` after Python's `strip()`, a closure, or an error reply that cannot be sent. No earlier event ends it, and without such an event it reads every event. |
| Routes.ServePassesDataOn | backend/app/api/routes.py:46-62 | Exactly the frames read before the end that are neither `ping` nor `disconnect` after Python's `strip()` reach the manager, in order. |
| Routes.DataTexts | backend/app/api/routes.py:46-62 | No more frames are passed on than there are events. |
| Routes.DataTextsAreDataFrames | backend/app/api/routes.py:46-62 | Every frame passed on is the text of a data event. When every event is data, all are passed on, and when none is, none are. |
| Routes.PaddedControlWords | backend/app/api/routes.py:46-53 | Control words are compared after `strip()`, which also removes Unicode white space: `disconnect` followed by a no-break space ends the loop, and `ping` between an ideographic and a no-break space is answered with a pong. |
| Routes.PingsKeepSessionOpen | backend/app/api/routes.py:46-49 | Any number of pings is answered with as many pongs, and the loop stays open. |
| Routes.EndSession | backend/app/api/routes.py:82-89 | On exit, the manager's disconnect runs. The walking manager drops the user's connection, tracker and timer, and the basic manager drops only the connection. |
| Routes.ResolvedAlert | backend/app/api/routes.py:627-638 | The `emergency_resolved` alert always carries a timestamp. |
| Routes.Resolve | backend/app/api/routes.py:608-678 | Without timers the answer is an error and nothing changes. Without the user's timer it is a warning and nothing changes. Otherwise the timer is removed, one `emergency_resolved` is broadcast, and the resolution type defaults to `user_ok`. |
| Routes.ConfirmedAlert | backend/app/api/routes.py:700-712 | The `emergency_confirmed_critical` alert carries level CRITICAL and a timestamp. |
| Routes.ConfirmHelpAsWritten | backend/app/api/routes.py:680-747 | Without the user's timer the route fails before broadcasting and changes nothing. With one, it broadcasts CRITICAL, and a reachable user's timer stays armed as it was. |
| Routes.ConfirmHelp | backend/app/api/routes.py:680-747 | The corrected route always removes the user's timer and broadcasts CRITICAL. The help type defaults to `general_help`. |
| Routes.ConfirmedEmergencyDeclaredAgain | backend/app/api/routes.py:690-715 | After a confirmation as written, the next sweep as written past 15 s declares the same emergency again, unless an unrelated entry cuts that pass short and leaves the timer armed for the retry. After the corrected confirmation, the sweep does not declare it. |
| Routes.LevelOf | backend/app/api/routes.py:490 | An emergency is CRITICAL exactly from 15 s on, and MONITORING before that. |
| Routes.MonitorView | backend/app/api/routes.py:477-514 | There is one row per armed timer, with its elapsed time and level. Without timers there are none. |
| Routes.CurrentEmergency | backend/app/api/routes.py:749-792 | An emergency is reported exactly for an armed timer. The time until critical is never negative and is 0 exactly when the level is CRITICAL. Before that, elapsed plus remaining is 15 s. |
| Routes.CognitiveTier | backend/app/api/routes.py:362-370 | The tier is normal from 85, mild from 70, moderate from 55, and severe below. |
| Routes.CognitiveTierMonotone | backend/app/api/routes.py:362-370 | A higher score never gives a worse tier. |
| Routes.FallRiskTier | backend/app/api/routes.py:407-413 | The risk is low up to 30, medium up to 60, and high above. |
| Routes.FallRiskTierMonotone | backend/app/api/routes.py:407-413 | A higher risk score never gives a lower tier. |
| StatusDisplay.NormalizeAsWritten | frontend/src/components/UserStatusDisplay.js:250-274 | An empty state gives `daily`, and every other result is one of the four panel labels. `walk` gives 보행. Otherwise `idle` or `daily` gives 일상, then `fall` gives 낙상, then `emergency` gives 응급. A label with no keyword passes through exactly when it is a panel label, and otherwise becomes 일상. |
| StatusDisplay.WalkingShownAsDaily | frontend/src/components/UserStatusDisplay.js:266-273 | The server's 걷기 becomes 일상 and is displayed as daily life. The other server labels come out right. |
| StatusDisplay.Normalize | frontend/src/components/UserStatusDisplay.js:250-274 | The corrected normalisation also maps 걷기 to 보행. |
| StatusDisplay.PanelMirrorsServer | frontend/src/components/UserStatusDisplay.js:250-274 | With the correction, every server state shows as its own panel label. |
| StatusDisplay.NormalizeIdempotent | frontend/src/components/UserStatusDisplay.js:250-274 | Normalising a non-empty label twice gives the same as normalising it once. |
| StatusDisplay.DisplayName | frontend/src/components/UserStatusDisplay.js:196-218 | Known labels get their fixed names. An unknown label is shown as "label (확인 중)", and an empty one as 연결 대기 중. |
| StatusDisplay.NormalizedNamesAreFixed | frontend/src/components/UserStatusDisplay.js:196-218 | Every normalised label has a fixed display name. |
| StatusDisplay.FormatDuration | frontend/src/components/UserStatusDisplay.js:220-233 | Zero or negative input gives 0초. Under an hour the text ends in seconds, and from an hour on it ends in minutes. |
| StatusDisplay.DurationReadsBack | frontend/src/components/UserStatusDisplay.js:220-233 | Reading the formatted text back gives the whole seconds under an hour, and the whole minutes' worth of seconds from an hour on. |
| StatusDisplay.ProgressWidth | frontend/src/components/UserStatusDisplay.js:342 | The bar width never exceeds 100%, is never negative for a non-negative timer, and is full exactly from 15 s on. |
| StatusDisplay.BarFullIffCritical | frontend/src/components/UserStatusDisplay.js:342 | The bar is full exactly when the server's level would be CRITICAL. |
| StatusDisplay.ProgressMonotone | frontend/src/components/UserStatusDisplay.js:342 | The bar never shrinks as the timer grows. |
| WsClient.On | frontend/src/services/websocket.js:455-460 | Appends the callback to its event's list and leaves other events alone. |
| WsClient.Off | frontend/src/services/websocket.js:462-470 | With a callback, every copy of it goes from its event. Without one, the event goes entirely. An unknown event changes nothing, and other events are untouched. |
| WsClient.Without | frontend/src/services/websocket.js:466 | No copy of the removed callback is left. Every callback that is left was registered, and every other registered callback is left. Removing an absent callback changes nothing. |
| WsClient.WithoutKeepsOthers | frontend/src/services/websocket.js:466 | The filter keeps every other callback as often as it was registered. |
| WsClient.Emit | frontend/src/services/websocket.js:472-476 | Listeners are called in registration order. An unknown event calls nothing. |
| WsClient.EmitAfterOn | frontend/src/services/websocket.js:455-476 | A callback registered last is called last. |
| WsClient.OffUndoesOn | frontend/src/services/websocket.js:455-476 | Registering and then removing a callback is the same as only removing it. |
| WsClient.Connect | frontend/src/services/websocket.js:10-20 | An open socket is kept, and otherwise a new one starts connecting. |
| WsClient.Opened | frontend/src/services/websocket.js:22-27 | A successful open resets the attempt counter to 0. |
| WsClient.CloseEvent | frontend/src/services/websocket.js:88-96 | A reconnect is scheduled, and the counter raised, exactly for close codes other than 1000. |
| WsClient.TimerFires | frontend/src/services/websocket.js:109-118 | A scheduled attempt reconnects a closed client exactly while the counter is at most 5. |
| WsClient.DisconnectAsWritten | frontend/src/services/websocket.js:120-126 | Disconnecting sets the counter to exactly 5 and keeps the scheduled attempts. |
| WsClient.PendingTimerReconnectsAfterDisconnect | frontend/src/services/websocket.js:109-126 | A reconnect scheduled before `disconnect` still reconnects. |
| WsClient.Disconnect | frontend/src/services/websocket.js:120-126 | The corrected disconnect puts the counter past the maximum. |
| WsClient.NoReconnectAfterDisconnect | frontend/src/services/websocket.js:109-126 | Once disconnected past the maximum, no sequence of timer or close events opens a socket. |
| WsClient.DisconnectStaysDisconnected | frontend/src/services/websocket.js:109-126 | After the corrected disconnect, no socket is ever opened again. |
| WsClient.ReconnectsAtMostFiveTimes | frontend/src/services/websocket.js:109-118 | After k failed attempts the counter is k, and the k-th attempt connects exactly when k ≤ 5. |
| WsClient.Dispatch | frontend/src/services/websocket.js:29-81 | The four alert types and the health-check response each raise their own events. Any other object is emitted once as `message`, followed by `user_state_update` exactly when its user state is truthy in JavaScript, where an empty object or list is truthy. Text that is not JSON, or is `null`, emits nothing, and any other value is emitted as `message`. |
| WsClient.EmptyUserStateIsTruthy | frontend/src/services/websocket.js:64-76 | An empty object or list as user state still raises `user_state_update`, and an empty string does not. |
| WsClient.ServerAlertsReachTheirHandlers | frontend/src/services/websocket.js:35-46 | Every alert the server builds reaches the dashboard handler for its type. |
| WsClient.BeepHeader | frontend/src/services/websocket.js:316-341 | The buffer is 44 + 2·samples bytes, and the data chunk is 2·samples bytes. |
| WsClient.BeepHeaderWellFormed | frontend/src/services/websocket.js:316-341 | For every length the header is well-formed PCM. The RIFF size is the buffer length minus 8, the byte rate and block alignment agree with the channel count and sample width, and each sample takes one slot of that width. |
| Store.Execute | backend/database/supabase_client_test.py:221-259 | A mock store answers with the fallback. A live success answers with the data and `mock` false. A live failure is covered by the fallback, marked mock with the error, exactly when the fallback is not `None`, and is re-raised otherwise. |
| Store.MockFlagMeansNoRealData | backend/database/supabase_client_test.py:229-259 | The `mock` flag is set exactly when the operation's own answer was never asked for or was lost. |
| Store.MockNeverRuns | backend/database/supabase_client.py:269-274 | In mock mode the operation's outcome makes no difference. |
| Store.NormalizeAnalysis | backend/database/supabase_client_test.py:273-279 | `timestamp` moves to `analysis_timestamp` only when that key is free. The two defaults never overwrite a given value. |
| Store.NormalizeAnalysisIdempotent | backend/database/supabase_client_test.py:273-279 | Normalising twice is the same as normalising once. |
| Store.SaveAnalysisResult | backend/database/supabase_client_test.py:271-285 | The save always answers, and a mock answer is the normalised record. |
| Store.HealthOfConfidence | backend/database/supabase_client_test.py:411-422 | The health tier is good from 0.8, fair from 0.6, caution from 0.4, and danger below. |
| Store.HealthMonotone | backend/database/supabase_client_test.py:411-422 | A higher confidence never gives a worse tier. |
| Store.AssessHealthFromRoc | backend/database/supabase_client_test.py:411-422 | A missing confidence reads as 0, which is danger. A number is tiered, a boolean counts as 0 or 1, and anything else fails the comparison. |
| Store.RocRecord | backend/database/supabase_client_test.py:394-409 | The record has exactly the ten columns of the analysis table. |
| Store.RocRecordSurvivesNormalization | backend/database/supabase_client_test.py:394-409 | Normalisation leaves the ROC record unchanged, so it keeps its own type, timestamp and model version. |
| Store.SaveRocAnalysis | backend/database/supabase_client_test.py:394-443 | The save fails exactly when the health assessment raises, or a present `step_frequency`, `acc_mean` or `regularity` is not a number. Otherwise it always answers. A mock answer is the record with type `roc_walking`, the assessed health, and the confidence (default 0) as similarity. |
| Store.NonNumericMeanFailsSave | backend/database/supabase_client_test.py:424-443 | A confident reading with a string `acc_mean` is not saved, and the same reading without it is. |
| Store.SessionIdOf | backend/database/supabase_client_test.py:350-356 | A non-empty list yields its first row's `id`, and a non-empty object its own `id`. Either raises when the id is missing. A falsy answer, or one that is neither, yields a fresh mock id, and a re-raised error is passed on. |
| Store.SaveWalkingSession | backend/database/supabase_client_test.py:339-356 | In mock mode, or when the insert fails, the session gets its own id or the mock id, and nothing is re-raised. A live answer is read for an id as it came back. |
| Store.MockSessionId | backend/database/supabase_client_test.py:339-356 | In mock mode a session gets its own id, or the mock id when it has none. |
| Store.LiveSessionId | backend/database/supabase_client.py:411-417 | A live insert answering one row gives that row's id. A failed insert still yields an id through the fallback. |
| Store.SessionFallback | backend/database/supabase_client_test.py:339-356 | The fallback record is the session with its defaults plus the mock id, and the session's own id wins. |
| Store.SaveImuBatch | backend/database/supabase_client_test.py:657-666 | An empty batch is answered at once with an empty list. Otherwise it is one insert with the batch as fallback. |
| Store.EmptyBatchNeverRuns | backend/database/supabase_client_test.py:659-660 | For an empty batch the store's outcome makes no difference. |

## Left out

- Sensor I/O, scaler loading and normalisation, and the TFLite fall classifier: the classifier's verdict is an input.
- The window statistics: numpy's mean and standard deviation are real-valued inputs. Peak detection itself is modelled over the window.
- WalkingDetector.ConfidenceTenths: the score is kept in tenths, not as a float sum. The sums of 0.4, 0.4 and 0.2 take the same values.
- Floating-point time: clock readings are integer milliseconds, and `time.time()` differences are their exact differences.
- WalkingManager.UserStatus: the report's `state_duration`, `last_update` and `fall_detected_time` fields are not modelled; they are clock readings and their differences.
- WsClient.CloseEvent: a late `onclose` from a socket that `connect` has since replaced is not modelled; the client keeps one socket, and every close event is that socket's.
- asyncio, threads and sockets: tasks, sleeps and the main loops are left out. A drain pass, a handler round and a sweep pass are single steps.
- The drain loop's exception branch, the client's `send_loop` never returning to its handler, and the reason the handler therefore never reconnects: all three are left out.
- StateManager.UpdateState: follows the code in measuring Walking→Daily from when Walking began, not from the first idle cycle. No intended alternative is modelled.
- CSV backups: file I/O. The in-place re-encoding of `sensor_data` that precedes the file write is modelled. The text `json.dumps` produces is the `sensorText` parameter.
- `_ensure_user_exists` and the database calls behind `save_user_state`, `save_emergency_event` and the resolution log: store I/O whose results the managers ignore.
- The `connection_established` greetings: a greeting whose send fails is not modelled.
- Routes.Serve: a failing pong or `disconnect_ack` is folded into the error path.
- The chat, cognitive-test and fall-risk-test routes' agent calls: only the tier thresholds are modelled.
- The dashboard's alerts, sounds, notifications, colours, icons and `formatLastUpdate`: user-interface output.
- StatusDisplay.NormalizeAsWritten: lower-cases ASCII only. JavaScript's `toLowerCase` also folds other letters, such as the Kelvin sign, which the model treats as non-keywords.
- StatusDisplay.FormatDuration: `NaN` and `undefined` inputs are not modelled, since durations are reals.
- Store.SaveRocAnalysis: the formatted description and characteristics strings are parameters. Only whether building them raises is modelled.
- The production store's `save_walking_session` does not default `session_quality`. The model follows the other wrapper, and the id extraction is the same.

## Findings

| source | as written | input that shows it | evidently intended | confidence | as-written member | corrected member |
|---|---|---|---|---|---|---|
| Walking_Raspberry.py:60-65 | The device reports its state as Idle, Walking, Fall or Emergency. The server accepts only 일상, 걷기, 낙상 and 응급, so it rejects every report. | any `state_info`, for example state "Walking" | the server mirrors the device's state | high (not executed) | Packages.DeviceReportRejected | Packages.ServerMirrorsDevice |
| frontend/src/components/UserStatusDisplay.js:266-273 | The server's 걷기 has no keyword and is not a panel label, so it becomes 일상. | state "걷기" | 걷기 is shown as walking (보행) | high (not executed) | StatusDisplay.WalkingShownAsDaily | StatusDisplay.PanelMirrorsServer |
| backend/app/api/routes.py:690-698 | Confirming that help is needed never disarms the timer, so the sweep declares the same emergency again. With no timer, `time` is used before the local import binds it, and the route fails without broadcasting. | a confirmation with a reachable, armed timer, then a sweep 15 s after the fall | the confirmation escalates once and disarms the timer | high (not executed) | Routes.ConfirmedEmergencyDeclaredAgain | Routes.ConfirmHelp |
| Walking_Raspberry.py:320-322 | A failed alert is put back with `put_nowait`, at the back of the queue. | alerts [a, b] with no socket | the alert is retried before later alerts | medium (not executed) | DataSender.RequeueReordersAlerts | DataSender.InOrderDeliversInQueueOrder |
| frontend/src/services/websocket.js:120-126 | `disconnect` sets the counter to 5, and a pending attempt checks `<= 5`, so it reconnects. | close code 1006, then `disconnect()` before the 3 s timer fires | no reconnect after `disconnect` | high (not executed) | WsClient.PendingTimerReconnectsAfterDisconnect | WsClient.DisconnectStaysDisconnected |
| backend/app/core/websocket_manager_walking.py:143-161 | The session close is scheduled as a task that runs after `disconnect` has deleted the tracker, so it returns early. | a user disconnecting mid-walk against the live store | the session is closed in the store | high (not executed) | WalkingManager.DisconnectLeavesSessionOpen | WalkingManager.SessionCloseBeforeTeardown |
| backend/app/core/websocket_manager_walking.py:372-381 | A declaration's broadcast can disconnect another expired user. That user's `del` then raises KeyError and abandons the rest of the pass. | three expired timers, the middle observer's socket broken | every expired timer is declared in the same pass | high (not executed) | WalkingManager.SweepAbandonsLaterTimers | WalkingManager.SweepEscalatesExpired |
