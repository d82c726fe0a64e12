# Sensors multi-HAL proxy, ambient-light correction and camera motor: verified model

This Dafny project models the stateful parts of a OnePlus device tree: the multi-HAL sensors proxy, the
ambient-light correction it applies to one vendor sensor, the screen average that feeds the correction, and the
service that drives the pop-up camera's motor. `dafny verify dfyconfig.toml` checks all of it.

Each object of the source whose fields are updated in place is a class (`Proxy.HalProxy`,
`ProxyCallback.HalProxyCallback`, `AlsCorrection.AlsCorrection`, `CameraMotor.CameraMotorService`). Its methods are
proved against functions on plain values (modules `Wakelock`, `PendingWrites`, `Registry`, `OperationModes`,
`AlsModel`), and the promises of the code are proved about those functions, mostly over whole runs.
`AlsMeaning` describes the light filter a second time, from event, configuration and earlier state alone, and
`LightPost` joins it to the pipeline.

**The event pipeline** (`Pipeline`, `Histories`, `Conservation`). Sub-HAL threads, the writer thread, the wakelock
thread and the framework are the steps of one state machine; a step is what a thread does between two points at
which it holds no mutex. The writer thread looks at the front list, unlocks, writes, locks again and only then
removes the chunk, so posts interleave with all of that. Beside the proxy's state the machine keeps histories: every
event posted, what became of each (sent, queued or lost), and every event written to the message queue.

**Time** is in nanoseconds for the sensors and in milliseconds for the camera. Free space in the message queue,
the outcome of every write and read, the sub-HALs' answers, the screen's content, sysfs values and clock readings
are inputs of the steps and methods. `HalProxy.h` and the `ScopedWakelock` class are not part of this model:
the queue bound and the wakelock timeout are arbitrary constants, the handle mask is the top byte, and a
scoped wakelock is a token that adds a positive amount when created and gives the same amount back, with its start
time, when released; a locked post names the live token it is made with. Flag values, sensor types and result codes
are those of the Android sensors HAL 1.0 interface.

## Where the code does less than it seems to promise

* *Dropped tails keep their references.* An overflowing post counts all its wake-up events but drops some
  (`Conservation.OverflowLeaks`). A queued batch keeps the count of all its events, so a failed write of its last
  chunk gives back events already written (`Conservation.LastChunkGivesBackWholeBatch`).
  `Conservation.ConservationOverRuns` says exactly which steps keep the count right.
* *A wake-up light sensor would leak.* The light correction drops an event by rewriting its handle to zero after its
  wake-up event was counted (`ProxyCallback.DroppedWakeUpLightLeaks` is such a run). A batch is safe exactly when its
  light events wake like the handle zero: `ProxyCallback.EveryCorrectionIsFair`.
* *Re-initialisation does not zero the count*, and makes older scoped wakelocks ineffective for good
  (`Pipeline.ReinitialisationStrandsTokens`).
* *An increment by zero acquires the lock for nothing.* It takes a locked post without wake-up events that finds the
  count at zero (`Conservation.LockAgreesInRuns` is exact), as after a timeout between the wakelock's creation and
  the post (`Conservation.LockHeldForNothing`). Only an assertion that release builds compile out stands against it.
* *Disabling all sensors can reach handles that are no sensors.* Counting the events of a failed write inserts default
  entries into the sensor table, and so may posting (`ProxyCallback.DroppedLightIsDisabled` is such a run;
  `Registry.DisablingReachesOwners` says exactly what is reached).
* *The light sensor's table is rescaled by every initialisation*, one for each vendor light sensor found
  (`Proxy.HalProxy.InitializeSensorList` counts them, `AlsModel.RescalingTwiceIsNotOnce`).
* *Hysteresis is unstable for a reading below one lux* of which something is left after the correction
  (`AlsModel.IdenticalEventIsQuiet` is an equivalence, `AlsModel.HalfLuxIsNotQuiet` an instance).
* *The motor's 100 ms gap is not kept across sleep.* Whether an event is recent is judged by elapsedRealtime, which goes
  on while the device sleeps; the handler's delay is of uptime, which does not. So a device that sleeps while a
  message waits executes opposite commands as close as it was awake between them
  (`CameraMotor.SleepBunchesCommands`). A callback that takes time between its readings has the same effect without
  sleep (`CameraMotor.LateReadingsBunchCommands`). `CameraMotor.GapOverRuns` is the exact condition for any gap, and
  `CameraMotor.DriftLimitsGap` gives the gap that a given drift of the two clocks leaves.
* *Screen areas above 16843009 pixels* overflow the 32-bit sums (`AreaCapture.AreaLimitIsExact`).

## Model

| member | source | states |
|---|---|---|
| SensorHandles.PackThenUnpack | sensors/HalProxy.cpp:59-72 | packing a clear handle is undone by clearing; extraction returns the index exactly for the indices a signed top byte can represent |
| SensorHandles.PackingIsInjective | sensors/HalProxy.cpp:59-61 | for fewer than 129 sub-HALs two packed handles are equal only for equal handle and index |
| SensorHandles.SettingIsUnion | sensors/HalProxy.cpp:59-61 | for any handle, clear or not, setting indices is a union of bits: order does not matter, once is enough, zero changes nothing, the low bits stay |
| SensorHandles.ValidHandlesArePackings | sensors/HalProxy.cpp:752-777 | an accepted handle is exactly a packing with an index in bounds, so no negative handle is accepted, and it can be re-encoded from its parts |
| SensorTypes.WakeUpsConcat | sensors/HalProxy.cpp:760-769 | counting wake-up events distributes over concatenation |
| Wakelock.OpKeepsAgreement | sensors/HalProxy.cpp:705-735 | one operation on the lock keeps count and system lock in agreement if and only if it is not an increment by zero at count zero |
| Wakelock.AgreementOverRuns | sensors/HalProxy.cpp:705-735 | over all runs, stops and restarts included, the lock is held exactly while the count is positive and calls alternate, if and only if no such increment occurs |
| Wakelock.PositiveIncrementsAgree | sensors/HalProxyCallback.cpp:46-56 | under the asserted reading, all increments positive, agreement holds in every state |
| Wakelock.StopKeepsReferences | sensors/HalProxy.cpp:705-735 | from a stop to the next start, whatever operations come between, the count, the system lock and the timeout come out as they went in |
| Wakelock.StaleStartsNeverCount | sensors/HalProxy.cpp:729-730 | a token started before a reset never changes the lock after any run, further resets included |
| Wakelock.TimeoutRunsFromLastIncrement | sensors/HalProxy.cpp:713 | the timeout starts at the last increment a running proxy made |
| Wakelock.TimeoutReleases | sensors/HalProxy.cpp:625-666 | after any run, a pass with a positive count more than the timeout after the last increment ends with count zero and the lock released; otherwise the time left is between zero and the timeout |
| PendingWrites.PostAppends | sensors/HalProxy.cpp:681-702 | a post keeps the queue valid, writes directly only when nothing is outstanding, and otherwise appends exactly the tail that fits |
| PendingWrites.WriteTakesFrontChunk | sensors/HalProxy.cpp:587-596 | what the unlocked write takes is the prefix of what is outstanding |
| PendingWrites.EndWriteRemovesChunk | sensors/HalProxy.cpp:607-616 | removing the chunk leaves what is outstanding unchanged, keeps the queue valid and never underflows the size |
| PendingWrites.DrainProgress | sensors/HalProxy.cpp:583-616 | each iteration shrinks the queue and takes one off the iterations needed, whether the write succeeds or not |
| PendingWrites.ChunkCountIsCeiling | sensors/HalProxy.cpp:590-616 | a list of n events takes n divided by the message queue size, rounded up, iterations |
| Histories.KeptIsSentThenQueued | sensors/HalProxy.cpp:668-703 | in first-in first-out order the events not dropped are those sent followed by those queued |
| Histories.SettleMoves | sensors/HalProxy.cpp:592-616 | deciding the first n queued events moves exactly those, in order |
| Pipeline.StepKeepsInv | sensors/HalProxy.cpp:579-703 | every step of every thread keeps order and accounting |
| Pipeline.OrderIsPreserved | sensors/HalProxy.cpp:579-703 | in every interleaving, written events followed by outstanding ones are the posted ones less the dropped ones, in posting order |
| Pipeline.RunsWithoutDropsLoseNothing | sensors/HalProxy.cpp:579-703 | without overflow, failed write or pending re-initialisation, written then outstanding is exactly what was posted |
| Pipeline.PostWritesWhatFits | sensors/HalProxy.cpp:681-702 | how many events of a post are written at once, how many are queued, and that the rest is dropped exactly when it exceeds the bound |
| Pipeline.FatesAreFinal | sensors/HalProxy.cpp:579-703 | no step takes back a delivery or a loss |
| Pipeline.PendingAccounting | sensors/HalProxy.cpp:587-702 | in every reachable state the size is the sum of list lengths and within the bound, no list is empty, a chunk in flight is covered by the size, and the high-water mark is the largest size so far |
| Pipeline.TimeLeftIsInRange | sensors/HalProxy.cpp:631-660 | in every run the wakelock thread waits between zero and the timeout |
| Pipeline.TimeoutRunsFromLastIncrement | sensors/HalProxy.cpp:707-714 | in every run the timeout starts at the last token or locked post that found threads running |
| Pipeline.PassReleasesOrWaits | sensors/HalProxy.cpp:625-666 | in every run, increments by zero included, a pass of the wakelock thread more than the timeout after that ends with count zero and the lock released; any other leaves the lock alone and waits between zero and the timeout |
| Pipeline.StaleStartsInRuns | sensors/HalProxy.cpp:662-735 | in every run, a start before the reset time of some state gives nothing back in any later state, through timeouts, stops and re-initialisations |
| Pipeline.ReinitialisationStrandsTokens | sensors/HalProxy.cpp:221-222 | re-initialisation keeps the count, and in every later state the release of an older token leaves the lock alone |
| Conservation.StepBalance | sensors/HalProxy.cpp:579-735 | a step keeps the count equal to live tokens plus live unacknowledged wake-up events if and only if it is fair; only a failed write can log the delta error |
| Conservation.ConservationOverRuns | sensors/HalProxy.cpp:579-735 | over runs the count is balanced in all states if and only if all steps are fair |
| Conservation.ConservationWithoutDrops | sensors/HalProxy.cpp:625-735 | without drops, timeout or stop the count is balanced and the delta error branch is never reached |
| Conservation.CountedPostIsFair | sensors/HalProxy.cpp:672-702 | a counted, locked post is fair exactly when its dropped tail holds no wake-up event |
| Conservation.FailedWriteIsFair | sensors/HalProxy.cpp:597-606 | a failed write gives back what it drops for every chunk but the last, and for the last exactly when the batch's count is that of the events left |
| Conservation.OverflowLeaks | sensors/HalProxy.cpp:694-702 | a run, from a token's creation to its release, in which an overflow leaves a reference that no token and no event accounts for |
| Conservation.LastChunkGivesBackWholeBatch | sensors/HalProxy.cpp:602-604 | a failed last chunk releases the count of an event already written |
| Conservation.LeftOfTwoIsReached | sensors/HalProxy.cpp:697-698 | a run reaches the state in which that happens |
| Conservation.FirstInitIsGood | sensors/HalProxy.cpp:215-277 | the first initialisation starts a balanced run |
| Conservation.LockAgreesInRuns | sensors/HalProxy.cpp:668-735 | in every run of the whole proxy the system lock is held exactly while the count is positive, in all states, if and only if no locked post without wake-up events finds the count at zero |
| Conservation.LockHeldForNothing | sensors/HalProxy.cpp:672-674 | a run in which the timeout strikes between a token's creation and its post, and the system lock stays held for a count of zero |
| Proxy.HalProxy.IncrementRefCountAndMaybeAcquireWakelock | sensors/HalProxy.cpp:705-719 | the new lock state, and that nothing is counted while stopped |
| Proxy.HalProxy.DecrementRefCountAndMaybeReleaseWakelock | sensors/HalProxy.cpp:721-735 | the new lock state: stale starts ignored, the count clamped at zero, released when it reaches zero |
| Proxy.HalProxy.ResetSharedWakelock | sensors/HalProxy.cpp:662-666 | all references given back and the reset time taken |
| Proxy.HalProxy.SharedWakelockDidTimeout | sensors/HalProxy.cpp:650-660 | whether the timeout passed, and otherwise the non-negative time left |
| Proxy.HalProxy.HandleWakelocks | sensors/HalProxy.cpp:625-640 | one pass resets on timeout and otherwise waits the time left without touching the lock |
| Proxy.HalProxy.FinishWakelockWait | sensors/HalProxy.cpp:639-643 | an acknowledgement gives back its number of references |
| Proxy.HalProxy.PostEventsToMessageQueue | sensors/HalProxy.cpp:668-703 | the new queue, the events written directly and the new lock state; each event written or queued is the whole answer of the light correction if it is a light event, and the whole posted event otherwise |
| Proxy.HalProxy.GetSensorInfo | sensors/HalProxyCallback.cpp:76-77 | whether the handle is a wake-up handle, and the default entry it inserts if it does |
| Proxy.HalProxy.CountNumWakeupEvents | sensors/HalProxy.cpp:760-769 | the number of wake-up events, and the default entries the reads insert, which make no handle a wake-up handle |
| Proxy.HalProxy.BeginPendingWrite | sensors/HalProxy.cpp:586-591 | the chunk is the front list's prefix and stays in the queue |
| Proxy.HalProxy.FinishPendingWrite | sensors/HalProxy.cpp:592-606 | a failed write gives back the chunk's count, leaving default entries in the sensor table, or, for the last chunk, the batch's |
| Proxy.HalProxy.EndPendingWrite | sensors/HalProxy.cpp:607-616 | the chunk leaves the front list, or the list the queue |
| Proxy.HalProxy.HandlePendingWrites | sensors/HalProxy.cpp:579-619 | with no new posts the thread takes exactly the rounded-up number of chunks, none empty and none above the queue size, and they concatenate to all that was queued |
| Proxy.HalProxy.InitializeCommon | sensors/HalProxy.cpp:215-277 | queue, dynamic sensors and mode are reset, the high-water mark and the count are not; the disabling calls for the table as it has become; the result is the last refusal |
| Proxy.HalProxy.InitializeSensorList | sensors/HalProxy.cpp:491-515 | the nested loops build the table that merging all lists in order gives, and initialise the light correction once for each vendor light sensor accepted |
| Proxy.HalProxy.SetDirectChannelFlags | sensors/HalProxy.cpp:737-750 | the branch taken for the sensor, and the owner elected |
| Proxy.HalProxy.DisableAllSensors | sensors/HalProxy.cpp:563-573 | one routed call for each valid key of both tables |
| Proxy.HalProxy.Activate | sensors/HalProxy.cpp:163-169 | a handle is refused or routed to its sub-HAL with the top byte cleared |
| Proxy.HalProxy.OnDynamicSensorsConnected | sensors/HalProxy.cpp:398-416 | the new map, and that exactly the accepted sensors are reported, known before or not |
| Proxy.HalProxy.OnDynamicSensorsDisconnected | sensors/HalProxy.cpp:418-438 | the new map, and that exactly the removed handles are reported |
| Proxy.HalProxy.SetOperationMode | sensors/HalProxy.cpp:140-161 | every sub-HAL's mode, the current mode and the result, whichever sub-HAL refuses |
| Registry.DirectOwnerIsFirst | sensors/HalProxy.cpp:491-515 | the elected sub-HAL is the first in order that offers a direct channel with an accepted handle |
| Registry.RegisteredSensors | sensors/HalProxy.cpp:494-506 | every registered sensor decodes to its own sub-HAL and handle, keeps direct flags only under the owner, and keeps all other flag bits |
| Registry.LastEntriesAreRegistered | sensors/HalProxy.cpp:506 | the last sensor offered under a key is the one registered |
| Registry.LightInitsCountLights | sensors/HalProxy.cpp:501-505 | each accepted sensor of the vendor's light type is one initialisation of the light correction |
| Registry.AcceptedSensorsAreRegistered | sensors/HalProxy.cpp:495-506 | every sensor with a clear handle is registered |
| Registry.ConnectIsIsolated | sensors/HalProxy.cpp:398-416 | connecting adds exactly the accepted handles and touches no other sub-HAL's entries |
| Registry.ConnectKeepsLast | sensors/HalProxy.cpp:408-409 | the sensor kept under a key is the last one connected, with only its handle changed |
| Registry.AcceptedInOrder | sensors/HalProxy.cpp:403-412 | the accepted sensors are the offered ones with a clear handle, one for each and in order, with nothing but the handle changed |
| Registry.ConnectReports | sensors/HalProxy.cpp:407-414 | a connecting call reports each accepted sensor and nothing else |
| Registry.DisconnectIsIsolated | sensors/HalProxy.cpp:418-438 | disconnecting removes exactly the accepted handles present and touches no other sub-HAL's entries |
| Registry.DisconnectReports | sensors/HalProxy.cpp:424-436 | a disconnecting call reports each handle it removes once, in the order of the call, and nothing else |
| Registry.DynamicSensorsOverRuns | sensors/HalProxy.cpp:398-438 | from an initialisation on, over every sequence of callbacks, the keys are the handles reported added and not removed since, no other removal is reported, and a silent sub-HAL's entries do not change |
| Registry.RoutedKeysLeadToOwners | sensors/HalProxy.cpp:563-573 | the calls made for a set of keys are exactly those of the keys' sub-HALs and handles |
| Registry.DisablingReachesOwners | sensors/HalProxy.cpp:563-573 | disabling all reaches exactly the accepted sensors, the dynamic ones, and what the handles looked up in the table since lead to, each at its own sub-HAL |
| Registry.DisablingReachesOnlySensors | sensors/HalProxy.cpp:563-573 | it reaches nothing but sensors if and only if no event looked up has a handle that leads to none |
| OperationModes.AgreementAfterCall | sensors/HalProxy.cpp:140-161 | a call keeps all sub-HALs in the current mode if and only if all accept, nothing changes, or the rollback succeeds |
| OperationModes.CallFromAnyModes | sensors/HalProxy.cpp:140-161 | from any modes, agreeing or not: an accepted call brings all into the mode asked for, a refused one brings those before the refusal into the current mode unless they do not take it back, and leaves the others alone |
| OperationModes.AgreementThroughoutCalls | sensors/HalProxy.cpp:140-161 | over every sequence of calls all sub-HALs are in the current mode after each call if and only if each call is accepted by all, asks for the current mode, or rolls back |
| OperationModes.AgreementOverCalls | sensors/HalProxy.cpp:140-161 | after any sequence of calls whose rollbacks succeed every sub-HAL is in the current mode |
| OperationModes.LastAcceptedWins | sensors/HalProxy.cpp:157-159 | the current mode is that of the last call all accepted |
| ProxyCallback.TaggedEventsLeadBack | sensors/HalProxyCallback.cpp:69-75 | a tagged event leads back to its sub-HAL and handle, also for announced dynamic sensors, with its payload untouched |
| ProxyCallback.TaggingSetsIndex | sensors/HalProxyCallback.cpp:69-75 | whatever the handle, clear or not, tagging keeps its low bits and sets the index, so tagging again changes nothing |
| ProxyCallback.HalProxyCallback.ProcessEvents | sensors/HalProxyCallback.cpp:65-82 | all events tagged in order, and the number of wake-up events among them |
| ProxyCallback.HalProxyCallback.PostEvents | sensors/HalProxyCallback.cpp:41-58 | an empty batch or a stopped proxy changes nothing; otherwise the tagged batch is posted with its count |
| ProxyCallback.CorrectionKeepsWakeUps | sensors/HalProxy.cpp:675-680 | a light correction that leaves wake-up status alone leaves the count right |
| ProxyCallback.DroppingLightIsNeutral | sensors/AlsCorrection.cpp:195-209 | dropping by rewriting the handle to zero is neutral when neither zero nor the light sensor wakes |
| ProxyCallback.DropsChangeCount | sensors/HalProxy.cpp:675-680 | a light correction leaves the number of wake-up events as it is if and only if it drops no event that wakes unlike the handle zero |
| ProxyCallback.CallbackPostIsFair | sensors/HalProxyCallback.cpp:41-58 | a callback's post that finds room keeps the balance if and only if the light correction drops no event that wakes unlike the handle zero |
| ProxyCallback.EveryCorrectionIsFair | sensors/HalProxyCallback.cpp:41-58 | it keeps the balance whatever the correction will answer if and only if every light event of the batch wakes like the handle zero |
| ProxyCallback.NeutralCorrectionIsFair | sensors/HalProxyCallback.cpp:41-58 | so a correction that leaves wake-up status alone keeps the balance |
| ProxyCallback.DroppedWakeUpLightLeaks | sensors/AlsCorrection.cpp:195-209 | a run in which the dropped event of a wake-up light sensor leaves a reference that no token and no event accounts for |
| ProxyCallback.DroppedLightIsDisabled | sensors/HalProxy.cpp:764 | a run of the proxy in which disabling all sensors reaches a handle that no sub-HAL ever offered |
| AreaCapture.GetAreaBrightness | als/default/AreaCapture.cpp:77-94 | every access is in bounds, and the nested loops return each channel's 32-bit sum over the visible pixels by their number, or no numbers for an empty area |
| AreaCapture.PixelAdds | als/default/AreaCapture.cpp:83-88 | the 32-bit address of a pixel is its own and the 32-bit sum follows the mathematical one |
| AreaCapture.SumIsPixelTotal | als/default/AreaCapture.cpp:82-88 | summing row by row visits every visible pixel once: it is the sum over the columns of the sums over the rows |
| AreaCapture.AverageIsMean | als/default/AreaCapture.cpp:82-94 | up to 16843009 pixels no sum wraps and the average is the mean of all visible pixels, for every screen content |
| AreaCapture.AverageInByteRange | als/default/AreaCapture.cpp:91-94 | channel averages lie between 0 and 255 |
| AreaCapture.PaddingAndAlphaDoNotMatter | als/default/AreaCapture.cpp:83-88 | the average does not depend on stride, row padding or alpha bytes |
| AreaCapture.AreaLimitIsExact | als/default/AreaCapture.cpp:82-94 | on a white screen the average is the mean if and only if the area has at most 16843009 pixels |
| AlsModel.HornerIsCubic | sensors/AlsCorrection.cpp:222-226 | the coefficient loop evaluates the cubic with the highest coefficient first |
| AlsModel.GainIsLastExceeded | sensors/AlsCorrection.cpp:251-255 | the gain is that of the last calibration point exceeded, and of the first one if none is |
| AlsModel.CorrectionIsBounded | sensors/AlsCorrection.cpp:214-238 | the correction lies between the gamma estimate and the full-white brightness |
| AlsModel.CorrectionOfScreenIsBounded | sensors/AlsCorrection.cpp:206-238 | the same for every screen content, from pixels to correction |
| AlsModel.ReadingLiesInOwnBand | sensors/AlsCorrection.cpp:262-270 | a reading lies in the band of its own corrected value if and only if that value is zero or the reading is at least one lux |
| AlsModel.HysteresisHoldsReading | sensors/AlsCorrection.cpp:234-270 | after a recomputation with the first gain the reading lies in the stored hysteresis band under exactly that condition |
| AlsModel.CorrectedLuxSuffices | sensors/AlsCorrection.cpp:262-265 | a corrected value of zero or at least one meets the condition |
| AlsModel.IdenticalEventIsQuiet | sensors/AlsCorrection.cpp:201-284 | the same reading again, later and unforced, takes no screenshot, and then returns the same value, if and only if its corrected value was zero or it is at least one lux |
| AlsModel.HalfLuxIsNotQuiet | sensors/AlsCorrection.cpp:201-284 | half a lux under a dark screen asks for a screenshot every time |
| AlsModel.RescalingTwiceIsNotOnce | sensors/AlsCorrection.cpp:155-159 | initialising twice rescales twice, which is once only for a gain of one |
| AlsMeaning.HornerIsPolynomial | sensors/AlsCorrection.cpp:222-226 | the coefficient loop evaluates the sum of coefficients times powers |
| AlsMeaning.CorrectionIsClampedEstimate | sensors/AlsCorrection.cpp:214-238 | with the terms of the four channels given, the correction is what the colours exceed white by at the display's brightness when that lies between gamma estimate and full white, and otherwise the bound it crosses |
| AlsMeaning.CorrectionFollowsTerms | sensors/AlsCorrection.cpp:228-238 | the correction never falls with a colour term and never rises with the white term |
| AlsMeaning.RecomputedValue | sensors/AlsCorrection.cpp:241-273 | a recomputation returns and caches what remains of the reading in lux less fourteen, and zero up to fourteen lux |
| AlsMeaning.LargerReadingYieldsNoLess | sensors/AlsCorrection.cpp:241-273 | at the same correction and gain a larger reading never yields a smaller value |
| AlsMeaning.SelectedGain | sensors/AlsCorrection.cpp:243-256 | up to the threshold the gain is the first, above it that of the last calibration point that the ratio exceeds, whichever way round the ratio is and whatever the sign of its divisor |
| AlsMeaning.StoredBandLimits | sensors/AlsCorrection.cpp:155-159 | the stored band is the first whose middle is not below the remaining lux, with its limits in raw units and the upper one widened by the full-white brightness |
| AlsMeaning.FilterDecides | sensors/AlsCorrection.cpp:183-261 | from the event and the earlier state alone: which events are dropped, answered from the cache, or recomputed |
| AlsMeaning.FilterTimers | sensors/AlsCorrection.cpp:183-199 | the two times the filter keeps after any event |
| AlsMeaning.FilterKeepsOtherwise | sensors/AlsCorrection.cpp:192-283 | without a recomputation value, band and gain stay, and the event leaves dropped or with the cached value |
| AlsRuns.RateIsLimited | sensors/AlsCorrection.cpp:183-198 | any window holds at most one more passing event than its whole tenths of a second |
| AlsRuns.SlowEventsAllPass | sensors/AlsCorrection.cpp:192-198 | events no faster than ten a second all pass |
| AlsRuns.RefreshIsLimited | sensors/AlsCorrection.cpp:187-191 | refreshes raised by the timer are more than three seconds apart |
| AlsRuns.ForceAfter | sensors/AlsCorrection.cpp:187-210 | the force flag after an event: up or raised before, and no capture succeeded |
| AlsRuns.ForceSurvives | sensors/AlsCorrection.cpp:192-210 | a raised flag survives rate drops and failed captures until a capture succeeds |
| AlsRuns.OutputsOverRuns | sensors/AlsCorrection.cpp:195-283 | every event leaves dropped with handle zero, or with its own handle and the cached non-negative value |
| AlsRuns.FirstEventsCapture | sensors/AlsCorrection.cpp:77-82 | until a first capture succeeds every passing event asks for one |
| AlsCorrection.AlsCorrection.constructor | sensors/AlsCorrection.cpp:55-82 | the initial state and band table |
| AlsCorrection.AlsCorrection.Init | sensors/AlsCorrection.cpp:125-159 | display maxima, channel factors, gains and threshold, each as the calibration read defines it, and the table rescaled in place |
| AlsCorrection.AlsCorrection.ReadMaxLux | sensors/AlsCorrection.cpp:125-138 | absent maxima keep their value; the white factor is what red, green and blue exceed white by |
| AlsCorrection.AlsCorrection.ScreenCorrection | sensors/AlsCorrection.cpp:214-238 | the loops compute the clamped correction |
| AlsCorrection.AlsCorrection.SelectGain | sensors/AlsCorrection.cpp:243-256 | the gain loop computes the last exceeded point's gain |
| AlsCorrection.AlsCorrection.SelectBand | sensors/AlsCorrection.cpp:264-270 | the band loop stores the first band that fits |
| AlsCorrection.AlsCorrection.ApplyCapture | sensors/AlsCorrection.cpp:241-280 | the state after a successful capture, recomputed or kept |
| AlsCorrection.AlsCorrection.Process | sensors/AlsCorrection.cpp:171-285 | the whole new state and the event as it leaves, in every branch |
| LightPost.CorrectedArrives | sensors/HalProxy.cpp:675-680 | with the filter run over the light events of a batch in order, each leaves with handle zero or under its own handle with the value cached by then, and all other events leave untouched |
| LightPost.PostedEventsArrive | sensors/HalProxy.cpp:668-703 | in the step system: exactly such events, the first part of the batch and the rest, are added to the message queue and to what is outstanding |
| LightPost.CorrectBatch | sensors/HalProxy.cpp:675-680 | the loop leaves the filter's answers and its state after all light events of the batch |
| LightPost.PostThroughFilter | sensors/HalProxy.cpp:668-703 | the post with the filter it uses: every event written, and every event queued, arrives so |
| CameraMotor.StepKeepsInv | camera_helper/src/org/lineageos/camerahelper/CameraMotorService.java:35-106 | every callback and dispatch keeps handled messages due, queued ones dated by the latest callback of their kind, and the latest event last |
| CameraMotor.EventChangesQueue | camera_helper/src/org/lineageos/camerahelper/CameraMotorService.java:35-66 | a callback puts its own message last, 100 ms from now, keeps all earlier ones of its kind, and cancels all of the other kind or none, by the time of the last opposite event |
| CameraMotor.RemoveIsFilter | camera_helper/src/org/lineageos/camerahelper/CameraMotorService.java:42-47 | removing messages keeps the order of what remains |
| CameraMotor.EventKeepsGapIff | camera_helper/src/org/lineageos/camerahelper/CameraMotorService.java:35-66 | a callback keeps opposite commands a gap apart if and only if it cancels the opposite message or finds none due within the gap of its own |
| CameraMotor.GapOverRuns | camera_helper/src/org/lineageos/camerahelper/CameraMotorService.java:35-106 | over every run, for every gap up to 100 ms, opposite commands are that far apart in all states if and only if every callback keeps the gap |
| CameraMotor.OppositeCommandsAreSpaced | camera_helper/src/org/lineageos/camerahelper/CameraMotorService.java:35-106 | then executed commands of opposite direction are due that far apart |
| CameraMotor.BrokenGapIsExecuted | camera_helper/src/org/lineageos/camerahelper/CameraMotorService.java:35-106 | after a callback that does not keep the gap, letting the handler run on executes two opposite commands closer than the gap |
| CameraMotor.HandlerDrains | camera_helper/src/org/lineageos/camerahelper/CameraMotorService.java:94-106 | with no further callback all that is queued is executed, in that order |
| CameraMotor.DriftLimitsGap | camera_helper/src/org/lineageos/camerahelper/CameraMotorService.java:42-48 | executed opposite commands are 100 ms apart less the most that elapsedRealtime runs ahead of uptime from one callback to the next opposite one while its message waits |
| CameraMotor.OneClockGivesWholeDelay | camera_helper/src/org/lineageos/camerahelper/CameraMotorService.java:35-66 | the gap is the whole 100 ms when callbacks read their clocks in one instant and the device does not sleep while an opposite message waits |
| CameraMotor.SleepBunchesCommands | camera_helper/src/org/lineageos/camerahelper/CameraMotorService.java:42-48 | for every shorter time awake, a run of instantaneous callbacks with sleep between them whose opposite commands are due only that time apart |
| CameraMotor.LateReadingsBunchCommands | camera_helper/src/org/lineageos/camerahelper/CameraMotorService.java:40-48 | for every lateness up to 100 ms, a run without sleep in which a callback reads uptime that late and the gap is short by just that |
| CameraMotor.LatestEventWins | camera_helper/src/org/lineageos/camerahelper/CameraMotorService.java:38-64 | once the queue is drained the motor was last driven down if the front camera became available last, and up if it became unavailable, for every history |
| CameraMotor.CameraMotorService.OnCameraAvailable | camera_helper/src/org/lineageos/camerahelper/CameraMotorService.java:38-50 | the stored event time and the new queue; other cameras change nothing |
| CameraMotor.CameraMotorService.OnCameraUnavailable | camera_helper/src/org/lineageos/camerahelper/CameraMotorService.java:53-65 | the stored event time and the new queue; other cameras change nothing |
| CameraMotor.CameraMotorService.HandleMessage | camera_helper/src/org/lineageos/camerahelper/CameraMotorService.java:94-106 | a message of a closed camera drives the motor down, one of an opened camera up, and it is started once |
| CameraMotor.CameraMotorService.DispatchNext | camera_helper/src/org/lineageos/camerahelper/CameraMotorService.java:94-106 | the first message of the queue is taken out and handled |

## Left out

- Message-queue internals, event flags, condition variables and mutexes: a step is atomic, free space and outcomes are inputs. An increment and the write that follows it in a post are one step, and so are a failed write and its decrement.
- 64-bit overflow of sizes, counts and times: the values are unbounded integers; only the 32-bit sums of the screen average and the handle arithmetic wrap.
- The vector of the front list is referred to, not copied, while it is written: the model has the list stay in the queue, not the C++ reference.
- The body of `getSensorInfo`, which `HalProxy.h` holds: whether it inserts an entry for a missing handle, as counting does, is a parameter of the proxy; the information it returns then carries no WAKE_UP flag.
- The reset that the wakelock thread performs when it exits: threads are stopped then, so it only sets the reset time that re-initialisation sets again.
- Proxy.HalProxy.InitializeCommon: does not hold the content of the event message queue, which a stop discards; the steps Stop and Init of `Pipeline` do.
- The sub-HALs' own initialisation resets their modes; agreement is proved from there over calls of setOperationMode.
- IEEE rounding, NaN and infinities other than the table's: reals are used, and `pow` is any function from the unit interval into itself.
- AlsCorrection.AlsCorrection.Init: requires usable divisors (channel divisors not zero, first inverse gain and maximum brightness positive), because a float division by zero yields infinities that reals do not have.
- AreaCapture.GetAreaBrightness: requires a buffer of at most two to the power 32 bytes, because a larger one cannot be addressed in 32 bits.
- AlsModel.HysteresisHoldsReading: covers recomputations with the first gain only, because calibration points and the other gains come from properties that nothing in the code constrains.
- What a failed capture leaves in the static screenshot: it is not used before the next successful one.
- Library loading, configuration files, debug dumps, direct-channel and injection calls, binder registration: input and output, or single forwarded calls.
- Fall sensor, key handler, boot receiver and motor calibration: single-call wrappers and user interface.
- The handler's message queue is ordered by due time and first come first served among equals, as Android's is.
