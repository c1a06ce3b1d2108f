# LockWise verification

A Dafny model of the LockWise smart lock and proofs of what it keeps: the C firmware on
FreeRTOS (lock, audio, configuration, pairing, console, broker commands), the Rust back
end (users, devices, invites, lock events) and the Python voice matcher.

`dafny verify dfyconfig.toml` checks the whole project.

## How it is modelled

* **Lock.** `LockSteps` makes every statement of `unlock_door`, `lock_door` and
  `toggle_door` that touches shared state one step of a task with a program counter; any
  number of tasks, the timer service and a discrete clock interleave freely.
  `LockController` is the same context as a class with uninterrupted calls, and
  `LockSteps.CallAlone` ties the two together.
* **Audio.** `AudioGate` is the flag and the binary semaphore between two starters and one
  worker; `VoiceDetector` the detector loop and the buffer loops.
* **Configuration.** `ConfigStore` is the RAM cache over NVS: the open store, what is
  committed, and which NVS calls succeed. `PairingBoots` puts boots in sequence; a power
  cycle may keep or drop each uncommitted slot. `Credentials` follows one setting through a
  boot. `ConfigNames` says by name which key stands for which field and slot.
  `PairingParser`, `SerialLine` with `ConsoleCommands`, and `MqttCommands` are the three
  ways text reaches it, on the C string functions of `CStrings`.
* **Back end.** `Backend` gives every HTTP request, and every MQTT message, as one atomic
  step over the tables; `BackendService` has the handlers as methods of a class, proved
  against those steps and against what each answer means on the tables; `BackendVoice` does
  that for voice verification. `BackendRuns`, `BackendAttribution` and `BackendHistories`
  reason over whole runs, the last by the rule of `Histories` that a reader sees the last
  write.
  `ConfigUpdate` is the acknowledged update protocol with one step per message; `Ledgers`
  keeps the account of one setting in it, and `Leftovers` says by that account exactly when
  a success can be believed. `ConfigRules` says what a success leaves on the device, key by
  key.

Assumptions at the boundary: NVS open, write and commit may fail at any time; timer
commands succeed at once; reads return at most what was asked for; clocks do not go
backwards and, where auto-lock is concerned, the timer service gets to a due expiry before
they move on; a lock timeout converts to at least one tick; issued tokens are fresh; broker
channels keep order and may lose messages; commands are published at most once and statuses
at least once, so an acknowledgement can come again, one of an earlier request counting as
left over; one configuration request is in flight per device and its path is spelled like
the topic of the device; for `ConfigUpdate.EndToEnd` also, no command and no
acknowledgement of an earlier request is left in the channels, none is delivered twice
and no other update of the device is acknowledged during the request; scores are arbitrary
reals.

## Where the code differs from what is hoped of it

The code is modelled as it is; where a hoped-for property is false, the exact condition
is proved beside a run that breaks it.

* `docs/Embedded.md:339-342` promises auto-lock without races. `lock_door` lowers the pin
  and stops the timer after releasing the mutex, so an unlock in between leaves the door
  open for good (`LockSteps.StrandingIsReachable`); the strong invariant holds exactly on
  runs without such an overtaken write (`LockSteps.StrongUntilLateUndo`).
* A failed chunk-buffer allocation leaves the streaming flag up, and no session follows
  (`AudioGate.LostWakeupIsFinal`).
* A string key in another spelling is stored where no load looks
  (`ConfigStore.UpdateKeepsAgreement`), and a retry after a failed commit is acknowledged
  without a write (`ConfigStore.RetryIsNotCommitted`).
* In a normal boot, leaving pairing mode is acknowledged and ignored
  (`PairingBoots.CancelIsIgnored`).
* A leftover acknowledgement makes a configuration update report success for an item the
  device has not seen; so do a late command of a request that timed out, an update at
  the device meanwhile, and an acknowledgement of the same batch that is delivered twice,
  which publishing at least once (`embedded/main/src/mqtt.c:335`) allows
  (`Leftovers.SuccessBelievable`, `Leftovers.RepetitionLies`).
* A session that ends takes down the flag of the next one, during which the detector then
  listens (`AudioGate.BareSessionIff`, `AudioGate.BareSessionIsReachable`).
* A heartbeat can change the owner of a device that has invites
  (`BackendRuns.StepSentByOwner`, `BackendRuns.SplitIsReachable`).

## Model

| member | source | states |
|---|---|---|
| `LockSteps.AlwaysSafe` | embedded/main/src/lock.c:70-133 | for any number of tasks and every interleaving: the mutex has at most one holder, a high actuator means UNLOCKED or a lock that has written LOCKED and still owes the pin write, a running timer means UNLOCKED or a lock that still owes the stop, and publish calls plus those still owed balance against the state |
| `LockSteps.QuiescentPublications` | embedded/main/src/lock.c:74-124 | with no call in progress, the numbers of UNLOCKED and LOCKED publish calls differ by exactly the state |
| `LockSteps.StepExclusion` | embedded/main/src/lock.c:72-114 | every statement of every task keeps mutual exclusion and what each critical statement relies on (the state it read is still the state) |
| `LockSteps.StepNeverOpenByMistake` | embedded/main/src/lock.c:79-121 | one step cannot leave the pin high or the timer running on a closed door without a lock on its way to undo it |
| `LockSteps.StepBalanced` | embedded/main/src/lock.c:74-124 | one step keeps the conservation of lock events, counting unlocks and locks that have written the state and not yet published |
| `LockSteps.DeadlockFree` | embedded/main/src/lock.c:72-114 | while any call is in progress some task can move, and moving shortens its call, of at most nine statements |
| `LockSteps.StrongUntilLateUndo` | embedded/main/src/lock.c:87-125 | the strong invariant (an open door has its pin high and its timer running, save for the unlock or expiry at work on it) survives a step if and only if the step is not a pin write or timer stop of a lock that a later unlock has overtaken |
| `LockSteps.StrongRuns` | embedded/main/src/lock.c:70-133 | on every run free of such a step, no call in progress implies actuator high iff UNLOCKED iff timer running |
| `LockSteps.SerialRuns` | embedded/main/src/lock.c:70-133 | when calls and expiries start only while no other is in progress, the strong invariant holds throughout, and the equivalence at every quiet moment |
| `LockSteps.StepOnTime` | embedded/main/src/lock.c:87-93 | a running timer stays due one period after the last start, and not overdue, exactly until the clock passes a due expiry |
| `LockSteps.TimelyRuns` | embedded/main/src/lock.c:87-93 | so it is on every interleaving in which the timer service gets to a due expiry before the clock moves on; the clock may move inside any call |
| `LockSteps.AutoLockInterleaved` | embedded/main/src/lock.c:48-52 | assuming that, and no overtaken pin write or timer stop, at every moment of every interleaving: an open door is within one period of the last timer start, unless an unlock has still to start the timer or the expiry callback is about to close the door |
| `LockSteps.AutoLock` | embedded/main/src/lock.c:48-52 | assuming that, and serialised calls and expiries, the same at every moment, and without exception when no call is in progress |
| `LockSteps.PeriodFixed` | embedded/main/src/lock.c:88-93 | the period is the timeout configured when the first unlock created the timer, for the rest of the run, whatever is configured later |
| `LockSteps.CallAlone` | embedded/main/src/lock.c:70-133 | a call nobody interrupts, executed statement by statement, has exactly the effect of the uninterrupted operation |
| `LockSteps.ExpiryAlone` | embedded/main/src/lock.c:48-52 | an uninterrupted expiry has exactly the effect of a lock with reason TIMEOUT |
| `LockSteps.LateUndoStrands` | embedded/main/src/lock.c:114-124 | a lock that finishes after a completed later unlock leaves the door UNLOCKED without a running timer, the actuator low if the pin write was still owed |
| `LockSteps.StrandedForever` | embedded/main/src/lock.c:48-52 | from there no run without a new call ever closes the door |
| `LockSteps.StrandingIsReachable` | embedded/main/src/lock.c:114-121 | both forms are reached from boot by two tasks, for every timeout: serialisation is needed |
| `LockController.LockContext.constructor` | embedded/main/src/lock.c:29-39 | the context starts LOCKED, actuator low, no timer |
| `LockController.LockContext.UnlockDoor` | embedded/main/src/lock.c:70-96 | the door is UNLOCKED, the pin high if the door was not open, the timer due one period from now, its period that of its creation; one publication with the reason, only if the door was not open |
| `LockController.LockContext.LockDoor` | embedded/main/src/lock.c:98-125 | the door is LOCKED, the pin low if the door was not closed, the timer stopped; one publication with the reason, only if the door was not closed |
| `LockController.LockContext.ToggleDoor` | embedded/main/src/lock.c:127-133 | a locked door opens and any other closes, with one publication of the new state |
| `LockController.LockContext.Expire` | embedded/main/src/lock.c:48-52 | an expiry stops the one-shot timer and locks with reason TIMEOUT |
| `LockController.LockContext.CleanupRestart` | embedded/main/src/system_utils.c:41-53 | with a client the farewell, the lock event if the door was open and the disconnect leave the device in that order, and the restart comes last; without one nothing else leaves; state, pin and timer are those after a lock |
| `LockController.LockContext.CleanupHalt` | embedded/main/src/system_utils.c:55-67 | the same with the lockdown farewell and the halt last |
| `LockTypes.OpenAndClose` | embedded/main/src/lock.c:70-125 | opening and then closing leaves any door closed, pin low and timer off; closing and then opening leaves it open, pin high and timer running |
| `AudioGate.StepNoLostWakeup` | embedded/main/src/audio_stream.c:182-191 | a step keeps "flag up, semaphore empty, no give owed implies a session is under way" if and only if it is not the chunk-buffer failure exit in such a state |
| `AudioGate.NeverLost` | embedded/main/src/audio_stream.c:224-361 | over all interleavings of the two starters and the worker that avoid that exit, no wake-up is lost |
| `AudioGate.EveryGiveAccounted` | embedded/main/src/audio_stream.c:225-225 | every semaphore give has started a session, is still waiting, or met a full semaphore |
| `AudioGate.LostWakeupIsFinal` | embedded/main/src/audio_stream.c:282-288 | after a lost wake-up another session can start if and only if a starter had already passed its test of the flag |
| `AudioGate.LossIsReachable` | embedded/main/src/audio_stream.c:282-288 | the failing exit does lose a wake-up on a concrete run |
| `AudioGate.StepFlagCovers` | embedded/main/src/audio_stream.c:224-361 | a step keeps "the flag is up while a session runs, waits or is about to be asked for" if and only if it is not the end of a session that takes down the flag a starter has raised for the next one |
| `AudioGate.SessionsAreCovered` | embedded/main/src/audio_stream.c:133-137 | on every interleaving free of such an end the flag is up throughout every session, and the detector starts no frame during one |
| `AudioGate.BareSessionIff` | embedded/main/src/audio_stream.c:355-361 | after the end of a session one can run with the flag down, nobody having raised it in between, if and only if that session was asked for when the flag went down |
| `AudioGate.BareSessionIsReachable` | embedded/main/src/audio_stream.c:182-191 | a concrete run in which the detector listens while the worker records |
| `AudioGate.RecordingIs` | embedded/main/src/audio_stream.c:272-361 | on every interleaving the recording flag is up if and only if a recording was armed and since then no STOP has come, no chunk buffer was refused and no session has ended with a reply |
| `AudioGate.RepliedBeforeDisarm` | embedded/main/src/audio_stream.c:313-361 | the worker takes the recording flag down only after a reply; a session that finds no connection leaves it up |
| `AudioGate.StopEndsRecording` | embedded/main/src/audio_stream.c:387-389 | while the worker records, the loop can end early if and only if a STOP has come since it armed |
| `AudioGate.OnlyFullIsSent` | embedded/main/src/audio_stream.c:307-320 | a connection is opened only for a recording that filled its buffer and was not cut short |
| `VoiceDetector.LoudIffRms` | embedded/main/src/audio_stream.c:170-180 | comparing the integer sum of squares decides exactly what comparing the real root mean square with the threshold decides |
| `VoiceDetector.SumSquaresExact` | embedded/main/src/audio_stream.c:170-174 | the sum of a frame is at most 1323 * 2^30, below 2^53 |
| `VoiceDetector.MeasureLoud` | embedded/main/src/audio_stream.c:170-180 | the summation loop decides loudness |
| `VoiceDetector.VadTask` | embedded/main/src/audio_stream.c:133-191 | for every sequence of passes, each decoding a frame from whatever was polled: the counter stays below 6 and is the run of loud frames modulo 6, and the passes that trigger are exactly those that complete six loud frames after the cooldown |
| `VoiceDetector.LoudRunIsWindow` | embedded/main/src/audio_stream.c:137-180 | the recursive count is the number of loud frames in the longest unbroken stretch at the end |
| `VoiceDetector.TriggersAreSpaced` | embedded/main/src/audio_stream.c:182-191 | any two triggers are more than 2,000,000 microseconds apart |
| `VoiceDetector.TriggerEndsSixLoudFrames` | embedded/main/src/audio_stream.c:177-191 | a trigger ends an unbroken stretch of loud frames, a positive multiple of six of them |
| `VoiceDetector.FillFrame` | embedded/main/src/audio_stream.c:143-161 | the frame never overflows and holds exactly the bytes read, up to the first timeout or error |
| `VoiceDetector.Measure` | embedded/main/src/audio_stream.c:143-180 | a pass measures a frame if and only if all its bytes came before the first timeout or error, and it is loud if and only if the root mean square of the samples those bytes encode, low byte first, is above the threshold |
| `VoiceDetector.SamplesRoundTrip` | embedded/main/src/audio_stream.c:151-172 | samples written as two's-complement bytes, low byte first, are read back |
| `VoiceDetector.RoundIs` | embedded/main/src/audio_stream.c:143-170 | a pass is a frame of exactly the samples its first 2646 bytes encode, or too short |
| `VoiceDetector.HeardIs` | embedded/main/src/audio_stream.c:143-161 | the reads that count are those within 200 ms and before the first error |
| `VoiceDetector.RecordedIs` | embedded/main/src/audio_stream.c:282-299 | a recording keeps the reads that came before the first STOP |
| `VoiceDetector.TriggersIff` | embedded/main/src/audio_stream.c:177-191 | exactly when a pass triggers: it is a loud frame, the loud frames since the last quiet frame or streaming pass are a multiple of six, and every earlier trigger is more than 2,000,000 microseconds ago |
| `VoiceDetector.SumSquaresJoin` | embedded/main/src/audio_stream.c:170-174 | the sum is the same in whatever parts the samples come |
| `VoiceDetector.Recorder.Append` | embedded/main/src/audio_stream.c:292-298 | one read is appended whole or cut to the room left, the rest of the buffer untouched |
| `VoiceDetector.Recorder.BufferAudio` | embedded/main/src/audio_stream.c:274-299 | for any chunking, the count never exceeds the size and the buffer holds the concatenation of the reads cut to it; a STOP leaves a correct prefix |
| `VoiceDetector.MinBytesBound` | embedded/main/src/audio_stream.c:227-231 | the recording size is 88200 bytes a second for at most ten seconds, and at most 882000 bytes if and only if the configured seconds are not negative (down to -24347, where the product leaves int) |
| `ConfigStore.Device.LoadConfigFromNvs` | embedded/main/src/config.c:17-239 | whatever can be opened, written or committed, every setting takes its stored value or its default; exactly the slots in which nothing was found and that could be written hold the default afterwards, and that changes no later load |
| `ConfigStore.Device.LoadSetting` | embedded/main/src/config.c:28-38 | one block of the load: read the slot by type, or take the default and try to store it |
| `ConfigStore.LoadAgrees` | embedded/main/src/config.c:17-239 | after a load that could open the store, RAM equals what a fresh load would read, for every setting but the pairing mode |
| `ConfigStore.Device.UpdateConfig` | embedded/main/src/config.c:241-413 | the two comparison chains, the renamed slots, the skip-if-equal path and every failure exit compute exactly the specified new cache, store, committed store and status |
| `ConfigStore.Device.NeedsUpdate` | embedded/main/src/config.c:254-308 | the first chain holds exactly when the parsed value differs from the cached one |
| `ConfigStore.Device.WriteSetting` | embedded/main/src/config.c:310-372 | the second chain writes one slot and one field, and for the pairing mode no field |
| `ConfigStore.UpdateKeepsAgreement` | embedded/main/src/config.c:254-372 | an update with a fitting value keeps RAM equal to what a fresh load would read if and only if it is not a string key stored under another spelling of its slot |
| `ConfigStore.CacheAgreement` | embedded/main/src/config.c:241-413 | after any sequence of updates with slot spellings and fitting values, whatever NVS calls fail, RAM equals a fresh load for every key but pairing_mode; nothing is left uncommitted if no commit failed after its write |
| `ConfigStore.AssignFrame` | embedded/main/src/config.c:310-372 | an update changes its own setting and no other, in RAM and in what is read back |
| `ConfigStore.NextBootAgrees` | embedded/main/src/config.c:17-239 | with nothing uncommitted, the next boot reads the settings in force |
| `ConfigStore.AcknowledgedHolds` | embedded/main/src/config.c:373-400 | an acknowledged update is in RAM and in the store, and committed if nothing was uncommitted before |
| `ConfigStore.RetryIsNotCommitted` | embedded/main/src/config.c:373-400 | without that condition it is not: after a failed commit the same request is acknowledged without a write |
| `ConfigNames.LoadedTexts` | embedded/main/src/config.c:17-239 | each text field after a load, by the name and size of its slot and its default |
| `ConfigNames.LoadedFlags` | embedded/main/src/config.c:17-239 | each flag after a load, by the name of its slot and its default |
| `ConfigNames.LoadedNumbers` | embedded/main/src/config.c:17-239 | each number after a load, by the name of its slot and its default |
| `ConfigNames.KeyWifiSsid` | embedded/main/src/config.c:254-400 | an update under wifi_ssid, in any case, sets that field and the slot spelled as the key; the answer tells which NVS call failed |
| `ConfigNames.KeyWifiPass` | embedded/main/src/config.c:254-400 | an update under wifi_pass, in any case, sets that field and the slot spelled as the key; the answer tells which NVS call failed |
| `ConfigNames.KeyBackendUrl` | embedded/main/src/config.c:254-400 | an update under backend_url, in any case, sets that field and the slot spelled as the key; the answer tells which NVS call failed |
| `ConfigNames.KeyBackendBearer` | embedded/main/src/config.c:254-400 | an update under backend_bearer, in any case, sets that field and the slot spelled as the key; the answer tells which NVS call failed |
| `ConfigNames.KeyMqttBroker` | embedded/main/src/config.c:254-400 | an update under mqtt_broker, in any case, sets that field and the slot spelled as the key; the answer tells which NVS call failed |
| `ConfigNames.KeyMqttPass` | embedded/main/src/config.c:254-400 | an update under mqtt_pass, in any case, sets that field and the slot spelled as the key; the answer tells which NVS call failed |
| `ConfigNames.KeyMqttHbEnable` | embedded/main/src/config.c:254-400 | an update under mqtt_hb_enable, in any case, sets its field and the slot mqtt_hb_enable, and nothing else |
| `ConfigNames.KeyMqttHbInterval` | embedded/main/src/config.c:254-400 | an update under mqtt_hb_interval, in any case, sets its field and the slot hb_interval, and nothing else |
| `ConfigNames.KeyAudioTimeout` | embedded/main/src/config.c:254-400 | an update under audio_timeout, in any case, sets its field and the slot audio_timeout, and nothing else |
| `ConfigNames.KeyLockTimeout` | embedded/main/src/config.c:254-400 | an update under lock_timeout, in any case, sets its field and the slot lock_timeout, and nothing else |
| `ConfigNames.KeyPairingTimeout` | embedded/main/src/config.c:254-400 | an update under pairing_timeout, in any case, sets its field and the slot pairing_timeout, and nothing else |
| `ConfigNames.KeyUserId` | embedded/main/src/config.c:254-400 | an update under user_id, in any case, sets its field and the slot user_id, and nothing else |
| `ConfigNames.KeyPairingMode` | embedded/main/src/config.c:254-400 | an update under pairing_mode, in any case, sets the slot pairing_mode and no field |
| `ConfigNames.KeyVoiceDetectionEnable` | embedded/main/src/config.c:254-400 | an update under voice_detection_enable, in any case, sets its field and the slot voice_en, and nothing else |
| `ConfigNames.KeyVadRmsThreshold` | embedded/main/src/config.c:254-400 | an update under vad_rms_threshold, in any case, sets its field and the slot vad_rms, and nothing else |
| `ConfigNames.KeyVadRms` | embedded/main/src/config.c:254-400 | an update under vad_rms, in any case, sets its field and the slot vad_rms, and nothing else |
| `ConfigNames.OtherKeys` | embedded/main/src/config.c:409-412 | any other key is refused and changes nothing |
| `CStrings.SameIffSpells` | embedded/main/src/config.c:244-250 | strcasecmp finds a word equal to exactly its spellings in mixed case |
| `CStrings.PrintedParses` | backend/src/device.rs:180-180 | the 32-bit parser reads a number written in decimal if and only if it has 32 bits |
| `CStrings.OnlyNumbers` | backend/src/device.rs:180-180 | and nothing but digits after an optional sign |
| `CStrings.PrintedAtoi` | embedded/main/src/config.c:268-268 | atoi reads a number written in decimal past white space and up to the first other character, and saturates |
| `PairingBoots.OpOnMode` | embedded/main/src/config.c:296-299 | no operation of a boot changes the RAM mode, the store changes only to the opposite of it, and is committed exactly when the operation wrote and committed |
| `PairingBoots.StoredMode` | embedded/main/src/config.c:341-343 | over any sequence of operations the stored mode is the loaded one unless some operation flipped it, then the opposite; the flash has the opposite if and only if a flip was followed by a commit |
| `PairingBoots.PairingIsOneShot` | embedded/main/src/main.c:161-165 | in every run of boots, whatever its tasks and the flash do, a pairing boot whose reset commits, by itself or with a later write, is not directly followed by a pairing boot |
| `PairingBoots.PairsAgain` | embedded/main/src/main.c:161-165 | and only then: a pairing boot can leave a store that pairs again, for some way the power fails, if and only if no flip of its mode was followed by a commit |
| `PairingBoots.FlashForgets` | embedded/main/src/serial.c:72-84 | after a successful erasure the next boot reads nothing but defaults, however the power fails, while this boot keeps its settings |
| `PairingBoots.NextBootMode` | embedded/main/src/main.c:60-67 | with nothing uncommitted, the mode of the next boot is decided exactly: pairing iff this boot was normal and flipped the store, or was pairing and never did |
| `PairingBoots.CancelIsIgnored` | embedded/main/src/config.c:296-299 | in a normal boot a request to leave pairing mode right after one to enter it is acknowledged and does nothing |
| `Credentials.SettingSurvives` | embedded/main/src/config.c:310-390 | however often a boot updates a setting and whatever fails: the next boot reads a value, however the power fails, if and only if it is the last value put and also the last one put before the last commit of anything |
| `Credentials.UpdateSurvives` | embedded/main/src/config.c:310-390 | for one update in any interleaving with operations on other settings: it is what the next boot reads, however the power fails, if and only if it was in force already, or the store opened and took the write and some operation from then on committed: exactly which failures lose which credential |
| `Credentials.UntouchedSurvives` | embedded/main/src/config.c:310-390 | a setting no operation names reads as before after any boot |
| `Credentials.CredentialsReachNextBoot` | embedded/main/src/wifi.c:314-335 | in any interleaving with operations on other settings, the credentials of an accepted pairing request whose updates meet no failure are what the next boot loads, settings nobody names unchanged, and that boot is not a pairing boot |
| `Credentials.PairedBoot` | embedded/main/src/wifi.c:314-335 | and by name: the keys are wifi_ssid, wifi_pass and user_id, and the next boot that can open its store comes up with them in its configuration |
| `PairingBoots.TouchSet` | embedded/main/src/main.c:60-67 | the Set pad stores the opposite mode and leaves the configuration in RAM alone |
| `PairingBoots.EnterPairing` | embedded/main/src/main.c:161-165 | a pairing boot stores mode 0 first, and is one exactly if RAM says so |
| `PairingParser.ParseConfigureRequest` | embedded/main/src/wifi.c:357-408 | on every terminated request: each field holds its line cut to 255, cut at the first CR and then to its capacity, NUL-terminated and NUL-filled; an unterminated nonempty last line fills all remaining fields, other fields are untouched; all accesses are in bounds and the loop ends |
| `PairingParser.NextLine` | embedded/main/src/wifi.c:372-393 | one pass of the loop cleans one line and moves past it, or stays at an unterminated last line |
| `PairingParser.HandlePairingClient` | embedded/main/src/wifi.c:300-345 | silence, 404, 400 or the three credentials, for every received text |
| `PairingParser.ServerAnswers` | embedded/main/src/wifi.c:300-345 | a request of any number of lines is answered 404 if and only if the route occurs nowhere in it, and otherwise with the three fields, each cut from its line or, when its line is the last or missing, from the last line, or 400 if one of them is empty |
| `PairingParser.NoBody` | embedded/main/src/wifi.c:357-363 | only what precedes the first NUL counts, and a request without a blank line configures nothing |
| `PairingParser.LinesOfJoin` | embedded/main/src/wifi.c:372-393 | lines joined by NL are the lines found |
| `PairingParser.BodyOf` | embedded/main/src/wifi.c:359-363 | the body found is the one sent if and only if the header block holds no blank line and does not end in CRLF (section 2.1 of RFC 9112) |
| `PairingParser.CleanKeeps` | embedded/main/src/wifi.c:387-405 | cleaning and cutting keep a field if and only if it fits and has no CR |
| `PairingParser.RoundTrip` | app/lib/PaginaInicial.dart:898-899 | fields without NL printed as the app prints them are parsed back if and only if each fits (255, 31, 63) and has no CR |
| `PairingParser.PairingRoundTrip` | app/lib/PaginaInicial.dart:898-899 | the same through the whole handler, for a request of at most 1023 characters received whole |
| `PairingParser.AnswerFits` | embedded/main/src/wifi.c:310-316 | accepted credentials always fit their configuration fields |
| `SerialLine.Assemble` | embedded/main/src/serial.c:31-49 | for every byte stream, the commands dispatched are the segments between NL or CR, empty ones included, each cut to 255 characters, with the index in bounds |
| `SerialLine.TypedUpdate` | embedded/main/src/serial.c:54-59 | an update typed at the console reaches update_config as typed if and only if the value is nonempty, does not begin with white space and the line has at most 255 characters |
| `SerialLine.ScanIs` | embedded/main/src/serial.c:54-57 | what the scan takes: a key of at most 31 characters and at most 255 of the rest of the line from the next character that is not white space, a longer word being cut in two |
| `SerialLine.LineArrives` | embedded/main/src/serial.c:31-49 | a line ended by NL or CR arrives as typed, cut to 255 characters, and without an end not at all |
| `SerialLine.ConsoleWords` | embedded/main/src/serial.c:52-91 | every command word, in any case, decodes to its own action, and no other text does |
| `ConsoleCommands.RunCommand` | embedded/main/src/serial.c:52-91 | for any line, by its words: unlock opens and lock closes the door with reason SERIAL, reboot, lockdown and pair end the boot with a closed door, record and stop queue their command, update_config, flash and pair do to configuration, store and statuses what they say, and any other line does nothing |
| `MqttCommands.ProcessCborCommand` | embedded/main/src/mqtt.c:59-107 | for any map, by the words it holds: UNLOCK opens and LOCK closes the door with reason MQTT, REBOOT, LOCKDOWN and PAIR end the boot with a closed door, RECORD and STOP queue their command, PING, FLASH, PAIR and UPDATE_CONFIG do to configuration, store and statuses what they say, and any other map does nothing |
| `MqttCommands.Words` | embedded/main/src/mqtt.c:65-104 | every command word, in any case, decodes to its own action, and no other text does |
| `MqttCommands.UpdateMessageIsHandled` | embedded/main/src/mqtt.c:109-127 | the device does with the message of the back end what the end-to-end protocol assumes |
| `MqttCommands.RelayedCommands` | backend/src/device.rs:673-677 | a relayed command string never changes the cached configuration, and reaches the store only if it is PAIR or FLASH |
| `ConfigUpdate.Prepare` | backend/src/device.rs:141-276 | a batch proceeds if and only if the caller owns the device and every item is one of the nine keys with a value in the interval of its key; the back end then stores its own items and sends the others in order, and otherwise nothing happens at all |
| `ConfigUpdate.ValidIffAcceptable` | backend/src/device.rs:171-241 | validation lets through exactly the items the API documents, key by key and interval by interval |
| `ConfigUpdate.DeviceItemsOfOne` | backend/src/device.rs:244-276 | every item but those of the two voice columns is sent |
| `ConfigUpdate.DeviceItemsMore` | backend/src/device.rs:244-276 | in the order given |
| `ConfigUpdate.ColumnsFollow` | backend/src/device.rs:244-264 | each voice column takes what the last item for it says, or stays |
| `ConfigUpdate.DeviceItemsValid` | backend/src/device.rs:171-241 | what is sent is valid and meant for the device |
| `ConfigUpdate.SameSetting` | embedded/main/src/config.c:244-250 | every key the back end accepts selects the intended setting on the device |
| `ConfigUpdate.SameValue` | backend/src/device.rs:179-222 | the value the device reads with atoi is the one the back end validated |
| `CStrings.AtoiAgrees` | backend/src/device.rs:180-180 | wherever the 32-bit parser of the back end accepts a text, atoi gives the same number |
| `ConfigUpdate.ItemHandled` | embedded/main/src/mqtt.c:109-127 | one delivered item: other settings unchanged, at most one answer, and an acknowledgement only if the setting now has the requested value |
| `ConfigUpdate.StepInv` | backend/src/device.rs:278-310 | every event of the exchange keeps the protocol invariant: losses, other statuses, and local changes of the device that are not acknowledged and leave the batch alone; every event but a second delivery of an acknowledgement, for which Leftovers has the exact condition |
| `ConfigUpdate.EndToEnd` | backend/src/device.rs:278-313 | on every run that starts with no command and no acknowledgement left over, in which no acknowledgement is delivered twice and no acknowledged or interfering local change happens: success means the device holds the last requested value of every key in RAM and in its store; a timeout means exactly a prefix and the timed-out item were sent |
| `ConfigUpdate.SuccessReachesNextBoot` | embedded/main/src/config.c:373-400 | if besides nothing was uncommitted at first and no local change leaves anything so: success means the next boot reads every requested value, however the power fails |
| `ConfigRules.SuccessSetsDevice` | backend/src/device.rs:278-313 | under the conditions of ConfigUpdate.EndToEnd, success of an accepted batch leaves on the device the last value for each key of the batch, inside the interval of the key: lock timeout 5000 to 300000 ms, recording time 3 to 10 s, pairing timeout 60 to 600 s, loudness threshold 500 to 25000, a nonempty network name |
| `ConfigRules.NextBootIsSet` | embedded/main/src/config.c:17-239 | under the conditions of ConfigUpdate.SuccessReachesNextBoot the next boot comes up with them |
| `ConfigUpdate.EntryStays` | backend/src/mqtt.rs:194-200 | the entry of a request stays until an acknowledgement is handled, past its timeout too |
| `ConfigUpdate.LateAcknowledgement` | backend/src/device.rs:298-310 | an acknowledgement that comes after the timeout uses that entry up and does nothing else |
| `ConfigUpdate.HarmlessUpdate` | embedded/main/src/config.c:241-413 | which local updates do not disturb a request: those with a proper key and fitting value that are not acknowledged and keep the settings of the batch |
| `ConfigUpdate.ApplyRowIs` | backend/src/device.rs:244-276 | the row the back end keeps for itself: of each column the last value of the batch, or what it was |
| `Leftovers.SuccessBelievable` | backend/src/device.rs:278-313 | for every batch, every device and whatever the channels hold, with or without other updates of the device, with or without acknowledgements delivered twice: success means applied in every run if and only if a condition on what is there at the start holds (Trustworthy): setting by setting, the device has the value and no command under way takes it away, or the acknowledgements to be had without settling the setting do not reach to the end |
| `Leftovers.CleanStart` | embedded/main/src/mqtt.c:335-335 | with nothing left over that condition reads: no connection; or nobody else updates the device and, if acknowledgements can be delivered twice, every setting is asked one value only and has it already or is that of the first item |
| `Leftovers.LeftoverMatters` | backend/src/mqtt.rs:194-200 | for one item: with other updates, neither connection nor old acknowledgement; without, either the device has the value and no old command asks for another, or there is no old acknowledgement and, connected, every old command asks for the same thing; repeated acknowledgements make no difference |
| `Leftovers.BatchLeftoverMatters` | backend/src/mqtt.rs:194-200 | for any batch with an item whose loss would show (two, of different settings, if commands are left over or acknowledgements can be repeated), to a connected device: success means applied in every run if and only if no acknowledgement and no command is left over, nobody else updates the device and no acknowledgement is repeated |
| `Leftovers.SettingLies` | backend/src/device.rs:295-307 | for every setting that does not meet the condition a run of the firmware, undisturbed, reports success while the device has another value |
| `Leftovers.LieWithLocals` | embedded/main/src/serial.c:54-59 | with other updates, of a connected device or with old acknowledgements enough, a run reports success while the last setting has another value |
| `Leftovers.RepetitionLies` | embedded/main/src/mqtt.c:335-335 | the acknowledgement of the first of two items, delivered twice, gives success while the device lacks the second, with nothing left over, lost or disturbed |
| `Leftovers.LeftoverLies` | backend/src/mqtt.rs:194-200 | with a leftover acknowledgement some run reports success while the device has seen nothing |
| `Leftovers.KeptAlways` | backend/src/device.rs:278-313 | a setting that is safe, or short of acknowledgements, stays so on every run |
| `Leftovers.StepMoves` | backend/src/mqtt.rs:194-200 | every event of the exchange is one move of the account of a setting |
| `Ledgers.KeptByMove` | backend/src/mqtt.rs:194-200 | every move keeps "the setting is safe, or there are not acknowledgements enough without settling it" |
| `Ledgers.FateLies` | backend/src/mqtt.rs:194-200 | a lie in the making survives the next command, lost if it would settle the setting and handled otherwise |
| `VoiceMatch.Verify` | backend/speechbrain_service.py:176-190 | the loop returns the first index of the highest score above -1.0, or -1 |
| `VoiceMatch.BestIsUnique` | backend/speechbrain_service.py:176-190 | that specification determines the answer |
| `BackendAttribution.VoiceAnswer` | backend/src/device.rs:1426-1461 | success if and only if the passphrase matches, the owner has a voice, there is audio and some candidate scores above the threshold and above -1.0; the answer is then the first candidate nobody outscores, by the score of that user's own voice |
| `BackendVoice.ListIsComplete` | backend/src/device.rs:1319-1366 | the list compared holds exactly the owner and, with invites enabled, the receivers of accepted unexpired invites, of those who have a voice |
| `BackendVoice.VoiceReply` | backend/src/device.rs:1265-1469 | the whole answer from the tables: matched if and only if the checks pass and the owner's voice or that of someone admitted scores above the threshold and -1.0; then the first of the list nobody outscores is remembered under the spelling of the request; 401, 403, 400 and 500 exactly when |
| `BackendAttribution.CandidatesMayOperate` | backend/src/device.rs:1319-1366 | index 0 is the owner, every other candidate holds an accepted unexpired invite, and there are others only when invites are enabled |
| `BackendService.Service.CollectVoices` | backend/src/device.rs:1319-1366 | the lists of users and voices stay aligned, owner first, then one place for each row of the query; everyone who may be compared is there and nobody else |
| `BackendService.Service.VerifyVoice` | backend/src/device.rs:1265-1469 | the answer of BackendVoice.VoiceReply, and no other table changes |
| `BackendService.Service.CompareVoices` | backend/src/device.rs:1387-1461 | the call of the voice service and what becomes of its answer |
| `BackendService.Service.RegisterDevice` | backend/src/device.rs:559-601 | new owner and passphrase, defaults for a new row, and no invite of the device and no log under its canonical key left; logs under another spelling of the topic stay |
| `BackendService.Service.UnpairDevice` | backend/src/device.rs:680-737 | only the owner; then no owner and no invite of the device and no log under its canonical key is left; logs under another spelling of the topic stay |
| `BackendService.Service.ControlDevice` | backend/src/device.rs:605-678 | done if and only if the path parses, the token belongs to the user named, the device has an owner, and the user is that owner or the receiver of an accepted invite for it that has not expired; then one entry under the canonical spelling |
| `BackendService.Service.ControlTempDevice` | backend/src/device.rs:926-979 | done if and only if the path parses, the token belongs to the user named, and an accepted invite for the device that has not expired names the user; then one entry under the spelling of the request |
| `BackendService.Service.UpdateConfig` | backend/src/device.rs:134-276 | each refusal, and acceptance if and only if the caller owns the device and every item is acceptable; then the voice columns follow the last items for them, and the other items are left for the device |
| `BackendService.Service.CreateInvite` | backend/src/invite.rs:81-181 | each refusal and exactly when, or one new pending row under a fresh identifier |
| `Backend.Durations` | backend/src/invite.rs:387-397 | the expiry of each duration word in milliseconds, seven days for any other |
| `BackendService.Service.AcceptInvite` | backend/src/invite.rs:239-272 | only the receiver, only a pending row, and only its status changes |
| `BackendService.Service.LoginUser` | backend/src/user.rs:95-129 | issued exactly to a known user with the right password; then the token issued is the only one of that user, and all others are as before |
| `BackendService.Service.RegisterUser` | backend/src/user.rs:63-91 | a new user without a voice, or refused if the name is taken |
| `BackendService.Service.LogoutUser` | backend/src/user.rs:131-140 | only the token of a user called like the token sent is cleared |
| `BackendService.Service.SetVoice` | backend/src/user.rs:366-402 | the voice of the caller is set or removed, and no other |
| `BackendService.Service.CleanLogTable` | backend/src/main.rs:262-271 | exactly the rows older than thirty days go |
| `BackendService.Service.DeleteAccount` | backend/src/user.rs:213-255 | devices lose their owner; the user, the tokens, and the logs and invites that name the user are gone |
| `BackendService.Service.HandleHeartbeat` | backend/src/mqtt.rs:86-129 | afterwards the reported owner, in an old row or a new one; a lockdown remains if and only if it is less than 10 s old; nothing else changes |
| `BackendService.Service.HandleLockEvent` | backend/src/mqtt.rs:264-304 | one log row with the data of the message, naming the user of an entry under the same key less than 5 whole seconds old, which is used up |
| `BackendRuns.InviteTable` | backend/src/invite.rs:145-174 | after every run: at most one pending invite per device and receiver; device, sender and receiver of every invite exist; identifiers stay below the next one |
| `BackendRuns.StepReferential` | backend/src/user.rs:240-252 | every request keeps the references of invites and tokens |
| `BackendRuns.StepOnePending` | backend/src/invite.rs:145-174 | every request keeps at most one pending invite per device and receiver |
| `BackendRuns.InvitesOnlyAdvance` | backend/src/invite.rs:256-271 | between any two moments of a run: what an invite names is fixed, its status does not go back, a deleted one stays deleted |
| `BackendRuns.AcceptedOnce` | backend/src/invite.rs:256-271 | an identifier is accepted at most once in a run |
| `BackendRuns.IdsIncrease` | backend/src/invite.rs:162-174 | identifiers are never reused: later creations have larger ones |
| `BackendRuns.CreatedByOwner` | backend/src/invite.rs:108-126 | every invite was created by the user who owned the device at that moment |
| `BackendRuns.AcceptedByReceiver` | backend/src/invite.rs:256-271 | every accepted invite was accepted by its receiver |
| `BackendRuns.GrantHasBothConsents` | backend/src/device.rs:952-965 | whoever passes the invite check was invited by the then owner and accepted that same invite afterwards |
| `BackendRuns.InviteWindow` | backend/src/invite.rs:387-397 | an invite made and accepted grants access strictly before creation time plus its days, and not from then on |
| `BackendRuns.StepSentByOwner` | backend/src/mqtt.rs:110-116 | a request keeps "every invite was sent by the current owner" if and only if it is not a heartbeat naming another owner while invites for the device exist |
| `BackendRuns.InvitesAreTheOwners` | backend/src/device.rs:574-598 | so it holds along every run up to the first such heartbeat, which is where it breaks |
| `BackendRuns.TemporaryAgainstOrdinary` | backend/src/device.rs:639-663 | a request the temporary endpoint takes is taken by the ordinary one if and only if the device has an owner, hence always on those runs |
| `BackendRuns.SlipSplitsTheEndpoints` | backend/src/user.rs:226-245 | after such a heartbeat and the deletion of that account, the temporary endpoint takes what the ordinary one refuses |
| `BackendRuns.SplitIsReachable` | backend/src/user.rs:226-245 | some run from empty tables leads there |
| `BackendAttribution.StepRecent` | backend/src/device.rs:665-671 | the whole effect of every request on the map of recent commands |
| `BackendAttribution.RegistrantMayOperate` | backend/src/device.rs:639-671 | whoever is registered was owner or held an accepted unexpired invite at that moment |
| `BackendAttribution.EntryIs` | backend/src/device.rs:1447-1453 | at every moment an entry of the map is the last registration under its key not yet used up, and every such registration is there, stale or not |
| `BackendAttribution.LogNames` | backend/src/mqtt.rs:276-304 | a lock event names a user if and only if that user's registration stands under its key and is less than 5 whole seconds old |
| `BackendAttribution.AttributionIsSound` | backend/src/mqtt.rs:276-304 | a log naming a user has an earlier registration: same key, same device, same user, less than 5000 ms old, by an owner or accepted unexpired invitee of that moment |
| `BackendAttribution.AttributionIsInjective` | backend/src/mqtt.rs:276-292 | no registration explains two logs |
| `BackendHistories.NamedUsersWereAllowed` | backend/src/mqtt.rs:294-304 | at every moment of every run, each user named in the log table asked for the movement and was allowed to |
| `BackendHistories.LogTable` | backend/src/mqtt.rs:294-304 | a row is in the log table if and only if some lock event left it and since then the device has not changed hands, the account of the user it names has not ended and no monthly cleaning took it |
| `BackendHistories.OwnerIs` | backend/src/device.rs:574-598 | a device belongs to a user if and only if the last registration or heartbeat about it says so, and neither unpairing nor the end of the account came since |
| `BackendHistories.TokenIs` | backend/src/user.rs:111-124 | a token speaks for a user if and only if a login of that user issued it and no later login, account deletion or matching logout came since |
| `BackendHistories.TokensAreUnique` | backend/src/user.rs:118-123 | on every run a user has at most one token |
| `BackendHistories.LockdownIs` | backend/src/mqtt.rs:91-108 | a device is locked down since a time if and only if the last message says so and no heartbeat at least 10 s later came since |
| `BackendHistories.PassphraseIs` | backend/src/device.rs:574-584 | the passphrase of a device is that of its last registration, through unpairing and account deletion |
| `BackendHistories.EnableIs` | backend/src/device.rs:255-264 | invited voices are compared if and only if the last accepted batch that says so, or the default, allows it |
| `BackendHistories.ThresholdIs` | backend/src/device.rs:246-254 | the voice threshold is that of the last accepted batch that names it, or the default |
| `BackendHistories.VoiceColumns` | backend/src/device.rs:1283-1288 | on every run a device is ready for voice verification if and only if it has an owner, and its threshold lies between 0.20 and 0.90 |
| `BackendHistories.OwnerShutsInviteesOut` | backend/src/device.rs:255-264 | the owner of a device can make the owner the only candidate |
| `BackendHistories.InviteIs` | backend/src/invite.rs:295-306 | an invite is in the table with an expiry if and only if it was created or last extended so and none of its receiver, its sender, the end of either account and a change of hands has deleted it since |
| `BackendHistories.StepInvite` | backend/src/invite.rs:313-384 | what one request does to the expiry of an invite: created or extended by the sender, gone when the receiver rejects, the sender cancels, an account ends or the device changes hands, and otherwise kept |
| `BackendHistories.StepLockdown` | backend/src/mqtt.rs:201-212 | what one request does to the lockdown of a device: set by its message if the device is known, lifted by a heartbeat at least 10 s later, and otherwise kept |
| `Histories.LastWrite` | backend/src/device.rs:665-671 | a field written over and over holds a value if and only if the last write that took effect put it there |

## Left out

- Zero or negative lock timeouts: FreeRTOS asserts on a period of no ticks.
- Timer commands that fail because the command queue is full, and their latency.
- Rounding in the root mean square, and int overflow of a configured recording time below -24347 seconds: undefined in C.
- VoiceDetector.LoudIffRms: is over the reals; the division and square root of doubles are not modelled.
- VoiceDetector.MinBytesBound: requires at least -24347 seconds, below which the product leaves int.
- ConfigStore.CacheAgreement: values that do not fit their field overflow it in C and are a precondition here, as are slot spellings of string keys; the exact effect of other spellings is ConfigStore.UpdateKeepsAgreement.
- ConfigStore.Device.UpdateConfig: requires a fitting value when it is about to be copied into RAM, where the C code would overflow the field; console and broker commands inherit it.
- NVS erasure: what one FLASH does is modelled, but it is no operation of the boots in PairingBoots and Credentials, and the erase at start when NVS is unusable is not modelled.
- LockSteps.AutoLock: assumes that the timer service gets to a due expiry before the clock moves on, and serialised calls; LockSteps.AutoLockInterleaved needs only that no lock has been overtaken.
- LockController.LockContext.CleanupRestart: covers messages, door and timer; Wi-Fi shutdown, the heartbeat task, delays and the restart itself are I/O.
- LockController.LockContext.CleanupHalt: likewise.
- ConfigUpdate.StepInv: leaves out the event of an acknowledgement delivered twice, which breaks the invariant; the account that survives it is Leftovers.KeptAlways.
- ConfigUpdate.EndToEnd: assumes no command and no acknowledgement left over from earlier requests, no acknowledgement delivered twice, and no local update meanwhile that is acknowledged or touches the batch; Leftovers.SuccessBelievable says exactly what happens without. A request path spelled unlike the topic of the device reaches no device, and two requests in flight for one device share one pending entry; both are outside the stated assumption.
- Leftovers.SuccessBelievable: takes values that fit their fields (the commands are Sendable), as Device.UpdateConfig does.
- ConfigUpdate.Prepare: the float parser of the threshold is an input.
- BackendService.Service.RegisterDevice: password hashing is equality of passphrases, and database errors, values over a column's width and statements of one handler interleaved with another's are not modelled; this holds for every handler.
- Back-end columns no modelled check reads (status fields copied by a heartbeat, names, phone numbers, log times): they carry no property here.
- `lock_state` after a lock event: the statement binds the UUID as text (backend/src/mqtt.rs:355-360), so nothing is claimed.
- Logout: it matches on the user name (backend/src/user.rs:134); the step function says what it does clear.
- BackendAttribution.AttributionIsSound: takes UUID parsing as one given function that reads a canonical spelling as itself; the uuid crate is not part of this model.
- Listings, details, ping, reboot and lockdown endpoints, WebSocket pushes and profile changes: no step of theirs changes a modelled table.
- CBOR and JSON bytes, HTTP, SQL, MQTT transport, TLS, Wi-Fi, GPIO set-up, LEDs: input and output.
- The answer 200 to a recording, on which the door is toggled with reason VOICE: the hand-off model stops at the reply.
- The speaker model and resampling: scores are inputs.
- The app, but for the one string it posts.
