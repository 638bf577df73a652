# Flightpatch feed agent: a verified model

The Flightpatch feed agent runs on a volunteer's machine.  It finds RTL-SDR dongles on the USB bus, decides what each
one listens to, runs and supervises a decoder per dongle, relays what the decoders receive to a feed server, reports to
that server, obeys its commands, and updates itself.  This project models the logic of the agent that has to hold over
every run, and proves it with Dafny.  Everything the agent cannot control is an input of the model and may take any
value: what a bus scan sees, whether a read, a write, a rename or a network call works, when the process crashes, and in
which order threads take their steps.

| file | models |
|---|---|
| `Supervisor.dfy`, `PortPlan.dfy` | the decoder supervisor: one tick, stopping, its whole run; ports, slots and identities |
| `Lifecycle.dfy`, `Ticks.dfy`, `Relays.dfy` | what every run of the supervisor keeps, what a tick results in, when relays reach their decoders |
| `Enumeration.dfy`, `RoleStore.dfy`, `Agent.dfy` | the enumeration cache, the role store, and the agent's tick composed of both and the supervisor |
| `Commands.dfy`, `Registration.dfy` | the phone-home protocol over a lossy network; the durable identity over any number of process lives |
| `Stats.dfy` | the shared counters and the wake-up channel as an interleaving of atomic accesses |
| `Eeprom.dfy`, `EepromChip.dfy`, `Dedupe.dfy` | the EEPROM serial editor, the chip procedures on top of it, the serial de-duplicator |
| `Beast.dfy` | the Beast framing of a UAT connection, with a reference decoder |
| `Update.dfy` | the self-update as file operations that can each fail |
| `Common.dfy` | shared value types and decimal notation |

Code that changes state is modelled by classes and loops.  Each method is proved equal to a function of the old state or
of its inputs, and the properties are lemmas about those functions, for all inputs, runs and interleavings.

## What the proofs say about the code

Several comments and expectations in the source hold only under a condition.  The model follows the code; for each,
the exact condition is proved.

- The comment on the EEPROM self-test promises to leave the dongle as found.  If the test write fails part of the way or
  the read-back after it fails, the test returns before the restore; and the restore itself can be dropped or cut off
  (`EepromChip.LeftAsFoundIff`, `EepromChip.FailedTestWriteChanges`).
- A failed serial write is taken to have left the old serial.  If it was stored and only its read-back failed, the chip
  holds the new name, which is then handed out again (`Dedupe.CollidesIff`, `Dedupe.UnreportedWriteCollidesIff`,
  `Dedupe.UnreportedWriteCollides`, `EepromChip.FailedWriteLeaves`).
- `uniqueSerial` falls back to a name that may be taken.  With successful writes, de-duplication is safe for up to 100000
  dongles, and that bound is sharp (`Dedupe.AllWritesSucceeded`, `Dedupe.BoundIsSharp`).
- A dongle switched to `off` keeps its decoder; only its relay stops (`Ticks.DecodersAfterTick`,
  `Relays.OffKeepsDecoding`).
- An existing relay is kept without looking at its port.  Relays reach their decoders throughout a run exactly if no
  receiver ever changes its slot (`Relays.AlwaysAgreesIff`, `Relays.AlwaysAgreesIffNoMove`); unplugging the first of two ADS-B dongles breaks the
  second one's relay for good (`Relays.MovedSlotMisdials`).
- Two dongles with the same key make the supervisor restart decoders on every tick (`Ticks.StableIff`).
- The probe port 31005 is called dedicated, but it is the Beast port of the eleventh ADS-B receiver
  (`PortPlan.DisjointIff`).
- `setLink` swaps the mask and stores the flag in two steps, so two overlapping calls can leave the flag wrong
  (`Stats.OverlapLeavesStaleFlag`, `Stats.FlagAgreesIff`, `Stats.StoreOrderIrrelevantIff`), or right while the server has
  been told otherwise and nothing wakes the loop (`Stats.SilentStoreHidesLink`, `Stats.OutdatedReportIff`).
- All ADS-B relays and UAT pipelines share one link bit, so one that goes down hides another that is up
  (`Stats.LinkIffConnection`, `Stats.SharedBitHidesConnection`).
- A crash can make a command run twice; which ones is exact (`Commands.HandledAgainIff`, `Commands.CrashCanReplay`).
- A restart whose acknowledgement fails is called postponed.  It is given up: the next beat confirms it, and it is never
  handled again (`Commands.ExitHappensIff`, `Commands.RestartCanBeLost`).
- Settings pushed together with `enabled: false` switch the decoders back on (`RoleStore.DeviceConfig.ApplyConfig`).
- New feed and gain settings reach running decoders and relays only if a tick falls within the 1.5 seconds for which the
  decoders are switched off (`Ticks.BounceRestartsIff`).
- A role pushed while its dongle is listened to is overwritten by what was heard (`RoleStore.PushDuringAssignmentIff`).
- A dongle is probed at most once only while no role is the empty string (`RoleStore.ProbedAgainIff`,
  `RoleStore.EmptyRoleProbesAgain`).
- A configuration file that exists but cannot be read at launch gives the device a second identity
  (`Registration.LifeKeepsIdentityIff`, `Registration.StaysOneIff`, `Registration.BoundIsReached`).
- A self-update whose roll back fails leaves the only binary at `.old`, and the next attempt deletes it
  (`Update.RunKeepsBinaryIff`, `Update.StrandedThenLost`).

## Model
| member | source | states |
|---|---|---|
| Supervisor.DecoderManager.StopAll | agent/decoders.go:191-201 | cancels and forgets every decoder and relay |
| Supervisor.DecoderManager.KeepOrStart | agent/decoders.go:237-253 | an off receiver is skipped, a decoder that runs as asked is kept, any other is cancelled and started anew |
| Supervisor.DecoderManager.StartDecoders | agent/decoders.go:219-253 | the published plan gives each receiver the ports of its slot; decoders are adopted entry by entry; all keys are seen |
| Supervisor.DecoderManager.StopDecoders | agent/decoders.go:255-261 | decoders of unseen dongles are cancelled and forgotten, in any iteration order |
| Supervisor.DecoderManager.StartForwarders | agent/decoders.go:264-298 | relays missing for receivers that are neither off nor UAT are started, on the Beast port for ADS-B and the VDL2 port otherwise; present ones are kept as they are |
| Supervisor.DecoderManager.StopForwarders | agent/decoders.go:299-304 | relays no longer wanted are cancelled and forgotten, in any iteration order |
| Supervisor.DecoderManager.Reconcile | agent/decoders.go:203-313 | the whole new state of one tick: disabled, without dongles, or reconciled |
| Supervisor.DecoderManager.Supervise | agent/decoders.go:315-326 | a whole life of the supervisor is the run of its ticks followed by stopping everything |
| Lifecycle.EveryRunConserves | agent/decoders.go:188-326 | over any run, duplicate keys included, each context is the current entry of its key or cancelled, never both; no key has two live decoders or relays; nothing is live after a disabled tick or the parent's end |
| Lifecycle.RunsGrow | agent/decoders.go:188-326 | contexts are only added and cancelling is final, from any moment of a run to its end |
| Ticks.DecoderAfterTick | agent/decoders.go:223-261 | the decoder of any one key after a tick from any list: gone, untouched, or the one the last asker wants, and kept exactly if all askers were served |
| Ticks.DecodersAfterTick | agent/decoders.go:223-261 | with distinct keys every receiver that is on runs with exactly its role, identity and ports, kept if it did before; an off one runs exactly if it did; no other runs |
| Ticks.RelaysAfterTick | agent/decoders.go:264-304 | relay keys are exactly role:key of the ADS-B and VDL2 receivers; relays that were there are kept |
| Ticks.RelaysSpelled | agent/decoders.go:266-276 | after a tick there is a relay named role:key for each receiver that is neither off nor UAT, and no other |
| Ticks.SharedKeyRestarts | agent/decoders.go:240-251 | two receivers that share a key get their decoder replaced on every tick |
| Ticks.StableIff | agent/decoders.go:211-304 | repeating a tick changes nothing, and creates no context, if and only if receivers that are on have different keys |
| Ticks.BounceRestartsIff | agent/main.go:357-364 | after settings changed, every decoder and relay is started anew if and only if a tick falls between switching feeding off and on |
| Relays.TickAgreesIff | agent/decoders.go:264-304 | from any state and for any list, all relays reach their decoders after a tick if and only if the list is consistent and the relays already there dial the right port |
| Relays.AlwaysAgreesIff | agent/decoders.go:222-304 | over any run, duplicate keys and unknown roles included, all relays always reach their decoders if and only if each tick finds a consistent list in which no receiver has another port on its relay than before |
| Relays.AlwaysAgreesIffNoMove | agent/decoders.go:222-304 | with distinct keys, that is if and only if no receiver ever moves to another slot |
| Relays.NewRelayPorts | agent/decoders.go:223-298 | with distinct keys, a relay a tick starts dials the very port its decoder was given, Beast for ADS-B and VDL2 otherwise: 30005 + 100 k or 5553 + k, with k receivers of the role before it |
| Relays.EndChangesMoveNothing | agent/decoders.go:222-232 | key sequences per role that only extend or shrink at their end move no receiver |
| Relays.EndChangesAlwaysAgree | agent/decoders.go:222-304 | if in a run the keys of each role only extend or shrink at their end, all relays always reach their decoders |
| Relays.MovedSlotMisdials | agent/decoders.go:275-277 | unplugging the first of two ADS-B dongles leaves the second one's relay on port 30105 and its decoder on 30005, however many ticks follow |
| Relays.OffKeepsDecoding | agent/decoders.go:237-239 | a receiver switched off keeps its decoder alive while its relay goes |
| PortPlan.IdentityHoldsIndex | agent/decoders.go:64-66 | two devices at different indices never share an identity, whatever their strings contain |
| PortPlan.IdentityIff | agent/decoders.go:64-66 | two devices share an identity if and only if they share the index, and serial and product joined by a bar |
| PortPlan.AdsbNeverCollide | agent/decoders.go:226-228 | Beast and SBS ports of any number of ADS-B receivers are distinct |
| PortPlan.PortsOfReceiver | agent/decoders.go:222-232 | an ADS-B receiver with k others of its role before it gets ports 30005 + 100 k and 30003 + 100 k, a VDL2 one 5553 + k, any other none |
| PortPlan.DisjointIff | agent/decoders.go:222-232 | all ports are pairwise distinct and none is the probe port (agent/decoders.go:487) if and only if there are at most 10 ADS-B and 24450 VDL2 receivers, or 25452 VDL2 receivers alone |
| Enumeration.Enumerator.EnumerateDongles | agent/dongles_windows.go:54-103 | the dongles one scan reports and the cache it leaves |
| Enumeration.ListedOnce | agent/dongles_windows.go:61-89 | indices strictly increase and each dongle has its own port; keys are distinct where every device has a port |
| Enumeration.CacheIsHistory | agent/dongles_windows.go:72-101 | over any scans the cache holds, per port, the last identity read since the port was last absent |
| Enumeration.ReportedIsLastReadable | agent/dongles_windows.go:72-88 | a device is reported as read now, or as last read at its port with its present index, or not at all |
| Enumeration.ReportedSpelled | agent/dongles_windows.go:61-89 | the dongle at an index, after any scans: as read now, else with the serial and product last read at its port, else none; the port is empty beyond the list of ports |
| Enumeration.KeySpelled | agent/decoders.go:57-62 | a dongle is tracked by its port, and by its serial only without one |
| RoleStore.ListIsMap | agent/config.go:135-162 | lookup and update on the list obey the get and set laws of a map, repeated serials included |
| RoleStore.DeviceConfig.RoleFor | agent/config.go:135-147 | local roles win over stored ones |
| RoleStore.DeviceConfig.SetRole | agent/config.go:150-162 | the first entry is updated or a new one appended; reports a change exactly if the map's entry differs |
| RoleStore.DeviceConfig.ApplyDefaultRole | agent/main.go:236-241 | a changed choice clears all stored roles and no local one; any other call changes nothing |
| RoleStore.DeviceConfig.ApplyConfig | agent/main.go:332-365 | the new settings and roles; a change is reported exactly if settings or the role map differ; then decoders end switched on |
| RoleStore.SettingsAreReplaced | agent/main.go:337-349 | each pushed setting that is not empty replaces the one of the same name, and only that; pushing again changes nothing |
| RoleStore.ApplyRolesIsOverride | agent/main.go:350-356 | pushing roles overrides the map entry by entry |
| RoleStore.IterationOrderIrrelevant | agent/main.go:350-356 | lookups and the reported change do not depend on the iteration order of the pushed map |
| RoleStore.ChangeIff | agent/main.go:350-356 | roles are reported as changed exactly if the map changes; the same push again changes nothing |
| RoleStore.DeviceConfig.AssignRole | agent/decoders.go:342-363 | the role of one dongle, by the order of choices that `RoleStore.RoleOfDongle` spells out, and the store after it; listens only if nothing else decides |
| RoleStore.DeviceConfig.AssignRoles | agent/decoders.go:333-367 | the assignments, the store and the probed keys for a list of dongles |
| RoleStore.RoleOfDongle | agent/decoders.go:342-363 | a configured role is taken; else the default if its decoder is installed; else the only one of ADS-B and VDL2 installed; with both, listening decides, with neither the dongle is off; any role but off is stored |
| RoleStore.RolesOfDongles | agent/decoders.go:333-367 | with distinct keys each dongle of a list gets the role, and is listened to, as it would be alone |
| RoleStore.AssignmentsKeep | agent/decoders.go:333-367 | one assignment per dongle in order, with a role of any kind that covers the four roles and all configured ones |
| RoleStore.AssignmentsAreKnown | agent/decoders.go:333-367 | every dongle gets one of the four roles if only those are configured |
| RoleStore.UnconfiguredAreRunnable | agent/decoders.go:342-360 | a dongle nobody configured only gets a role whose decoder is installed, or is off |
| RoleStore.ProbedAtMostOnce | agent/decoders.go:333-367 | over any run of assignments and pushes without empty roles, pushes during a probe included, no key is probed twice |
| RoleStore.PushDuringAssignmentIff | agent/decoders.go:342-363 | a role pushed for a dongle while its role is decided survives if and only if it is the decided one or the dongle is off; those of other dongles do |
| RoleStore.ProbedAgainIff | agent/decoders.go:342-363 | a probed dongle is probed again after a push if and only if the push made its role empty, or a local entry has it empty |
| RoleStore.EmptyRoleProbesAgain | agent/decoders.go:342-357 | an empty role pushed by the server makes the next assignment probe the dongle again |
| Agent.Agent.DoTick | agent/decoders.go:203-313 | one tick of enumeration, role assignment and supervisor together, and which dongles it listened to |
| Agent.AgentRunsSupervisor | agent/decoders.go:203-313 | every run of the agent, from any saved role store and on any input, is a run of the supervisor, so no context is lost, no key has two live decoders, and relays always reach their decoders exactly under the condition of `Relays.AlwaysAgreesIff` |
| Agent.AgentRelaysIff | agent/decoders.go:203-313 | over any run of the agent with distinct keys in each scan, relays always reach their decoders if and only if no receiver moves to another slot |
| Agent.PortsGiveKeys | agent/decoders.go:57-62 | at any moment of any run, a scan in which every device has its own port lists distinct keys |
| Agent.Rescan | agent/dongles_windows.go:54-103 | scanning the same bus again lists the same dongles and keeps the cache |
| Agent.AssignAgain | agent/decoders.go:333-367 | assigning again decides the same roles and listens to nothing, whatever listening would answer now |
| Agent.SecondTickIsIdle | agent/decoders.go:203-313 | from any state and with any stored roles, a second tick on the same bus changes no cache entry, role, decoder, relay or context, and probes nothing |
| Commands.PhoneHome.HandleCommand | agent/main.go:368-399 | enable switches decoders on, disable off, any other command leaves the switch; the process has to exit exactly for a restart and for an update that was installed |
| Commands.PhoneHome.OneBeat | agent/main.go:264-306 | one beat is the matching run of protocol steps, for every network outcome |
| Commands.PhoneHome.HandleBatch | agent/main.go:288-305 | commands are marked and run in order up to the first one that leads to an exit attempt |
| Commands.NeverDroppedOnlyExposedTwice | agent/main.go:260-306 | crashes and late requests included, no unhandled command is dropped, and only one exposed by a crash is handled twice |
| Commands.ExactlyOnce | agent/main.go:260-306 | without crashes each command is handled at most once, is pending or handled, and the handled unconfirmed ones are exactly those in `acked` |
| Commands.ExitsAreSafe | agent/main.go:290-303 | each exit carried the exiting command and exactly the handled unconfirmed ones; the server holds none of them and all unhandled ones |
| Commands.ExitHappensIff | agent/main.go:290-303 | a restart or installed update leads to an exit if and only if its announcing call succeeded |
| Commands.SwitchIsLastSay | agent/main.go:286-305 | over any run, crashes included, the switch is what was said last: by a command that enables or disables, by the reply to a delivered beat (on if it changed settings), or by a relaunch (on) |
| Commands.HandleAsksIff | agent/main.go:288-302 | a handled command is marked before anything else, and stops the batch for an exit if and only if it is a restart or an installed update |
| Commands.PendingIffNotTold | agent/main.go:264-306 | over any run the server still holds exactly the issued commands that no request which reached it, in time or late, acknowledged |
| Commands.WhatComesNext | agent/main.go:260-306 | which step each phase of the device allows, by phase |
| Commands.ConfirmedNeverReturns | agent/main.go:264-292 | a confirmed command is never pending or handled again, whatever happens later |
| Commands.HandledAgainIff | agent/main.go:264-305 | crashes included, some continuation handles a handled command again if and only if the server still holds it or it is in the batch at hand with no restart before it |
| Commands.CrashCanReplay | agent/main.go:288-290 | a crash between handling and acknowledging makes a command run twice |
| Commands.RestartCanBeLost | agent/main.go:294-301 | a restart whose announcing call fails is confirmed by the next beat and never happens |
| Registration.DeviceConfig.Save | agent/config.go:166-179 | temporary file, then rename, and each may fail; a save that worked leaves identity and token on disk |
| Registration.DeviceConfig.EnsureDeviceIdentity | agent/config.go:43-57 | an identity exists on disk afterwards, or the call fails and none is kept in memory |
| Registration.DeviceConfig.Start | agent/main.go:194-217 | the registration sequence is the matching run of steps; it goes on if and only if an identity was there or saved and then the call was delivered and saved, or was not but a token was there |
| Registration.SaveLeaves | agent/config.go:166-179 | what each outcome of a save leaves in the configuration file and beside it; only a running process survives a failed one |
| Registration.StartRunsIff | agent/main.go:194-217 | after a start the process runs if and only if an identity was there or was saved, and either the call was delivered and saved, or it was not and a token was on disk |
| Registration.TokenSurvivesLostCall | agent/main.go:203-217 | once a registration was delivered and saved, a later launch that reads the file runs although its call is lost |
| Registration.WhatComesNext | agent/main.go:194-217 | which step each stage of a process allows, by stage |
| Registration.IdentitiesBounded | agent/config.go:43-57 | over any lives, crashes and losses, identities sent are at most one more than launches that could not read an existing identity; the file is never partial |
| Registration.HeardIffArrives | agent/main.go:194-217 | over any run the server has heard exactly of the identities in calls whose request arrived, and exactly the identities in calls were sent |
| Registration.OneIdentity | agent/config.go:43-57 | if every launch can read the file, all identities ever sent are equal, and equal to the one on disk |
| Registration.BoundIsReached | agent/config.go:89-96 | that bound is sharp for every number of unreadable launches |
| Registration.LifeKeepsIdentityIff | agent/main.go:194-217 | one life of a registered device, whatever network and files do, keeps one identity if and only if its launch could read the file or the made-up identity was not saved |
| Registration.StaysOneIff | agent/main.go:194-217 | over any further lives all identities ever sent are equal if and only if the server is never called once a made-up identity was saved, which takes an unreadable launch |
| Stats.SetLinkLinearises | agent/stats.go:36-60 | in every interleaving the mask is the fold of the calls in the order they took effect, and edge notifications match transitions one for one |
| Stats.TakesEffectOnce | agent/stats.go:36-60 | in every interleaving each call of setLink has taken effect exactly once or is still under way |
| Stats.BitsIndependent | agent/stats.go:36-49 | each link bit follows the last call that touched it |
| Stats.LinkIffConnection | agent/stats.go:32-49 | some link is up if and only if a connection is up whose bit was raised by the last call on it |
| Stats.LinkIffConnectionWithOwnBits | agent/stats.go:32-49 | with a bit of its own for each connection, some link is up if and only if some connection is |
| Stats.SharedBitHidesConnection | agent/stats.go:32-34 | two connections on one bit: the first to go down hides the other |
| Stats.NoLostWakeup | agent/stats.go:22-70 | in every interleaving the byte count is the sum of the bytes added and the decoder list the last one published; bytes fed while the last beat read none, a list other than the one it read, and an unread link edge each have a token, the loop on its way to read, or a producer about to notify |
| Stats.WokenBeatReads | agent/main.go:308-327 | a beat the loop is woken for reads all counters as they stand |
| Stats.ThreadOrder | agent/stats.go:36-70 | an idle thread can begin any call, adding bytes only with a positive number; any other has exactly one access to make next |
| Stats.LoopOrder | agent/main.go:308-327 | the loop waits for a token or the ticker, and otherwise has exactly one step to take next |
| Stats.QuietUntilCalled | agent/main.go:308-327 | until the first call the loop alone finds no token, no link, no bytes and no decoders |
| Stats.FlagAgreesWhenApart | agent/stats.go:46-56 | in every run in which no two calls overlap between swap and store, the flag says whether a link is up whenever no call is in between, and an outdated report is followed by a beat |
| Stats.OutdatedReportIff | agent/stats.go:46-56 | over any run, overlapping calls included, what a beat reported is always the flag or backed by an unread edge if and only if no store flips the flag silently; then an outdated report is followed by a beat |
| Stats.SilentStoreHidesLink | agent/stats.go:46-56 | a delayed store without an edge leaves all threads and the loop at rest with a link up and the server told otherwise |
| Stats.FlagAgreesIff | agent/stats.go:36-60 | over any run, overlapping calls included, the flag is right if and only if the number of edges after the call that stored last is even |
| Stats.StoreOrderIrrelevantIff | agent/stats.go:46-53 | all orders of the outstanding stores leave the flag right if and only if each of them stores the right value |
| Stats.OverlapLeavesStaleFlag | agent/stats.go:46-53 | two overlapping calls can leave the flag up with no link |
| Eeprom.ParseEEPROMStrings | agent/eeprom_windows.go:85-110 | the strings of up to three chained descriptors, empty where malformed or missing |
| Eeprom.StringsSpelled | agent/eeprom_windows.go:85-110 | the strings of an image by byte position: the descriptors chained from byte 9, for as long as each is well-formed |
| Eeprom.SetEEPROMSerial | agent/eeprom_windows.go:115-151 | the rewritten image or the error, with every branch |
| Eeprom.SuccessIff | agent/eeprom_windows.go:115-136 | an edit succeeds exactly for a well-formed image and a serial that fits |
| Eeprom.EditSpelled | agent/eeprom_windows.go:137-150 | every byte of an edited image |
| Eeprom.EditErrors | agent/eeprom_windows.go:115-136 | which error a failed edit reports, by the first check that fails |
| Eeprom.OnlySerialAreaChanges | agent/eeprom_windows.go:137-150 | only byte 6 and the bytes from the serial descriptor up to 128 may change |
| Eeprom.RoundTrip | agent/eeprom_windows.go:85-151 | parsing an edited image gives the old manufacturer and product and exactly the new serial |
| Eeprom.SecondEditWins | agent/eeprom_windows.go:115-151 | a second edit has the outcome, errors included, it would have had on the original |
| Eeprom.RestoreIff | agent/eeprom_windows.go:115-151 | writing the old serial back restores every byte of exactly the canonical images |
| EepromChip.Chip.WriteEEPROM | agent/eeprom_windows.go:156-179 | the chip after a write that is stored, dropped, or fails part of the way |
| EepromChip.Chip.WriteDongleSerial | agent/eeprom_windows.go:183-203 | chip and error after writing a serial, for every device behaviour |
| EepromChip.Chip.EepromSelfTest | agent/eeprom_windows.go:209-254 | chip and verdict after the self-test, for every device behaviour |
| EepromChip.ReportedSuccessIsReal | agent/eeprom_windows.go:192-202 | whichever of the three outcomes the write has, reported success means the chip parses to the new serial with its other strings kept |
| EepromChip.FaithfulChipVerifies | agent/eeprom_windows.go:183-203 | on a chip that stores what it is told the read-back check never fails |
| EepromChip.StoredRestoreUndoes | agent/eeprom_windows.go:235-253 | once the restoring write is stored the chip is byte for byte as found, whatever the first write did |
| EepromChip.FaithfulPassIff | agent/eeprom_windows.go:209-254 | on a faithful chip the self-test passes if and only if no access fails and the image takes the test serial |
| EepromChip.PassProvesWritable | agent/eeprom_windows.go:209-254 | a pass with a different old serial proves that both writes reached the chip, and leaves it as found |
| EepromChip.LeftAsFoundIff | agent/eeprom_windows.go:205-254 | for every device behaviour, exactly when the self-test leaves the dongle as found: by the outcome of the test write, the read-back and the restoring write, and the bytes each got to |
| EepromChip.FailedTestWriteChanges | agent/eeprom_windows.go:224-226 | a test write that fails part of the way leaves a chip without the serial flag changed, and nothing is restored |
| EepromChip.SelfTestCanChange | agent/eeprom_windows.go:224-226 | there is such a chip |
| EepromChip.RestOfChipUntouched | agent/eeprom_windows.go:192-194 | no outcome of a serial write touches the bytes from 128 on |
| EepromChip.FailedWriteLeaves | agent/eeprom_windows.go:183-203 | which serial a write that reports an error leaves on the chip: the old one, the new one if only the read-back failed, or a torn one byte for byte |
| SerialNames.NameInjective | agent/decoders.go:405-413 | a generated name determines its number |
| SerialNames.NamesSpelled | agent/decoders.go:405-413 | some generated names, written out in ASCII |
| Dedupe.UniqueSerial | agent/decoders.go:405-413 | the least fresh name from 1 on, and name 0 as a last resort |
| Dedupe.UniqueIsLeastFresh | agent/decoders.go:405-413 | the result is the least fresh name, and is taken if and only if all names are |
| Dedupe.Pigeonhole | agent/decoders.go:405-413 | with fewer serials taken than there are names the result is fresh |
| Dedupe.DedupeSerials | agent/decoders.go:376-402 | the decision for every dongle, what was done to each chip, and whether anything was rewritten |
| Dedupe.StaysDuplicateIff | agent/decoders.go:379-393 | a dongle is kept exactly if its serial was free, and stays a duplicate exactly if it was taken and writing the new one reported an error |
| Dedupe.ReportedAfterPass | agent/decoders.go:379-393 | a kept or rewritten dongle reports what the pass marked as seen; one whose write failed reports what that write left on its chip |
| Dedupe.CollidesIff | agent/decoders.go:376-402 | for at most 100000 dongles, one that was kept or rewritten reports the serial of an earlier one if and only if a failed write left just that serial on the earlier one's chip |
| Dedupe.OnlyFailedWritesCollide | agent/decoders.go:376-402 | for at most 100000 dongles, of two that report the same serial from their chips the write to at least one failed |
| Dedupe.UnreportedWriteCollidesIff | agent/decoders.go:384-391 | a write that reached the chip but reported an error collides with a later dongle if and only if a later one is rewritten or held that name already |
| Dedupe.UnreportedWriteCollides | agent/decoders.go:384-391 | three dongles with one serial, the read-back of the second failing: the second and the third end up with the same generated name |
| Dedupe.UnwrittenStaysDuplicate | agent/decoders.go:385-388 | a dongle whose failed write left its old serial shares it with an earlier one |
| Dedupe.AllWritesSucceeded | agent/decoders.go:376-402 | with successful writes all dongles report pairwise distinct serials from their chips, even if later dongles already held generated names |
| Dedupe.WritesOnlyOnCollision | agent/decoders.go:369-375 | nothing is written if and only if the serials were distinct |
| Dedupe.RewrittenChipHoldsName | agent/decoders.go:384-392 | a chip the pass rewrote parses to its new serial |
| Dedupe.BoundIsSharp | agent/decoders.go:404-413 | with 100001 dongles successful writes only can leave two chips with one serial |
| Beast.BeastReceiverFrame | agent/forward.go:72-84 | the identity frame of an 8-byte identity, nothing for any other |
| Beast.AvrToBeast | agent/uat.go:18-39 | the frame of an AVR line, or an error |
| Beast.AcceptedIff | agent/uat.go:18-25 | a line is accepted if and only if its trimmed body spells a 7- or 14-byte message in Base16, and yields that message |
| Beast.EveryMessageHasLines | agent/uat.go:18-25 | every spelling of every message, in either case, with or without the star and the semicolon, and with any white space around, reads back |
| Beast.CharactersSpelled | agent/uat.go:18-25 | which characters are Base16 digits, with their values, and which are white space |
| Beast.FramesSpelled | agent/uat.go:26-38 | the bytes of a frame: 0x1a, type 0xe3, 0x32 or 0x33, six zero bytes and 0x80 before a message, and every 0x1a in the payload doubled |
| Beast.FrameLength | agent/uat.go:31-38 | a frame is 2 bytes longer than its payload plus one for each 0x1a in it |
| Beast.Connection.CountingWrite | agent/forward.go:64-70 | the bytes taken by the connection are the bytes counted |
| Beast.Connection.RunUAT | agent/uat.go:111-135 | wherever the connection breaks, the peer holds a prefix of the stream of identity and valid lines and decodes exactly the messages counted; the bytes counted as fed are those behind the identity frame |
| Beast.StreamDecodes | agent/uat.go:111-131 | the stream of a connection decodes to the identity and the raw messages of its valid lines |
| Beast.StreamInjective | agent/uat.go:111-131 | equal streams carry the same identity and the same messages |
| Beast.DecodeCut | agent/uat.go:111-131 | a stream cut at any byte decodes to a prefix of the packets, never to a wrong one |
| Update.Disk.Download | agent/update.go:115-133 | every state of the disk while the download arrives, and whether it is complete |
| Update.Disk.SelfUpdate | agent/update.go:92-113 | every state of the disk during an attempt, and its result |
| Update.NeverLost | agent/update.go:92-113 | at every step of an attempt, any operation failing, the previous binary is intact at the executable's path or at `.old`, and the executable is never partial |
| Update.Outcome | agent/update.go:92-113 | success installs the release and keeps the previous binary; failure leaves the executable as it was if and only if no needed roll back failed |
| Update.DownloadSpelled | agent/update.go:115-133 | while a download arrives the disk holds the chunks that arrived, in order, next to an untouched rest |
| Update.IncompleteSpelled | agent/update.go:115-133 | what a failed download leaves: nothing new, or as much as arrived |
| Update.CompleteSpelled | agent/update.go:102-113 | the whole disk after a complete download, by the first operation that fails |
| Update.NothingToReplace | agent/update.go:104-107 | without an executable to move aside an attempt fails and none appears |
| Update.RunKeepsBinaryIff | agent/update.go:92-113 | over any attempts a whole binary, one there at the start or downloaded completely, is always at one of the two places if and only if `.old` is never deleted while the executable is missing; nothing but whole binaries is ever there |
| Update.StrandedThenLost | agent/update.go:103-111 | an attempt after a failed roll back that downloads and deletes `.old` leaves no binary |

## Left out
- Process launching, pipes, job objects, process priorities and the USB reset: foreign calls without visible semantics.
- Library loading, libusb and librtlsdr calls: only their results enter, as inputs.
- HTTP, JSON, TCP, UDP, dialling, timers, back-off and the VDL2 history file: replaced by success, loss or failure.
- Listening to a dongle: an oracle that answers ADS-B or VDL2.  That it takes time matters for pushes that arrive meanwhile (`RoleStore.PushDuringAssignmentIff`); the composed tick of the agent takes none.
- The receiver identity hash: frames carry any 8 bytes, and no claim is made about collisions.
- Version comparison, exit codes and default settings: easy.
- The published list of running decoders: it is rebuilt on every tick in the order of a map iteration and compared as a string, so a tick that changes nothing in the sense of `Ticks.StableIff` and `Agent.SecondTickIsIdle` can still notify the phone-home loop.
- The sorting of the published inventory: the inventory of the supervisor is a multiset, and no result depends on its order.
- Agent.AgentRelaysIff: like `Relays.AlwaysAgreesIffNoMove`, assumes distinct keys in each scan, which distinct ports give (`Agent.PortsGiveKeys`), and configured roles without a colon, because a relay's key is its role and the dongle's key joined by one; `Agent.AgentRunsSupervisor` assumes neither.
- Cancellation of the phone-home loop, and the 75 ms delay other than as a step.
- Several writers of the configuration at once, be they processes or the supervisor and the phone-home loop of one process, whose saves go through one temporary file; and a server that answers a registration with another identifier.
- Loss of power: a rename that returned is taken to be durable, and a file write to be complete.
- The 64-bit wrap-around of the byte counter, and ports above 65535.
- Stats.SetLinkLinearises: the 32-bit mask is a set of bit numbers, because all its operations are set operations; the width plays no part.
- Agent.AgentRunsSupervisor: a run covers one process life; a changed installation choice between lives is only `RoleStore.DeviceConfig.ApplyDefaultRole`.
- Dedupe.DedupeSerials: the reset of the devices and the re-enumeration after it are foreign calls; the serials a dongle ends up with are those its chip parses to, and serials are taken to hold no NUL character, at which the driver's strings are cut.
- Beast.Connection.RunUAT: the lines are those the scanner delivers; that a read error or a line over 64 KiB ends the connection early is not distinguished from the end of the input.
