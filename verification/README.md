# Capsule: verified model

Capsule is a small appliance operating system. `capsuled` runs on the node, keeps container and
microVM workloads running, and updates the node by writing a new image to the inactive one of two
slots, switching GRUB to it and rolling back unless the operator confirms in time. The same code
base installs a disk and ingests a sealed first-boot bundle.

This project models the parts where a wrong step loses data or a machine, and proves what every
run of them keeps. State machines are values with step functions (so power loss, failed calls and
interleavings are events); the code's objects are classes whose methods are proved equal to those
steps; loops and buffers stay loops and arrays. The network, clocks, disks' failures, SHA-256, tar,
JSON, base64 and Unicode lower-casing are parameters. `dafny verify dfyconfig.toml` covers the whole
project.

| module | models |
|---|---|
| `UpdateProtocol`, `UpdateOutcomes` | the A/B slot protocol over every interleaving of push, boot, confirm, timer, power loss and failure |
| `UpdateBundle`, `UpdateServices` | receiving a bundle, and the update service as an object that refines the protocol |
| `GrubConfig`, `GrubRefinement` | rewriting `grub.cfg` as text, what GRUB then boots, and the protocol over the real file |
| `Workloads`, `Reconciler`, `WakeChannel`, `ReconcileLoop`, `Capsules` | service calls, drivers, the reconciler, its wake channel, and all of them in one state machine |
| `PortMap`, `LogLines` | port-mapping labels; the line-prefixing writer and log tail |
| `DiskLayout`, `PartitionCopy` | partition layout, MBR, chunked partition copy |
| `FirstBoot`, `Volumes`, `ReplayCache` | first-boot ingest, volumes, token replay cache |
| `Prelude`, `Text` | options, bytes, splitting and trimming |

## Findings

Some properties one would expect do not hold of the code. Each is kept as the code has it, with a
concrete counterexample and the exact condition under which the property does hold.

- *GRUB, the row and the booted slot agree, and the last good slot is never written.* At every state
  of a run exactly when every step is `Safe` and nothing is written on a tentative boot
  (`GoodRunIff`); a single push keeps it exactly when it writes nothing, or the boot is not tentative
  and its flip, if it gets that far, is recorded (`PushIsGoodIff`, and `CutPushIsGoodIff` and
  `FlipCutIsGoodIff` for a push that loses power). Counterexamples: a push during a tentative boot
  (`TentativePushDestroysLastGood`), even one refused at its checksum, after which the automatic
  rollback returns to the overwritten slot (`RefusedPushDestroysRollbackTarget`); a crash between the
  GRUB flip and the row write (`CrashAfterFlipSkipsConfirmation`); a confirmation racing the deadline
  handler (`ConfirmDuringRollbackIsUndone`), after a failed reboot (`ConfirmAfterFailedRebootIsLost`)
  or on a stale row (`ConfirmOnStaleRowKeepsOldSlot`); a menu choice of the good slot
  (`MenuRecoveryLeavesGrubOnFailedSlot`).
- *An expired update is rolled back by its timer.* Not after a confirmation that could not write its
  row, or a deadline handler that could not read it: then nothing happens until power is lost or
  another push is made (`DisarmedUpdateWaits`).
- *A failing update is rolled back.* Over a safe run without an accepted confirmation, exactly when the
  daemon gets to start, with its store, on a slot other than the pushed one (`RolledBackIff`); an
  image that panics before the daemon starts is therefore never left (`PanickingImageIsNeverLeft`).
- *A stopped workload stays stopped.* Exactly when no snapshot listed before the call is still queued
  and no status update that read a row wanting to run is still to be written (`StopSticksIff`,
  `StatusWriteUndoesStop`). *A deleted workload stays deleted.* Exactly when no such snapshot is queued
  and no status update has read the row, whatever it said (`DeleteSticksIff`). Counterexamples: a
  container that outlives its row (`StaleTickOrphansContainer`), a deleted row brought back wanting to
  run (`StatusWriteUndoesDelete`) or stopped (`StatusWriteRevivesStoppedRow`).
- *A successful delete leaves nothing running.* Exactly when whatever runs under the name is of the
  kind Delete went by and its driver is wired (`DeleteOrphansIff`). Counterexamples: a VM whose row
  could not be read (`UnreadRowOrphansVM`), a name whose kind was changed (`KindChangeOrphansVM`), a VM
  without a row (`RowlessDeleteKeepsVM`).
- *A change announced to the reconciler is seen without waiting for its timer.* Exactly when no
  listing fails on the last wake-up token (`NoLostWakeUpIff`, `FailedListLosesWakeUp`).
- *Teardown replays setup's port mappings.* Exactly when no protocol holds a comma and the last does
  not end in white space (`ReplayExactIff`, `SomeProtocolsAreLost`).
- *First-boot ingest may be interrupted anywhere.* For a given schedule of boots exactly when none
  leaves both TLS files there but not as sealed (`ScheduleIff`); for every schedule exactly when both
  files were there already (`EveryScheduleIff`); for power cuts between whole writes exactly when no
  stray private key is on disk (`CrashIdempotentIff`). Counterexamples: a cut inside the key file leaves
  a key no later boot replaces (`TornKeyIsKept`); after one failed store call the same boot generates
  its own pair, and the sealed one is never used (`FailedCallLosesSealedPair`).
- *Every volume has its row.* At every state of a run exactly when no create fails without being able
  to undo itself and no delete takes an `lvremove` that wrongly says "not found" for success
  (`AlwaysPairedIff`, `FailedUndoStrandsVolume`, `MissingGroupStrandsVolume`).

Where documentation and code disagree the model follows the code. `docs/updates.md:44-49`,
`docs/updates.md:117` and `docs/cli.md:92` say a push leaves the GRUB default alone and a confirmation
rewrites it; the code flips it at push (`core/update/service.go:336`) and confirmation does not touch
GRUB (`core/update/service.go:397-421`). `docs/updates.md:104` says a kernel panic lands back on the
old slot; with the default flipped it does not. `docs/updates.md:106` says a bad checksum writes
nothing; the inactive root partition has been written by then (`RefusedPushWritesOnlyRootfs`).

## Model

| member | source | states |
|---|---|---|
| `UpdateProtocol.StepSafety` | core/update/service.go:95-174 | From any good state, a step keeps "nothing pending means GRUB, booted slot and last good slot agree; pending means the other slot, with its own timer" if and only if it is a safe step |
| `UpdateProtocol.RunSafety` | core/update/service.go:95-434 | Over a whole run of boots, crashes, pushes, confirmations and timers, that invariant holds at every state if and only if every step is safe |
| `UpdateOutcomes.SafeRunKeepsInv` | core/update/service.go:95-434 | Every safe run ends in a good state |
| `UpdateOutcomes.SlotsAgree` | core/update/service.go:95-174 | From a fresh install: settled means GRUB, booted and last good slot are one; tentative means the last good slot is the other one |
| `UpdateOutcomes.StepWritesOnlyTouched` | core/update/service.go:203-206 | A step changes the image of the inactive slot only, and only by a write |
| `UpdateOutcomes.LastGoodTouchedIff` | core/update/service.go:203-206 | In a good state a write hits the last good slot if and only if the boot is tentative |
| `UpdateOutcomes.GoodRunIff` | core/update/service.go:95-434 | Over any run from a good state: the slots agree at every state and no step writes the slot that is last good then, if and only if every step is safe and nothing is written on a tentative boot |
| `UpdateOutcomes.LastGoodImageSurvives` | core/update/service.go:188-434 | In a good run, whatever is pushed, confirmed or rolled back, the last good slot holds byte for byte what it held when it became last good |
| `UpdateOutcomes.RollbackTargetSurvives` | core/update/service.go:188-434 | Until a confirmation is accepted, the rollback target keeps its name and every byte |
| `UpdateOutcomes.CommittedForGood` | core/update/service.go:95-143 | With nothing pending and no push, the node stays committed to the last good slot: GRUB names it, every boot runs it, and no confirmation is accepted |
| `UpdateOutcomes.PushOutcome` | core/update/service.go:341-421 | Until the next push an update stays exactly as pushed, or the node is committed to the new slot, or back on the old one (row, GRUB, running slot and next boot); committed if and only if a confirmation was accepted |
| `UpdateOutcomes.DeadlineNeverExtended` | core/update/service.go:341-352 | The deadline is 600 s after the push and no later step moves it while the update waits |
| `UpdateOutcomes.NoRollbackBeforeDeadline` | core/update/service.go:131-174 | Through boots, panics, timers, power losses and failures, a run that ends before the deadline leaves the update as pushed, GRUB on it and no rollback under way |
| `UpdateOutcomes.DisarmedUpdateWaits` | core/update/service.go:154-171 | After a confirmation that cannot write its row, or an expired handler that cannot read it, no run without a power loss or push leaves the tentative slot, however far past the deadline |
| `UpdateOutcomes.ExpiredUpdateRollsBack` | core/update/service.go:131-174 | Once the deadline has passed, after any safe run full of failures and refused confirmations two clean power cycles restore the last good slot |
| `UpdateOutcomes.ArmedTimerRollsBack` | core/update/service.go:145-174 | The armed timer reverts GRUB, reboots, and the next boot is settled on the last good slot |
| `UpdateOutcomes.ConfirmCommits` | core/update/service.go:397-421 | A safe confirmation on a tentative boot, whatever came before it, commits the node to the pushed slot and stops the timer |
| `UpdateOutcomes.ConfirmedUpdateSticks` | core/update/service.go:397-421 | After it, any safe run without a push stays committed to that slot |
| `UpdateOutcomes.ClockNeverGoesBack` | core/update/service.go:341-352 | No run turns the clock back, so a passed deadline stays passed |
| `UpdateOutcomes.TentativePushDestroysLastGood` | core/update/service.go:188-206 | Counterexample: a push while tentative overwrites the last good slot and marks it pending |
| `UpdateOutcomes.CrashAfterFlipSkipsConfirmation` | core/update/service.go:324-352 | Counterexample: a crash after the flip boots the new slot with no rollback armed |
| `UpdateOutcomes.ConfirmDuringRollbackIsUndone` | core/update/service.go:154-171 | Counterexample: a confirmation accepted between the two halves of the deadline handler is undone by it |
| `UpdateOutcomes.ConfirmAfterFailedRebootIsLost` | core/update/service.go:154-171 | Counterexample: after a revert whose reboot failed, a confirmation commits a slot GRUB will not boot |
| `UpdateOutcomes.ConfirmOnStaleRowKeepsOldSlot` | core/update/service.go:397-421 | Counterexample: if the boot's row write failed, confirmation records the old slot as last good |
| `UpdateOutcomes.MenuRecoveryLeavesGrubOnFailedSlot` | core/update/service.go:119-130 | Counterexample: choosing the good slot in the menu clears the update but leaves GRUB on the failed slot |
| `UpdateOutcomes.RolledBackIff` | core/update/service.go:95-174 | Over any safe run without push or accepted confirmation: back on the last good slot for good if and only if the daemon started there with its store; otherwise the update is exactly as pushed |
| `UpdateOutcomes.PanickingImageIsNeverLeft` | core/update/service.go:317-323 | From it: an image that panics before the daemon starts stays the GRUB default and pending through any number of panics and past its deadline |
| `UpdateBundle.Produce` | core/update/service.go:208-236 | However the bundle is cut into chunks, pipe, hash and 64-bit byte count see the concatenation |
| `UpdateBundle.ReadMembers` | core/update/service.go:243-296 | The member loop computes the member-by-member scan |
| `UpdateBundle.ScanSucceedsIff` | core/update/service.go:243-296 | The loop gets through if and only if every member is complete and the first of each wanted name stages, or fits the slot and is written in full |
| `UpdateBundle.ScanKeepsFirsts` | core/update/service.go:243-296 | A completed loop leaves exactly the missing names and, for each name, the body of its first occurrence |
| `UpdateBundle.PushFlipsIff` | core/update/service.go:188-352 | A push flips GRUB if and only if the archive is whole, usable and verified and every boot-partition step works; the result then says whether the row was written |
| `UpdateBundle.PushSucceedsIff` | core/update/service.go:188-353 | A push succeeds if and only if the stream ended, the archive is whole, all four members are usable, size and digest match, and every boot-partition and store step works |
| `UpdateBundle.AcceptedEvents` | core/update/service.go:259-352 | An accepted push performs exactly: root image, changed kernel, changed initramfs, flip with row write, in that order |
| `UpdateBundle.InstallEffect` | core/update/service.go:324-352 | Those events install the images, flip GRUB, stamp the row and leave the running slot alone |
| `UpdateBundle.PushInstallsBundle` | core/update/service.go:188-353 | An accepted push leaves the bundle's root image over the inactive slot, kernel and initramfs with the bundle's digests, GRUB on that slot, the row pending for 600 s, and the running slot untouched |
| `UpdateBundle.RootImageLands` | core/update/service.go:286-290 | Byte by byte: the root image from offset 0 of the slot, every later byte as before |
| `UpdateBundle.EqualFoldIff` | core/update/service.go:312-315 | On hex texts the digest comparison is equality up to the case of letters, and plain equality on lower case |
| `UpdateBundle.DoneMeans` | core/update/service.go:243-315 | Success means every named member was there and complete, the root image fits, size and digest are the announced ones |
| `UpdateBundle.RefusalsAreRight` | core/update/service.go:309-315 | A bundle that unpacks is refused for size or digest if and only if that is wrong, the size first |
| `UpdateBundle.EarlyRefusals` | core/update/service.go:192-301 | Staging, slot lookup, broken archive and broken stream each stop a push exactly when they fail, in that order |
| `UpdateBundle.MissingAreNamed` | core/update/service.go:302-308 | A refusal for missing members names exactly the required names that do not occur |
| `UpdateBundle.RefusedPushWritesOnlyRootfs` | core/update/service.go:243-315 | A push refused no later than the checksum changes nothing except the inactive root partition |
| `UpdateBundle.TooLargeWritesNothing` | core/update/service.go:274-284 | A bundle refused as too large has a first root image bigger than the slot, and no byte was written |
| `UpdateBundle.PushShape` | core/update/service.go:188-353 | Every push, refused or not, is writes beginning with the root image and then at most the flip; the flip happens if and only if the result is success or a failed row write |
| `UpdateBundle.PushWritesIff` | core/update/service.go:243-296 | A push writes the inactive slot if and only if the loop gets, through complete and usable members, to a root image that fits |
| `UpdateBundle.PushWritesImage` | core/update/service.go:286-290 | For every push that writes, byte by byte: the first root image as far as the device took it, every other byte as before |
| `UpdateBundle.PushTouchesLastGoodIff` | core/update/service.go:203-206 | In a good state every push, refused ones included, overwrites the last good slot if and only if it writes at all on a tentative boot |
| `UpdateBundle.PushIsGoodIff` | core/update/service.go:188-353 | For every push, judged from stream, node and environment: slots agree and the last good slot is unwritten at every state if and only if it writes nothing, or the boot is not tentative and a flip it gets to is recorded |
| `UpdateBundle.CutPushIsGoodIff` | core/update/service.go:188-353 | A push that loses power after any of its steps keeps both if and only if nothing was written yet, or the boot is not tentative and it is not a whole push with an unrecorded flip |
| `UpdateBundle.FlipCutIsGoodIff` | core/update/service.go:336-352 | The one cut inside a step, between flip and row write, keeps both if and only if an update was in doubt already and the boot is not tentative |
| `UpdateBundle.RefusedPushDestroysRollbackTarget` | core/update/service.go:259-315 | Counterexample: any bundle that unpacks but fails its checksum on a tentative boot; the rollback then returns to a slot holding its root image |
| `UpdateServices.UpdateService.constructor` | core/update/service.go:72-81 | A freshly started daemon views the machine as it is, with no timer |
| `UpdateServices.UpdateService.OnStartup` | core/update/service.go:95-174 | Startup is the protocol's boot step on the detected slot; in development mode nothing changes |
| `UpdateServices.UpdateService.RollbackAndReboot` | core/update/service.go:426-434 | GRUB goes to the target if the rewrite works; the reboot is tried either way |
| `UpdateServices.UpdateService.Confirm` | core/update/service.go:397-421 | Confirmation is the protocol's step; it commits if and only if the pending slot is the booted one and the store works; each refusal is told apart and changes nothing |
| `UpdateServices.UpdateService.DeadlineRead` | core/update/service.go:154-162 | First half of the deadline handler, as the protocol's step |
| `UpdateServices.UpdateService.DeadlineAct` | core/update/service.go:163-171 | Second half, as the protocol's step |
| `UpdateServices.UpdateService.CopyToBoot` | core/update/service.go:511-538 | The copy has exactly the effect of its protocol events and reports whether it worked |
| `UpdateServices.UpdateService.InstallBoot` | core/update/service.go:324-352 | Kernel, initramfs, flip and row write run as the planned events, also when one fails part-way |
| `UpdateServices.UpdateService.FlipAndRecord` | core/update/service.go:336-352 | The flip and the row write are the protocol's step, also when the row write fails |
| `UpdateServices.UpdateService.ReceiveBundle` | core/update/service.go:188-353 | Result and effect of a push are those of the planned protocol events, for every stream, chunking and failure |
| `GrubConfig.RewriteGrubDefault` | core/update/service.go:475-509 | The loop replaces the first default line by that of the named slot, `slot_a` or `slot_b`; unknown slot, read error, missing default line and write error are told apart |
| `GrubConfig.FirstDefault` | core/update/service.go:485-491 | The index found is a default line and no earlier line is one |
| `GrubConfig.DefaultLineIsDefault` | core/update/service.go:485-491 | The written line is itself found by the next rewrite |
| `GrubConfig.RewriteChangesOneLine` | core/update/service.go:480-498 | Splitting the rewritten file gives the old lines with only the first default line replaced |
| `GrubConfig.RewriteKeepsBytes` | core/update/service.go:480-498 | Byte for byte, old and new file are the same text before and after that one line |
| `GrubConfig.RewriteRefusedIff` | core/update/service.go:492-494 | The rewrite fails if and only if no line is a default line |
| `GrubConfig.LastRewriteWins` | core/update/service.go:475-498 | Rewriting to one slot and then another is rewriting to the other |
| `GrubConfig.ChosenIsLast` | core/install/installer.go:480-492 | GRUB's choice is what the last default line says |
| `GrubConfig.RewriteTakesEffectIff` | core/update/service.go:475-498 | GRUB then boots the asked-for entry if and only if no later default line overrides it with another |
| `GrubConfig.InstalledText` | core/install/installer.go:480-492 | The installed file splits into its lines: one default line, one kernel line per slot, in entry order |
| `GrubConfig.InstalledBoots` | core/install/installer.go:480-492 | The installed file boots the kernel line of its default slot |
| `GrubConfig.InstalledRewrites` | core/update/service.go:475-498 | Rewriting the installed file gives byte for byte the file installed for the other slot |
| `GrubConfig.EntryLoadsPushedFiles` | core/install/installer.go:484-491 | The literal kernel and initramfs paths of a slot's entry are the files a push writes for it |
| `GrubConfig.ArgsNameSlot` | boot/boot_linux.go:379-393 | Slot detection on a slot's literal kernel line names that slot; its PARTUUID is the disk signature and slotPartitionNumber in two digits |
| `GrubConfig.DetectIff` | boot/boot_linux.go:379-393 | On any command line the first slot word decides, and no slot is detected if and only if there is none |
| `GrubConfig.GrubFollowsRewrites` | core/update/service.go:475-568 | After any number of rewrites, the booted kernel line, the detected slot and the root partition number are those of the last slot asked for |
| `GrubRefinement.FileRunRefinesProtocol` | core/update/service.go:426-498 | With the default kept in the `grub.cfg` text, booted from it and rewritten at every flip and revert, any run is the protocol run, and the file is always the installed file of the protocol's default |
| `GrubRefinement.RunInFamily` | core/update/service.go:475-498 | The same for any boot loader and any family of files closed under rewriting |
| `GrubRefinement.NoDefaultRefuses` | core/update/service.go:492-494 | A file without a default line refuses every rewrite and names no slot to boot |
| `GrubRefinement.RefusedFlipsRecordNothing` | core/update/service.go:336-339 | Over a file that refuses rewrites no run changes the file and no push records a pending update |
| `Workloads.DriveKeepsRow` | core/reconciler/reconciler.go:82-144 | The driver part of a pass changes no row and never touches the other kind's driver |
| `Workloads.ReconcileKeepsRow` | core/reconciler/reconciler.go:82-151 | A whole pass changes neither spec, kind nor desired state, and never touches the other kind's driver |
| `Workloads.PassConverges` | core/reconciler/reconciler.go:82-151 | From any runtime state one successful pass reaches the desired one and reports it; a tombstone is left alone |
| `Workloads.DriftIsCorrected` | runtime/container/driver.go:116-153 | One pass corrects spec drift unless the entry records no hash; after a restart it always does |
| `Workloads.PassIdempotent` | core/reconciler/reconciler.go:82-151 | A second successful pass changes nothing |
| `Workloads.StartRuns` | core/workload/service.go:273-289 | Start makes the row want to run, otherwise as it was; the next successful pass has it running and reports so |
| `Workloads.ApplyRuns` | core/workload/service.go:54-80 | Apply stores the given row but for an observed status; the next successful pass runs the new spec |
| `Workloads.StopRemoves` | core/workload/service.go:244-266 | Stop marks the row stopped and takes its entry down; later passes keep it down and report so |
| `Workloads.RestartRestarts` | core/workload/service.go:215-239 | Restart leaves the row alone; the next pass starts a new instance |
| `Workloads.ApplyRefuses` | core/workload/service.go:336-371 | A bad name, a missing kind, a container without image or a VM without image or kernel and root file system is refused and changes nothing |
| `Workloads.RestartedIff` | runtime/container/driver.go:116-153 | A pass starts a new instance if and only if none is running, or the running one records a spec that is not the desired one |
| `Workloads.FailuresAreReported` | core/reconciler/reconciler.go:111-151 | A pass reports FAILED, with the code's text, exactly when kind, driver, spec or driver call fails, and RUNNING otherwise |
| `Workloads.CrashIsReportedAndRepaired` | runtime/container/driver.go:508-541 | A container that exits before its status is read is reported with its exit code; the next pass starts a new instance |
| `Workloads.DeleteOrphansIff` | core/workload/service.go:94-140 | A delete that reports success drops the row, and leaves neither container nor VM if and only if whatever runs is of the kind it went by and its driver is wired |
| `Workloads.FailedRemovalKeepsEntry` | runtime/container/driver.go:447-505 | A failed removal keeps row and container entry, hash and instance, if perhaps without its task |
| `Workloads.KindChangeOrphansVM` | core/workload/service.go:54-140 | Counterexample: applied as a VM, started, applied again as a container and deleted, the VM runs on |
| `Workloads.RowlessDeleteKeepsVM` | core/workload/service.go:94-103 | Counterexample: deleting a name that has no row never removes a VM |
| `Workloads.UnreadRowOrphansVM` | core/workload/service.go:94-103 | Counterexample: a VM whose row cannot be read is deleted as a container; the row goes, the VM stays |
| `Reconciler.PassIsLocal` | core/reconciler/reconciler.go:82-151 | A pass changes only its own name, in store and runtime |
| `Reconciler.TickAt` | core/reconciler/reconciler.go:71-80 | A tick does exactly one pass to each listed name, whatever the order |
| `Reconciler.TickConverges` | core/reconciler/reconciler.go:71-80 | From any runtime state one successful tick converges every name, keeps every row, and leaves unlisted names, tombstones and the other driver alone |
| `Reconciler.TickKeepsGoodStore` | core/reconciler/reconciler.go:71-80 | A tick keeps rows valid and filed under their name |
| `Reconciler.TickIdempotent` | core/reconciler/reconciler.go:71-80 | A second tick, in any listing order, changes nothing |
| `Reconciler.PassIsPass` | core/workload/service.go:292-303 | Driver call, row read and row write, one after another, are the pass |
| `Reconciler.PassesAreTick` | core/reconciler/reconciler.go:71-80 | A listed tick, taken step by step without interruption, is the tick |
| `Reconciler.RunKeepsGood` | core/workload/service.go:54-303 | Every interleaving of service calls, passes and half-done status updates keeps rows valid and filed under their name |
| `Reconciler.StoppedStaysStopped` | core/workload/service.go:244-266 | Without a stale snapshot or a stale status write, nothing but Start or Apply ever starts a resting name again or makes its row want to run, in any run |
| `Reconciler.PassesEnsureIff` | core/reconciler/reconciler.go:71-80 | Finishing a listed tick starts a name if and only if a queued snapshot still wants it running |
| `Reconciler.StopSticksIff` | core/workload/service.go:292-303 | When the tick under way at a Stop runs to its end, the name is not started and still rests if and only if no queued snapshot and no half-done status update of it wanted it running |
| `Reconciler.StatusWriteUndoesStop` | core/workload/service.go:292-303 | Counterexample: a status update that read the row before a Stop and writes it afterwards undoes the Stop |
| `Reconciler.UnchangedStatusIsNotWritten` | core/workload/service.go:297-300 | A status the row shows already is not written back, so it cannot undo anything |
| `Reconciler.GoneStaysGone` | core/workload/service.go:94-140 | Without a stale snapshot or a row read by a status update, a deleted name stays gone and unstarted through any run until it is applied again |
| `Reconciler.DeleteSticksIff` | core/workload/service.go:292-303 | When the tick under way at a successful Delete runs to its end, the row is still gone and the name was never started if and only if no queued snapshot wanted it running and no status update had read its row |
| `Reconciler.StatusWriteUndoesDelete` | core/workload/service.go:292-303 | Counterexample: a status update around a Delete brings the row back, wanting to run |
| `Reconciler.StatusWriteRevivesStoppedRow` | core/workload/service.go:292-303 | Counterexample: the same with a stopped row, which comes back stopped |
| `Reconciler.TombstoneIsUntouched` | core/reconciler/reconciler.go:85-89 | While marked for deletion a name is not touched by any run of the reconciler or of calls on other names |
| `Reconciler.DeleteThenRetry` | core/workload/service.go:94-140 | A delete whose removal fails leaves a tombstone that survives any run; the retried delete leaves neither row nor container |
| `Reconciler.StaleTickOrphansContainer` | core/reconciler/reconciler.go:71-80 | Counterexample: a snapshot listed before a delete recreates the container, and no later run removes it |
| `WakeChannel.NoLostWakeUpIff` | core/reconciler/reconciler.go:44-80 | In every interleaving: at most one token is queued and an announced, unread change always has a token or a listing coming, if and only if no listing fails on the last token |
| `WakeChannel.NoLostWakeUpFromStart` | core/reconciler/reconciler.go:52-68 | The same from the loop's start |
| `WakeChannel.FailedListLosesWakeUp` | core/reconciler/reconciler.go:72-76 | Counterexample: after two failed listings an announced change has neither token nor listing |
| `WakeChannel.LoopCanMove` | core/reconciler/reconciler.go:52-68 | While an announced change is unread the loop has a move that needs no timer |
| `WakeChannel.ReadWithinThreeMoves` | core/reconciler/reconciler.go:52-80 | Any change is read within three moves of the loop, and two more for each listing that fails |
| `ReconcileLoop.RunKeepsConsistent` | core/reconciler/reconciler.go:52-80 | Every run of calls, timers, ticks and failures keeps rows good, and snapshots and status updates within a tick |
| `ReconcileLoop.FreshTickConverges` | core/reconciler/reconciler.go:71-80 | A tick over a fresh listing, step by step with its status writes, has converged every name once it finishes, and quiet time keeps it so |
| `ReconcileLoop.QuietLoopConverges` | core/reconciler/reconciler.go:44-151 | From any state, however stale snapshot and status update: once calls stop and drivers and store work, four moves of the loop (three if waiting, two if about to list), and two more per failed listing, converge every name |
| `ReconcileLoop.AnnouncedCallIsServed` | core/workload/service.go:45-49 | A successful call leaves a token, so a waiting loop can move without its timer |
| `Capsules.Capsule.constructor` | core/workload/service.go:33-36 | An empty store, no runtime entries, an empty wake channel |
| `Capsules.Capsule.Kick` | core/reconciler/reconciler.go:44-49 | A token is added unless one is queued |
| `Capsules.Capsule.Remove` | runtime/container/driver.go:447-505 | Removal through the kind's driver changes that name only, including what a failed removal leaves |
| `Capsules.Capsule.EnsureContainerRunning` | runtime/container/driver.go:102-305 | Keeps a running container on the desired or an unrecorded spec, replaces any other, changes that name only |
| `Capsules.Capsule.EnsureVMRunning` | runtime/microvm/firecracker/driver.go:106-360 | The same for a tracked VM, with the hash that could be saved |
| `Capsules.Capsule.TaskMoves` | runtime/container/driver.go:508-541 | What becomes of a task between the two driver calls changes that container only |
| `Capsules.Capsule.Apply` | core/workload/service.go:54-80 | The whole new state, each error including the store's, and a wake-up on success only |
| `Capsules.Capsule.MarkDeleting` | core/workload/service.go:98-121 | A row that is read becomes a tombstone unless the write fails; the kind is the row's, or none if it was not read |
| `Capsules.Capsule.Delete` | core/workload/service.go:94-140 | Tombstone, removal, row removal, each stopping the rest if it fails; the result and the wake-up exactly as the code gives them |
| `Capsules.Capsule.Restart` | core/workload/service.go:215-239 | Removes the runtime entry, keeps the row; each of the five results exactly when the code gives it |
| `Capsules.Capsule.Stop` | core/workload/service.go:244-266 | Marks the row stopped and removes the runtime entry, whether or not that works; nothing if the store fails |
| `Capsules.Capsule.Start` | core/workload/service.go:273-289 | Marks the row running with a pending status and touches no runtime; nothing if the store fails |
| `Capsules.Capsule.RecordStatus` | core/workload/service.go:292-303 | Only the status of an existing row changes, and not if the store fails |
| `Capsules.Capsule.DriveContainer` | core/reconciler/reconciler.go:113-123 | The container branch: driver effect and status to write |
| `Capsules.Capsule.DriveVM` | core/reconciler/reconciler.go:124-134 | The VM branch: driver effect and status to write |
| `Capsules.Capsule.DriveOne` | core/reconciler/reconciler.go:82-144 | All branches: driver effect and status to write |
| `Capsules.Capsule.ReconcileOne` | core/reconciler/reconciler.go:82-151 | The code's branches and the status write together are the pass |
| `Capsules.Capsule.List` | core/workload/service.go:88-90 | Every row exactly once |
| `Capsules.Capsule.ReconcileAll` | core/reconciler/reconciler.go:77-79 | The in-place loop over a listing is the tick function |
| `Capsules.Capsule.Tick` | core/reconciler/reconciler.go:71-80 | A tick over a listing of the store, or nothing if the listing fails |
| `PortMap.Int32` | runtime/container/driver.go:355-356 | The 32-bit conversion lands in the signed 32-bit range |
| `PortMap.ToMapping` | runtime/container/driver.go:346-363 | Any port gives 32-bit ports and a non-empty protocol |
| `PortMap.GocniPortMappings` | runtime/container/driver.go:346-363 | Port by port and in order: host to host and container to container (modulo 2^32 from 2^31 on), the protocol lower-cased, or TCP for none |
| `PortMap.EncodePortMappings` | runtime/container/driver.go:377-387 | The loop builds the comma-joined label of the mappings |
| `PortMap.DecodePortMappings` | runtime/container/driver.go:393-420 | The loop decodes the trimmed label, skipping malformed entries |
| `PortMap.ItoaParses` | runtime/container/driver.go:384 | Every signed 32-bit number parses back from its text |
| `PortMap.LabelText` | runtime/container/driver.go:384 | The label spells host port, container port and protocol in that order, one entry after another |
| `PortMap.DecimalText` | runtime/container/driver.go:384 | Numbers are written most significant digit first |
| `PortMap.MalformedIsSkipped` | runtime/container/driver.go:399-412 | An entry without a slash, or without a colon before it, is passed over and the others decode |
| `PortMap.EntryDecodes` | runtime/container/driver.go:377-420 | Every entry decodes back to its mapping, whatever its protocol |
| `PortMap.DecodeEncode` | runtime/container/driver.go:377-420 | Without commas, decoding gives the list back but for white space at the end of the last protocol |
| `PortMap.ReplayExactIff` | runtime/container/driver.go:346-420 | For any ports, teardown decodes exactly the mappings setup used if and only if no protocol holds a comma and the last does not end in white space |
| `PortMap.SomeProtocolsAreLost` | runtime/container/driver.go:377-420 | Counterexample: the protocols "tcp,udp" and "tcp " do not come back, whatever the ports |
| `LogLines.PrefixedWriter.constructor` | runtime/microvm/firecracker/driver.go:35-40 | Nothing written, no tail |
| `LogLines.PrefixedWriter.Write` | runtime/microvm/firecracker/driver.go:40-58 | The complete lines of tail plus input go out prefixed, the rest is kept, and the whole input is reported written |
| `LogLines.LinesCover` | runtime/microvm/firecracker/driver.go:40-58 | Lines and rest are the input, each line ending at its only newline |
| `LogLines.LinesUnique` | runtime/microvm/firecracker/driver.go:40-58 | There is no other cut: whole lines followed by an unfinished one are found again as given |
| `LogLines.WriteChunks` | runtime/microvm/firecracker/driver.go:40-58 | Writing chunks one by one to the object gives the output and tail of the chunk-by-chunk function |
| `LogLines.ChunkingIsInvisible` | runtime/microvm/firecracker/driver.go:40-58 | Output and tail depend on the concatenated input only, not on how it was cut into writes |
| `LogLines.WriterRoundTrip` | runtime/microvm/firecracker/driver.go:40-58 | Stripping the prefixes and appending the tail gives back every byte written |
| `LogLines.SeekTail` | controllers/workload.go:225-260 | The backward block scan finds the start of the last n lines, for every block size, with the code's behaviour on empty files and non-positive counts |
| `LogLines.TailStartUnique` | controllers/workload.go:225-260 | That position is determined by content and count |
| `LogLines.TailIsLastLines` | controllers/workload.go:225-260 | What is read from there is exactly the last n lines and any unfinished one |
| `DiskLayout.LayoutForDisk` | core/install/disklayout.go:70-98 | A layout exists if and only if the disk has 13109248 sectors, so on every disk the installer's scan offers; it tiles the disk without gap or overlap up to the 32-bit limit |
| `DiskLayout.PutUint32` | core/install/disklayout.go:109-159 | Four little-endian bytes, nothing else changed |
| `DiskLayout.PutEntry` | core/install/disklayout.go:109-159 | One 16-byte table entry, nothing else changed |
| `DiskLayout.BuildMBR` | core/install/disklayout.go:109-159 | The buffer holds signature, four entries and boot mark, byte by byte |
| `DiskLayout.WriteMBR` | core/install/disklayout.go:109-159 | The first sector becomes those bytes, every later byte stays; open, short-device and sync failures are reported |
| `DiskLayout.LE32RoundTrip` | core/install/disklayout.go:109-159 | Every 32-bit word reads back |
| `DiskLayout.MbrRoundTrip` | core/install/disklayout.go:109-159 | Parsing the written sector gives back the four partitions of any layout |
| `DiskLayout.TableTilesDisk` | core/install/disklayout.go:113-123 | The table read back, in numbers: bootable ESP of 256 MiB at sector 2048, two 2 GiB Linux slots, LVM; each starts where the one before ends, the last at the end of the disk or of 32-bit addressing |
| `DiskLayout.SectorBytes` | core/install/disklayout.go:109-146 | Where signature, boot flag, CHS sentinels and boot mark lie in the sector, and that the rest before the table is zero |
| `DiskLayout.SignatureMatchesGrub` | boot/boot_linux.go:363-374 | The signature read from an installed disk is the one its grub.cfg roots its slots on |
| `DiskLayout.RootIsSlotPartition` | core/update/service.go:563-568 | On an installed disk the signature and partition number a slot's kernel line roots on select the table entry that holds that slot |
| `PartitionCopy.CopyLoop` | core/install/disklayout.go:168-228 | The chunk loop moves exactly the bytes that can be read and fit, changes no other byte, stops for the right reason, and reports rising progress every 16 MiB or less than a chunk later |
| `PartitionCopy.CopyPartition` | core/install/disklayout.go:168-228 | The same for whole partitions, with open, write, read and sync failures told apart and the last report exact |
| `PartitionCopy.PercentagesRise` | core/install/installer.go:438-450 | Shown percentages never fall, never pass 100, and the 64-bit product does not wrap |
| `PartitionCopy.PercentIsFloor` | core/install/installer.go:438-450 | The percentage is the hundredths wholly done; it is 100 if and only if everything is |
| `ReplayCache.JtiCache.constructor` | auth/jti_cache.go:16-18 | An empty cache |
| `ReplayCache.JtiCache.SeenOrAdd` | auth/jti_cache.go:24-32 | Reports whether the identifier was there, and remembers a new one with its expiry |
| `ReplayCache.JtiCache.Sweep` | auth/jti_cache.go:36-44 | Drops exactly the entries whose expiry is not after the given time |
| `ReplayCache.RefusedIff` | auth/jti_cache.go:24-44 | In any history a call is refused if and only if an earlier accepted call of that token has not been swept at or past its expiry |
| `ReplayCache.AcceptancesAreSeparated` | auth/jti_cache.go:24-44 | Two acceptances of one token have a sweep at or past the first one's expiry between them |
| `ReplayCache.AcceptedOnceBeforeExpiry` | auth/jti_cache.go:24-44 | Under a clock that does not go back, a token is accepted at most once before its expiry |
| `FirstBoot.Perm.constructor` | core/install/firstboot.go:35-76 | The object views the given disk |
| `FirstBoot.Perm.ApplyIdentity` | core/install/firstboot.go:78-95 | Identity from the bundle, creation stamp set once; nothing if the store fails |
| `FirstBoot.Perm.ApplyAuthorizedKey` | core/install/firstboot.go:97-127 | Enrols a valid key unless it is enrolled; refuses exactly the malformed ones, and tells a store failure apart |
| `FirstBoot.Perm.WriteTls` | core/install/firstboot.go:133-157 | Both files are left alone if both exist; otherwise each is created and then filled, up to the cut |
| `FirstBoot.Perm.IngestFirstBoot` | core/install/firstboot.go:35-76 | After any number of steps the disk is the specified one, also when a rename or the unlink fails; missing and corrupt bundles are told apart, and an ingest that gets to the unlink completes if and only if the bundle is well-formed |
| `FirstBoot.Perm.StartUp` | auth/tls.go:26-40 | The rest of startup makes an identity and a TLS pair where they are missing, up to a cut between the two files |
| `FirstBoot.Perm.Boot` | cmd/capsuled/main.go:188-239 | An ingest error is only logged: the same boot goes on to make what is missing |
| `FirstBoot.BootMovesGoalIff` | core/install/firstboot.go:133-157 | A boot that does not finish the ingest changes where a complete one will end if and only if it leaves both TLS files there but not as sealed, by a cut, a stray key or its own generated pair |
| `FirstBoot.ScheduleIff` | cmd/capsuled/main.go:188-239 | Any schedule of boots, their ingest ended anywhere by power cut or failed call, then one in which everything works: the outcome is that of one uninterrupted boot if and only if no boot spoils the TLS pair |
| `FirstBoot.EveryScheduleIff` | core/install/firstboot.go:133-157 | That holds for every schedule if and only if both TLS files were there at the start |
| `FirstBoot.TornKeyIsKept` | core/install/firstboot.go:145-157 | Counterexample: a power cut inside the key file leaves a truncated key that no later boot replaces |
| `FirstBoot.FailedCallLosesSealedPair` | auth/tls.go:26-40 | Counterexample: after one failed store call the boot generates its own pair, which every later boot keeps |
| `FirstBoot.CrashIdempotentIff` | core/install/firstboot.go:133-157 | For power cuts between whole writes: every schedule gives the uninterrupted outcome if and only if no foreign private key without certificate was there at the start |
| `FirstBoot.FreshIngest` | core/install/firstboot.go:35-157 | On a fresh disk every unspoiled schedule ends with exactly the sealed identity, one operator key, the sealed TLS pair and no bundle |
| `FirstBoot.RefusedBundleStays` | core/install/firstboot.go:35-76 | A malformed bundle is never removed, however often it is tried; TLS files that are there stay, and only startup fills in missing ones |
| `FirstBoot.BadBundleIsRefused` | core/install/firstboot.go:97-136 | A bad operator key is never enrolled, a bundle with a bad key or without TLS material never removed, and a bundle with neither fault is well-formed |
| `FirstBoot.EnrolledOnce` | core/install/firstboot.go:110-125 | An enrolled key keeps its bytes, name and time through every later boot |
| `FirstBoot.EnrolmentIsStamped` | core/install/firstboot.go:78-118 | The boot that enrols the operator records its own time, and the bundle's identity |
| `FirstBoot.OwnIdentityIsKept` | cmd/capsuled/main.go:477-505 | Without a bundle the first boot that starts up names the capsule and derives its short name; every later boot keeps both |
| `FirstBoot.CorruptBundleIsKept` | core/install/firstboot.go:45-54 | A corrupt bundle is kept under its new name, or left where it is if it cannot be renamed; the ingest changes nothing else |
| `FirstBoot.CreatedOnce` | core/install/firstboot.go:78-95 | The creation stamp, once set, and the record of adoption never move |
| `Volumes.UsersFromWorkloads` | core/volume/service.go:412-430 | The scan lists each workload that mounts the volume, in order |
| `Volumes.UsersIffReferenced` | core/volume/service.go:412-430 | It finds a user if and only if some workload mounts the volume through either spec |
| `Volumes.UsersAreNamed` | core/volume/service.go:412-430 | It lists exactly the names of the workloads that mount the volume |
| `Volumes.VolumeService.constructor` | core/volume/service.go:77 | The object views the given state |
| `Volumes.VolumeService.CreateLV` | core/volume/service.go:238-266 | The volume exists afterwards exactly when it was made and either formatted or not taken back |
| `Volumes.VolumeService.Create` | core/volume/service.go:82-116 | State and result as specified, for every failure |
| `Volumes.VolumeService.RemoveLV` | core/volume/service.go:268-282 | A failed removal whose text says "not found" counts as success and removes nothing |
| `Volumes.VolumeService.Delete` | core/volume/service.go:144-167 | State and result as specified, for every failure |
| `Volumes.VolumeService.Resize` | core/volume/service.go:173-208 | State and result as specified, for every failure |
| `Volumes.PairedIff` | core/volume/service.go:82-167 | A call keeps "every volume has its row" if and only if it is neither a create that fails and cannot undo itself nor a delete of a volume that lvremove wrongly says is not there |
| `Volumes.AlwaysPairedIff` | core/volume/service.go:82-208 | Over any run: every volume has its row at every state if and only if no call strands one |
| `Volumes.MissingGroupStrandsVolume` | core/volume/service.go:274-279 | Counterexample: a delete while the volume group cannot be found reports success, drops the row and keeps the volume |
| `Volumes.FailedUndoStrandsVolume` | core/volume/service.go:110-113 | Counterexample: a create whose row write and undo both fail leaves a volume without a row |
| `Volumes.RunsStayPaired` | core/volume/service.go:82-208 | As long as undo works and lvremove says "not found" only of what is not there, no run leaves a volume without a row |
| `Volumes.ReferencedIsSafe` | core/volume/service.go:144-208 | While referenced, a volume keeps row and exact size through any run without a forced delete |
| `Volumes.WantIsExact` | core/volume/service.go:446-454 | Every accepted size is computed without 64-bit wrap |
| `Volumes.ResizeSucceedsIff` | core/volume/service.go:173-208 | With the size read right: success if and only if the request is valid, the volume detached and the request a working growth or no change; then the room is there; a smaller request is refused as a shrink |
| `Volumes.SizesNeverDecrease` | core/volume/service.go:284-316 | Whatever size is read or asked for, a volume that is never deleted never gets smaller over any run |
| `Volumes.CreateSucceedsIff` | core/volume/service.go:82-116 | Create succeeds if and only if name and size are valid, the name is free and each command works; then row and volume are there at the asked size |
| `Volumes.CreateRefusals` | core/volume/service.go:82-98 | Each refusal of a create says what is wrong, and none changes a row |
| `Volumes.ResizeRefusals` | core/volume/service.go:173-204 | The same for a resize, which leaves the volume as it was unless its command ran |
| `Volumes.DeleteSucceedsIff` | core/volume/service.go:144-167 | A delete reports success if and only if there is no row, or nobody mounts the volume (or it is forced) and both removals go through; in use exactly when mounted and not forced |
| `Volumes.DevicesAreSeparate` | core/volume/service.go:223-229 | Different volumes have different devices, directly under the volume group's directory |
| `Volumes.DeleteLeavesNothingIff` | core/volume/service.go:144-167 | A delete that reports success always drops the row, and leaves the volume if and only if lvremove wrongly said "not found" |
| `Volumes.CallsAreLocal` | core/volume/service.go:82-208 | No call changes any other volume |
| `Volumes.DeleteRetries` | core/volume/service.go:144-167 | A delete that lost its row write is finished by running it again |

## Left out

- `UpdateBundle.Produce`: the producer goroutine and its pipe are one function of the finished stream; that an early error return leaves the producer undrained is not modelled.
- `GrubConfig.RewriteGrubDefault`: a failed write is reported, but what it leaves in `grub.cfg` is not modelled; in the protocol the file is replaced in one step.
- `FirstBoot.Perm.StartUp`: a startup that cannot make an identity ends the boot there; whether a TLS pair that is there loads is not modelled, since it is kept either way.
- `Capsules.Capsule.List`: the listing is in any order, so the source's sorting by name is not stated; no result depends on it.
- `Capsules.Capsule.EnsureContainerRunning`: image pull, mounts, network and cgroup setup are one call that works or leaves an arbitrary entry.
- `Capsules.Capsule.EnsureVMRunning`: image conversion, tap devices and guest boot are one call that works or leaves an arbitrary entry; path checks of the spec are part of that outcome.
- `Reconciler.RunKeepsGood`: a service call is one step; two service calls on one name that overlap each other, or a driver call that overlaps another on the same name, are not modelled.
- `PortMap.GocniPortMappings`: lower-casing maps each character to one character.
- `ReplayCache.AcceptedOnceBeforeExpiry`: token signature and audience checks are not modelled.
- `Volumes.SizesNeverDecrease`: rests on `lvresize` refusing to reduce a volume without its force flag, as the source notes.
- gRPC handlers, the command-line client, mDNS discovery, PKI and the guest agent: request plumbing around the parts modelled here.
- SQLite persistence and the in-memory store: both are taken as maps whose operations may fail.
- Installer phases other than layout, MBR, partition copy and `grub.cfg` (disk scan, filesystem creation, LVM setup): command invocations whose effects are external.
- Log rotation and following, exec sessions, metrics: mostly input and output.
- Row time stamps and restart counters that no decision reads.
