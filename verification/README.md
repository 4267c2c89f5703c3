# OpenPLC Runtime: verified models

This project models the parts of the OpenPLC runtime where concurrency, in-place buffers, crashes
or several implementations of one format make correctness hard to see, and proves what they keep.
`dafny verify dfyconfig.toml` checks all of it.

- **Write journal and process image.** `ImageModel` gives the meaning of one write, force and
  release. `JournalCore` is the journal over real arrays: tables, forced-slot rows, the counted
  fast path. `LockFreeJournal` and `MutexJournal` are the two journal variants as machines of any
  number of threads; `JournalRuns` builds runs of both and `VariantsAgree` compares them.
  `ScanCycle` is copy-in, dirty-diff copy-out and seeding; `DebugQueue` the queue of external writes
  and forces; `ImageSizing` the sizing, allocation and backing of the tables; `TableOrders` the two
  numberings of the tables.
- **Integrity seal.** `BlockHash` is hashing by padded 64-byte blocks for any compression function;
  `Sha256` is FIPS 180-4 on words and the streaming code that buffers byte by byte; `Sha256Vectors` holds
  its functions, constants and published example against numbers from outside it.
- **Bootloader.** `CrashWindow` is the pruned window of crashes and the restart delay;
  `Supervisor` the expected-stop tokens and the goroutine that watches the container; `CrashLoop` what
  its whole runs keep from the gate and from giving up; `Updater` a version change that may be cut
  off at any step.
- **Debugger.** `DebugPdu` handles requests in the frame they arrived in, and reads ranges back.
- **Boot and mode switch.** `BootSwitch` is the boot's decision against plugins that report a switch;
  `SwitchReconcile` what happens to flips during transitions, and `LostFlips` exactly when one can be
  lost.
- **Configuration and stored project.** `Text` holds what the two languages do with text;
  `ImageConf` is image.conf with its writer and both readers; `PluginsConf` the web server's view of
  plugins.conf and `PluginParser` the core's; `SnapshotStore` the stored project and its cache, and
  `SnapshotRuns` what failing clears and probes in the middle of a change do to them.
- `Bytes` and `Options` hold numbers as bytes and the value that may be missing.

Concurrent code is a machine whose steps are the atomic accesses or critical sections of the source,
and a run is any sequence of steps that can be taken. Imperative code is a class or a method over the
same arrays and fields, proved against functions; what the source promises is proved about those
functions and machines.

## Where the code does less than it says

Each of these is a lemma with a run or an input, with the exact condition under which the property
holds.

- `JournalCore.FirstMutexStartRefusesEveryForce`: the mutex variant sizes the forced-slot rows
  before it takes the new table sizes, so on a first start every force is refused. Forcing reaches the
  whole image as `JournalCore.ForcingReachesEverySlot` says.
- `VariantsAgree.OverflowKeepsTheOlderValue`: past a full bank the lock-free variant drops the newest
  write, so the slot keeps the older value. Every add is accepted as
  `LockFreeJournal.EveryAddIsAcceptedExactlyWhen` says, and the images of the two variants are the same
  as `VariantsAgree.SameImageExactlyWhen` says.
- `ScanCycle.ExternalValueSurvives`: an output with no storage in the program, whose slot held
  something at the copy-in, is published as 0 over what others wrote; with no snapshot every output is
  published. The condition is in the same lemma.
- `DebugQueue.TwoPinsAgreeExactlyWhen`: a force whose setter refuses stays forced in the image.
- `CrashWindow.RestartDelay`: the first delay is the base, uncapped; the bound holds exactly when it is
  not the first or the base is within it.
- `Supervisor.AbortedUpdateTakesATokenOfARestart`: an aborted update releases its token twice, and a
  restart that overlaps it is counted as a crash. `Supervisor.NothingIsTakenExactlyWhen` says when
  nothing is taken.
- `Supervisor.RestartDuringUpdate`: the gate is read before the back-off, so an update begun during
  the sleep does not stop the restart. `CrashLoop.GateHolds` says when the watcher acts inside
  recovery or an update.
- `CrashLoop.HealthyReportEndsRecovery`: a healthy report passes no gate and ends recovery, so after a
  crash loop the runtime can be started again by itself. `CrashLoop.StartAfterCrashLoopIsHandedBack`
  says what must have happened before any such start, and `CrashLoop.ReconnectStartsExactlyWhen` when
  the one that resumes after a lost event stream goes through.
- `DebugPdu.SessionIsCompleteExactlyWhen`: a variable larger than a response is skipped without notice.
- `DebugPdu.InfoListsEveryArrayExactlyWhen`: the limit on listed arrays is kept in eight bits, so it is
  254.
- `SwitchReconcile.SlowWorkerLosesAStop`: a worker that is slow between landing and reconciling can
  use up the record of a later flip. `SwitchReconcile.SlowPluginLosesARun`: a plugin that is slow to ask
  can undo what another asked for. `LostFlips.RequestIsSafeExactlyWhen` says which requests leave the
  switch sure to be followed.
- `LostFlips.FlipDuringBootIsLost`: a flip during the boot can be lost to the boot's own start.
  `LostFlips.FollowedSincePowerOnExactlyWhen` says when the switch is sure to be followed from the end of
  the boot on.
- `PluginParser.CoreReadsPluginExactlyWhen`: with no configuration path, the core takes the environment
  path for it. `PluginParser.IndentedCommentIsRead`: an indented comment may be a plugin to the core.
  `PluginParser.LineAgreesExactlyWhen` says on which lines the two readers agree.
- `SnapshotRuns.FailedClearMixesUploads`: a clear that fails can leave the metadata of one upload beside
  the archive of the next. `SnapshotRuns.BuildStaysWholeExactlyWhen` says which builds cannot.
- `SnapshotRuns.ProbeDuringPromoteIsStale`: a probe during a promote can leave the project unadvertised.
  `SnapshotRuns.FillStaysFreshExactlyWhen` says which probes cannot.

## Model

| member | source | states |
|---|---|---|
| `ImageModel.ForceOwnsSlot` | core/src/plc_app/journal_buffer.c:469-512 | from an accepted force to the next force or release of that slot, it holds the forced value at its table's width across any drains |
| `ImageModel.ForceAffectsOnlyItsSlot` | core/src/plc_app/journal_buffer.c:469-512 | a run with a force and the same run without it agree on every other slot, values and forces |
| `ImageModel.LastWriterWins` | core/src/plc_app/journal_buffer.c:457-467 | a drain leaves every unforced slot at the last write to it and every forced slot as it was |
| `ImageModel.RunKeepsValid` | core/src/plc_app/journal_buffer.c:290-467 | any run of writes, forces and releases keeps values within their tables' widths and forces inside the tables |
| `ImageModel.TableWidths` | core/src/plc_app/journal_buffer.c:318-455 | the fourteen tables keep 1, 8, 16, 32 or 64 bits, by the number of the table; a value that fits is stored unchanged |
| `ImageModel.DrainedCellHoldsLast` | core/src/plc_app/journal_buffer.c:290-467 | after a drain every unforced cell holds the last write that names it, at its table's width, and every other cell what it held |
| `ImageModel.ForcedValueIsHeld` | core/src/plc_app/journal_buffer.c:469-512 | an accepted force is held, at its table's width, until the next force or release of that slot |
| `JournalCore.ImageTables.WriteRaw` | core/src/plc_app/journal_buffer.c:290-455 | stores into one cell of one table what the table's width keeps of the value, given table by table; anything out of range changes nothing |
| `JournalCore.ForceMap.Set` | core/src/plc_app/journal_buffer.c:469-512 | marks one slot; the counter stays the number of marked slots |
| `JournalCore.ForceMap.Clear` | core/src/plc_app/journal_buffer.c:515-552 | unmarks one slot; the counter stays the number of marked slots |
| `JournalCore.Journal.IsSlotForced` | core/src/plc_app/journal_buffer.c:266-286 | the zero fast path never misses: the answer is whether the slot is forced |
| `JournalCore.Journal.ApplyPending` | core/src/plc_app/journal_buffer.c:662-724 | the drain loop applies the first count entries in order, dropping writes to forced slots: every other cell ends with the last write that names it |
| `JournalCore.Journal.SetForce` | core/src/plc_app/journal_buffer.c:469-512 | marks the slot, counts it once and writes the value past the drop check, so that the slot holds it at its table's width; accepted exactly for slots inside row and table |
| `JournalCore.Journal.ClearForce` | core/src/plc_app/journal_buffer.c:515-552 | releases the slot; accepted exactly for slots inside row and table |
| `JournalCore.Journal.LockFree` | core/src/plc_app/journal_buffer.c:574-614 | start-up with the rows as long as the longest new table |
| `JournalCore.Journal.Mutex` | core/src/plc_app/journal_buffer.c:753-794 | start-up with the rows as long as the longest table known before |
| `JournalCore.ForcingReachesEverySlot` | core/src/plc_app/journal_buffer.c:155-232 | every slot can be forced exactly when the rows are as long as the longest table |
| `JournalCore.FirstMutexStartRefusesEveryForce` | core/src/plc_app/journal_buffer.c:753-794 | over sizes still zero every force of every slot is refused |
| `LockFreeJournal.FetchAddCountsOneClaim` | core/src/plc_app/journal_buffer.c:554-660 | adding one to the packed control word counts one claim and leaves the bank alone, exactly below 2^31 claims |
| `LockFreeJournal.AppliedOnceInClaimOrder` | core/src/plc_app/journal_buffer.c:629-724 | at every moment of every run the image is the result of the first accepted claims, each once, in claim order |
| `LockFreeJournal.NothingIsLost` | core/src/plc_app/journal_buffer.c:629-724 | after a finished drain with nothing claimed since, every add that returned 0 has been applied and nothing else |
| `LockFreeJournal.OverflowIsReported` | core/src/plc_app/journal_buffer.c:662-700 | each flip reports exactly the adds that returned -1 since the flip before; with those since the last one, the reports account for every add not accepted |
| `LockFreeJournal.EveryAddIsAcceptedExactlyWhen` | core/src/plc_app/journal_buffer.c:629-660 | every add of a run is accepted exactly when at most a bank's worth of adds fall between two flips |
| `LockFreeJournal.DrainWaitsOnlyForAProducer` | core/src/plc_app/journal_buffer.c:662-724 | the drain waits only for a producer between its claim and its publish of that slot |
| `LockFreeJournal.NoSlotIsSharedOrOverwritten` | core/src/plc_app/journal_buffer.c:629-660 | no two producers fill one slot, none a published one |
| `MutexJournal.StoreStaysInside` | core/src/plc_app/journal_buffer.c:817-872 | under every interleaving of adders, drains and flushes no store falls outside the ring |
| `MutexJournal.StoredIsAppliedInOrder` | core/src/plc_app/journal_buffer.c:817-872 | what was applied, followed by what still lies in the ring, is what was stored, in order, and the image is the result of it |
| `MutexJournal.SomeThreadCanGoOn` | core/src/plc_app/journal_buffer.c:817-872 | the lock order cannot deadlock |
| `MutexJournal.ImageChangesForItsOwner` | core/src/plc_app/journal_buffer.c:817-872 | in every run the image changes only in steps of the thread that holds its mutex |
| `MutexJournal.ImageIsGivenBack` | core/src/plc_app/journal_buffer.c:817-872 | taking the recursive image mutex and giving it back, by hand or for a flush, leaves it as it was |
| `JournalRuns.LockFreeRun` | core/src/plc_app/journal_buffer.c:629-724 | whatever the adds, a run of one producer and one drain keeps exactly the first bank's worth |
| `JournalRuns.MutexRun` | core/src/plc_app/journal_buffer.c:817-872 | whatever the adds, a run of one adder that flushes whenever the ring is full keeps all of them |
| `VariantsAgree.SameAddsSameImage` | core/src/plc_app/journal_buffer.c:629-872 | for the same adds, with the same forces and releases at the same places among them, both variants leave the same image once drained |
| `VariantsAgree.SameImageExactlyWhen` | core/src/plc_app/journal_buffer.c:629-872 | for the same adds, refused ones included, the images are the same exactly when the refused change no slot's last value; always when no more than a bank's worth fall between two flips |
| `VariantsAgree.OverflowKeepsTheOlderValue` | core/src/plc_app/journal_buffer.c:629-872 | a run of each variant making the same 40961 adds, after which the slot holds the older value in one image and the newer in the other |
| `ScanCycle.Scan.CopyIn` | core/src/plc_app/image_tables.cpp:834-883 | every bound variable of the range, input, output or memory, ends with the value of its slot, or 0 if it has none, and so does its snapshot; everything else stays |
| `ScanCycle.Scan.CopyOut` | core/src/plc_app/image_tables.cpp:841-892 | queues exactly the outputs that differ from the snapshot, in order and as far as the bank has room, and updates the snapshot |
| `ScanCycle.Scan.Seed` | core/src/plc_app/image_tables.cpp:926-935 | every output and memory member, as far as the bank has room, goes to the image through the journal, which is left empty |
| `ScanCycle.Scan.RunScan` | core/src/plc_app/image_tables.cpp:834-892 | one scan, then a drain, leaves every output and memory variable's value in its unforced slot, and gives the image a write-back of every output would give, as long as the bank held what was queued |
| `ScanCycle.DirtyDiffEqualsWriteBack` | core/src/plc_app/image_tables.cpp:841-873 | committing what changed equals writing back every output, forced slots included |
| `ScanCycle.UntouchedIsPublishedExactlyWhen` | core/src/plc_app/image_tables.cpp:834-873 | from the copy-in on, an output the body left alone is published exactly when it has no storage and its slot held something |
| `ScanCycle.ExternalValueSurvives` | core/src/plc_app/image_tables.cpp:834-873 | with other writers in any order, the slot of an output the body left alone since the copy-in ends with their value exactly when it is forced, or there is a snapshot and the output has storage or its slot held 0 |
| `ScanCycle.InputsAreNeverPublished` | core/src/plc_app/image_tables.cpp:841-846 | copy-out never names an input table, nor a bit that no row has |
| `ScanCycle.SeedingSurvivesTheFirstCopyIn` | core/src/plc_app/image_tables.cpp:919-935 | after seeding, slots hold the initial values and the first copy-in gives them back |
| `TableOrders.OneTablePerAddress` | core/src/plc_app/image_tables.cpp:413-449 | an address is sized, read and written in one and the same table; byte memory has none |
| `TableOrders.ToImageIsOneToOne` | core/src/plc_app/journal_buffer.c:127-142 | the journal's numbering maps one to one onto the image's |
| `TableOrders.KeyNamesItsAddress` | core/src/plc_app/image_tables.cpp:357-449 | the key and the unit in the file name the size and the area of the addresses whose table they size |
| `TableOrders.QueueUsesTheSameTable` | core/src/plc_app/debug_write_journal.cpp:60-89 | the debugger's queue uses the table that copy-in reads; for byte memory, the one that copy-out writes |
| `TableOrders.WriteReachesItsVariable` | core/src/plc_app/debug_write_journal.cpp:105-145 | an external write of a located variable, once drained, is its payload in the slot that the next copy-in reads |
| `TableOrders.ForceReachesItsVariable` | core/src/plc_app/debug_write_journal.cpp:123-170 | an accepted force is what the next copy-in reads |
| `DebugQueue.DecodeValue` | core/src/plc_app/debug_write_journal.cpp:91-103 | a payload is a little-endian number over the size's bytes, one bit for a BOOL |
| `DebugQueue.PayloadByWidth` | core/src/plc_app/debug_write_journal.cpp:91-103 | one byte, or two, four or eight, lowest first; of a BOOL its lowest bit; short payloads as far as they go |
| `DebugQueue.Queue.Enqueue` | core/src/plc_app/debug_write_journal.cpp:211-236 | a request is appended when there is room, its payload cut to the field; otherwise refused |
| `DebugQueue.Queue.Drain` | core/src/plc_app/debug_write_journal.cpp:238-252 | everything accepted is applied once, oldest first, and the queue is left empty |
| `DebugQueue.RequestStaysInItsLane` | core/src/plc_app/debug_write_journal.cpp:123-209 | a write only queues, for the image or for the program; a force or release queues nothing; other operations do nothing |
| `DebugQueue.RequestPinsExactlyWhen` | core/src/plc_app/debug_write_journal.cpp:123-191 | a force pins exactly when the image takes it and the setter does not refuse; a release unpins exactly when the setter does not refuse |
| `DebugQueue.RunActsOnImage` | core/src/plc_app/debug_write_journal.cpp:123-252 | over any run the image is what its forces, releases and drained writes make of it |
| `DebugQueue.RunKeepsAgreement` | core/src/plc_app/debug_write_journal.cpp:123-191 | over any run of requests and drained writes, pinned stays the same as forced, when the setter refuses neither a release nor any force the queue can hold |
| `DebugQueue.TwoPinsAgreeExactlyWhen` | core/src/plc_app/debug_write_journal.cpp:123-170 | the two pins agree after every run exactly when the setter refuses neither a release nor any force the queue can hold, or the slot cannot be forced |
| `DebugQueue.SharedSlotSplitsPins` | core/src/plc_app/debug_write_journal.cpp:123-170 | where two variables share a slot, the pins of one of them disagree after some run |
| `ImageSizing.NeededIsExact` | core/src/plc_app/image_tables.cpp:563-631 | the floor of a table is above every variable in it, and just above one of them |
| `ImageSizing.DeriveFloor` | core/src/plc_app/image_tables.cpp:563-631 | the loop computes that floor for all fourteen tables |
| `ImageSizing.TakeMax` | core/src/plc_app/image_tables.cpp:633-640 | each count becomes the larger of the two |
| `ImageSizing.Flatten` | core/src/plc_app/image_tables.cpp:977-988 | every count becomes the largest |
| `ImageSizing.Image.Alloc` | core/src/plc_app/image_tables.cpp:1045-1208 | all twenty-eight allocations or none: a failure changes nothing, success sets all tables, sizes and the smallest as capacity |
| `ImageSizing.FillTable` | core/src/plc_app/image_tables.cpp:1235-1285 | empty slots get their own cleared cell, others keep what they point to |
| `ImageSizing.Image.FillNullPointers` | core/src/plc_app/image_tables.cpp:1235-1285 | every table is walked to its own length: each empty slot gets its own cleared cell, the others keep what they point to |
| `ImageSizing.LoadProgram` | core/src/plc_app/image_tables.cpp:563-1285 | fourteen tables, per table the larger of configured and needed, or one length for all; every storable variable fits, capacity positive and no table shorter; every slot backed; a failure changes nothing |
| `ImageSizing.EveryVariableFits` | core/src/plc_app/image_tables.cpp:563-631 | every storable variable's index is below its own table's length |
| `ImageSizing.BackedSlotsAreDistinct` | core/src/plc_app/image_tables.cpp:1235-1285 | no two slots share a cell and none is null |
| `BlockHash.BitLengthIsExactBelow` | core/src/drivers/vpp_plugin_seal.c:138-163 | the length field is the exact number of bits exactly below 2^61 bytes |
| `BlockHash.CompleteBlock` | core/src/drivers/vpp_plugin_seal.c:124-136 | the byte that fills the buffer folds one block in and empties it |
| `BlockHash.FinishInOneBlock` | core/src/drivers/vpp_plugin_seal.c:138-163 | with at most 55 bytes left the padded remainder is one block |
| `BlockHash.FinishInTwoBlocks` | core/src/drivers/vpp_plugin_seal.c:138-163 | with more, the zeros run over into a second block |
| `Sha256.ExtendSchedule` | core/src/drivers/vpp_plugin_seal.c:71-84 | the in-place schedule loop computes the message schedule of section 6.2.2 of FIPS 180-4 |
| `Sha256.Mix` | core/src/drivers/vpp_plugin_seal.c:86-112 | the round loop over moving variables computes the rounds of section 6.2.2 |
| `Sha256.Context.CompressBuffer` | core/src/drivers/vpp_plugin_seal.c:71-122 | adds the compression of the buffer into the state |
| `Sha256.Context.Update` | core/src/drivers/vpp_plugin_seal.c:124-136 | any chunk: state, buffer and bit counter stand for the message so far |
| `Sha256.Context.Finish` | core/src/drivers/vpp_plugin_seal.c:138-163 | after the padding the state is the hash of every byte given |
| `Sha256.Context.FinalHex` | core/src/drivers/vpp_plugin_seal.c:138-174 | the text is that hash in hexadecimal |
| `Sha256.HexWordIsInjective` | core/src/drivers/vpp_plugin_seal.c:164-173 | different words print differently |
| `Sha256.HashFile` | core/src/drivers/vpp_plugin_seal.c:176-208 | the seal of a file is the hash of its bytes however reads cut them up; it fails exactly when the file cannot be opened or read |
| `Sha256Vectors.RotationMovesEveryBit` | core/src/drivers/vpp_plugin_seal.c:52-55 | the low bits come out on top and the others move down |
| `Sha256Vectors.ChChooses` | core/src/drivers/vpp_plugin_seal.c:94-99 | each bit from the second word where the first has a one, from the third elsewhere |
| `Sha256Vectors.MajKeepsWhatTwoAgreeOn` | core/src/drivers/vpp_plugin_seal.c:100-103 | what the first two agree on |
| `Sha256Vectors.MajIsDecidedByTheThird` | core/src/drivers/vpp_plugin_seal.c:100-103 | and where they differ the third |
| `Sha256Vectors.RoundConstantsAreCubeRoots` | core/src/drivers/vpp_plugin_seal.c:40-50 | the 64 constants are the first 32 fractional bits of the cube roots of the first 64 primes |
| `Sha256Vectors.InitialHashIsSquareRoots` | core/src/drivers/vpp_plugin_seal.c:57-69 | the initial hash value is those of the square roots of the first eight |
| `Sha256Vectors.SealOfAbc` | core/src/drivers/vpp_plugin_seal.c:71-208 | the published digest of "abc", worked through all 64 rounds: what HashFile gives for any reads that add up to it |
| `CrashWindow.KeepYounger` | bootloader/internal/supervisor/crashwindow.go:60-69 | the in-place filter keeps exactly the entries after the cutoff, in order |
| `CrashWindow.Window.Prune` | bootloader/internal/supervisor/crashwindow.go:60-69 | with a clock that does not run backwards, the list is the history younger than the window |
| `CrashWindow.Window.Record` | bootloader/internal/supervisor/crashwindow.go:42-50 | full exactly when at least the limit of all crashes recorded are younger than the window |
| `CrashWindow.Window.Count` | bootloader/internal/supervisor/crashwindow.go:52-57 | the number of crashes ever recorded that are younger than the window |
| `CrashWindow.FullExactlyWhen` | bootloader/internal/supervisor/crashwindow.go:42-69 | in time order, full means exactly that the limit-th last crash is still young |
| `CrashWindow.RestartDelay` | bootloader/internal/supervisor/crashwindow.go:74-89 | the base times four per further failure, capped; within the cap exactly when not the first or the base is; wrap-around of 64 bits included |
| `CrashWindow.QuadrupledIsExponential` | bootloader/internal/supervisor/crashwindow.go:81-88 | the repeated multiplication is a power of four |
| `Supervisor.AbortUndoesClaim` | bootloader/internal/supervisor/supervisor.go:703-737 | an abort right after a claim restores phase, reason and tokens |
| `Supervisor.AbortThenEndKeepsTokensExactlyWhen` | bootloader/internal/updater/updater.go:152-182 | the abort and the deferred end leave the tokens as they were exactly when there were none |
| `Supervisor.Shared.BeginUpdate` | bootloader/internal/supervisor/supervisor.go:703-718 | refused while updating; otherwise remembers what it displaces and takes a token |
| `Supervisor.Shared.AbortUpdate` | bootloader/internal/supervisor/supervisor.go:723-737 | releases a token and restores what was displaced if the update still owns the phase |
| `Supervisor.Shared.Stop` | bootloader/internal/supervisor/supervisor.go:778-793 | takes a token, and gives it back when nothing was stopped |
| `Supervisor.Shared.MarkHealthy` | bootloader/internal/supervisor/supervisor.go:667-676 | ends failures in a row and sets the phase healthy, whatever it was: the machine's healthy report |
| `Supervisor.Shared.Admit` | bootloader/internal/supervisor/supervisor.go:334-346 | an expected exit uses a token; of any other, one in recovery or an update is ignored and the rest count, by the phase as other goroutines have left it meanwhile |
| `Supervisor.Shared.HandleCrash` | bootloader/internal/supervisor/supervisor.go:348-372 | a crash is recorded and gives up exactly when at least the limit are younger than the window; otherwise a restart after a delay within its bound; whatever other goroutines do after the record |
| `Supervisor.TokensAreOwed` | bootloader/internal/supervisor/supervisor.go:334-363 | in every run tokens never exceed deliberate exits undelivered, stops in flight and claims, and every difference is accounted for |
| `Supervisor.NextCrashIsCounted` | bootloader/internal/supervisor/supervisor.go:334-352 | with nothing outstanding there is no token, and the next crash is recorded unless recovery or an update owns the runtime |
| `Supervisor.EverythingCanBeSettled` | bootloader/internal/supervisor/supervisor.go:334-396 | from any state, every stop in flight, claim, event and step of the watcher can be brought to its end |
| `Supervisor.WindowNeverOvercounts` | bootloader/internal/supervisor/supervisor.go:334-352 | the window holds no more exits than there were crashes, plus tokens aborted updates took |
| `Supervisor.WithoutOverlapOnlyCrashesCount` | bootloader/internal/supervisor/supervisor.go:681-793 | when nothing overlaps the end of an aborted update, a deliberate exit is recorded only in place of a crash that used its token; the converse is in NothingIsTakenExactlyWhen |
| `Supervisor.NothingIsTakenExactlyWhen` | bootloader/internal/supervisor/supervisor.go:723-747 | aborted updates take no token exactly when, at each of their ends, what is outstanding and what found none make up for what was used; with no crash having used one, exactly when nothing overlaps their end |
| `Supervisor.NoRestartAfterCrashLoop` | bootloader/internal/supervisor/supervisor.go:345-379 | maxCrashes exits recorded within the window leave no back-off and no restart after one pending |
| `Supervisor.GivesUpExactlyOnCrashLoop` | bootloader/internal/supervisor/supervisor.go:345-364 | the record that completes them, and no other, makes the watcher give up |
| `Supervisor.GivingUpStops` | bootloader/internal/supervisor/supervisor.go:681-693 | giving up stops a running container with an expected exit and ends in recovery |
| `Supervisor.RestartStarts` | bootloader/internal/supervisor/supervisor.go:365-379 | a crash that is not the last leads to a start after the back-off, whatever others make of the phase meanwhile |
| `Supervisor.WedgedIsStopped` | bootloader/internal/supervisor/supervisor.go:381-396 | a wedged container is stopped without a token, and its exit counts as a crash |
| `Supervisor.AbortRestoresDisplaced` | bootloader/internal/supervisor/supervisor.go:703-737 | whatever happens in between, the abort restores the displaced phase exactly when the update still owns it |
| `Supervisor.AbortedUpdateTakesATokenOfARestart` | bootloader/internal/supervisor/supervisor.go:723-747 | a run in which a restart's own exit is recorded as a crash |
| `Supervisor.RestartDuringUpdate` | bootloader/internal/supervisor/supervisor.go:340-374 | a run in which the back-off ends in a start during an update |
| `CrashLoop.GateHolds` | bootloader/internal/supervisor/supervisor.go:286-396 | whenever the watcher is about to act, the phase let it through when it was read, and recovery or an update owns the runtime by now exactly when the last step since then that set a phase entered one |
| `CrashLoop.GivingUpReachesRecovery` | bootloader/internal/supervisor/supervisor.go:681-693 | from giving up every run stays there for the watcher's next two steps and leaves with the third, into recovery; the container is stopped by then unless the daemon would not or another started it |
| `CrashLoop.NoStartAfterGivingUp` | bootloader/internal/supervisor/supervisor.go:286-396 | after giving up the watcher acts again only when a healthy report or another goroutine has handed the runtime back since recovery was set |
| `CrashLoop.ReconnectStartsExactlyWhen` | bootloader/internal/supervisor/supervisor.go:283-307 | from recovery a lost event stream starts the runtime exactly when the last step to set a phase left recovery and updates |
| `CrashLoop.StartAfterCrashLoopIsHandedBack` | bootloader/internal/supervisor/supervisor.go:283-379 | after maxCrashes exits within the window the only start is that after a lost event stream, and only once recovery was set and the runtime handed back |
| `CrashLoop.HealthyReportEndsRecovery` | bootloader/internal/supervisor/supervisor.go:283-330 | a run in which a healthy report ends recovery and the runtime is started again with the window still full |
| `Updater.BootImageIsAlwaysPresent` | bootloader/internal/updater/updater.go:200-269 | across any updates cut off at any steps, the image of the recorded version is present, and what a power cut leaves is the version, the images and a stopped container |
| `Updater.FailureBeforeSwapChangesNothing` | bootloader/internal/updater/updater.go:152-240 | such a failure leaves spec, container and images, and its abort restores the supervisor's phase |
| `Updater.FailureKeepsEveryImage` | bootloader/internal/updater/updater.go:200-269 | every failure leaves the old image in place |
| `Updater.SuccessRunsTarget` | bootloader/internal/updater/updater.go:200-269 | success means the target is recorded, present and running |
| `Updater.SwapStopsFirst` | bootloader/internal/updater/updater.go:242-244 | once the version is recorded the old runtime is stopped, and its exit expected, before anything is made of the new image |
| `Updater.SuccessRetiresThePrevious` | bootloader/internal/updater/updater.go:252-267 | the last step removes the image of the version before, unless it is the target or the removal fails, and no other |
| `Updater.FailureAfterSwapEntersRecovery` | bootloader/internal/updater/updater.go:152-198 | a version that does not start stays recorded, recovery is entered, and the attempt is over |
| `Updater.Executor.Execute` | bootloader/internal/updater/updater.go:200-269 | whatever the calls answer, the effects are steps of the machine, so every power cut between them is covered; which answers lead to success, and what each outcome leaves recorded, present and running |
| `Updater.Executor.Update` | bootloader/internal/updater/updater.go:115-198 | claim, attempt, abort or recovery, and end are a run of the machine from idle to idle, with phase, reason and tokens after each outcome |
| `Updater.Executor.Save` | bootloader/internal/runtimespec/spec.go:136-171 | the spec file is replaced by a rename or not at all, and a failure restores the version in memory |
| `DebugPdu.CollectReadsAPrefix` | core/src/plc_app/debug_handler.c:157-231 | a response holds the items up to the last dealt with, all but the oversize, and stops only where the next does not fit |
| `DebugPdu.SessionReadsAllThatFit` | core/src/plc_app/debug_handler.c:197-231 | asking again from last + 1 terminates and gives each variable that fits once, in order |
| `DebugPdu.SessionIsCompleteExactlyWhen` | core/src/plc_app/debug_handler.c:197-231 | that is every readable variable exactly when none is oversize |
| `DebugPdu.CollectInto` | core/src/plc_app/debug_handler.c:193-231 | the loop with moving write position builds header and data in the frame; ResponseIsServed says what they are byte by byte |
| `DebugPdu.GetTrace` | core/src/plc_app/debug_handler.c:157-231 | the range response in place equals the one computed from the request |
| `DebugPdu.GetTraceList` | core/src/plc_app/debug_handler.c:234-308 | the list response built over its own request equals the one from an untouched copy |
| `DebugPdu.Info` | core/src/plc_app/debug_handler.c:83-107 | the counts of the arrays, as many as the limit allows |
| `DebugPdu.InfoListsEveryArrayExactlyWhen` | core/src/plc_app/debug_handler.c:91-93 | all arrays are listed exactly up to 254 |
| `DebugPdu.SetTrace` | core/src/plc_app/debug_handler.c:110-154 | the checks in order decide what is queued, from the request as it was, and the status that answers it |
| `DebugPdu.GetMd5` | core/src/plc_app/debug_handler.c:314-340 | the text up to its terminator or 32 characters, then the byte-order mark |
| `DebugPdu.ResponseIsServed` | core/src/plc_app/debug_handler.c:83-367 | what a client finds at each byte of each response: code, status of every refusal, last item, tick modulo 2^32, size and data of a read; counts; text and mark |
| `DebugPdu.Process` | core/src/plc_app/debug_handler.c:342-367 | every request is answered in place by the response to the request as it was, with those bytes |
| `DebugPdu.ResponseFits` | core/src/plc_app/debug_handler.c:83-340 | every response fits the frame |
| `DebugPdu.SetRequestRoundTrip` | core/src/plc_app/debug_handler.c:110-154 | a forcing request reaches the queue as written exactly when its array exists and its value fits |
| `DebugPdu.ListRequestRoundTrip` | core/src/plc_app/debug_handler.c:234-308 | a list request is answered with those reads in that order |
| `DebugPdu.ReadRange` | core/src/plc_app/debug_handler.c:157-231 | a client over the wire gets exactly the variables that fit |
| `BootSwitch.BootNeverLosesRun` | core/src/plc_app/plc_boot.c:60-106 | outside safe mode, with any plugins and interleaving, a switch at RUN has had its start once all is quiet |
| `BootSwitch.BootAnswersWhatItDid` | core/src/plc_app/plc_boot.c:60-106 | the answer is skipped exactly in safe mode, held exactly when the boot last read STOP, begun exactly when it began the start, failed exactly when it last read RUN and was refused |
| `BootSwitch.SafeModeBeginsNothing` | core/src/plc_app/plc_boot.c:60-65 | in safe mode the boot neither looks at the switch nor begins anything, in every run |
| `BootSwitch.BootEnds` | core/src/plc_app/plc_boot.c:82-106 | nothing holds the boot up, five steps of its own are enough, and then requests are no longer held |
| `BootSwitch.NoPluginBeginsWhileHeld` | core/src/drivers/plugin_plc_requests.c:29-78 | while requests are held no plugin changes the PLC |
| `BootSwitch.BootFailsOnlyAfterAStart` | core/src/plc_app/plc_boot.c:72-100 | the boot fails to begin a start only when one was begun before |
| `BootSwitch.EveryStartFollowsRun` | core/src/plc_app/plc_boot.c:60-106 | every start begun comes right after that thread read RUN |
| `BootSwitch.CorrectionIsBegunOrKept` | core/src/plc_app/unix_socket.c:68-92 | a worker's correction is begun, or the flip stays on record for the next worker |
| `SwitchReconcile.SwitchIsFollowed` | core/src/plc_app/unix_socket.c:46-95 | with any number of plugins, from rest to rest the PLC ends where the switch is, or in the error of a failed transition, when every request that goes through is safe |
| `SwitchReconcile.SlowWorkerLosesAStop` | core/src/plc_app/unix_socket.c:68-92 | a run from power-on, without that, in which a STOP is lost |
| `SwitchReconcile.SlowPluginLosesARun` | core/src/drivers/plugin_plc_requests.c:29-78 | a run from power-on with two plugins, in which every request finds the workers quiet, and a RUN is lost |
| `LostFlips.RequestIsSafeExactlyWhen` | core/src/plc_app/unix_socket.c:46-95 | the next request that goes through leaves the switch sure to be followed exactly when no worker is between landing and end, unless it found an error, and the request is for where the switch is or the movement since is on record or about to be |
| `LostFlips.FollowedSincePowerOnExactlyWhen` | core/src/plc_app/unix_socket.c:46-95 | once the boot is over the switch is sure to be followed exactly when the one worker, or a plugin, sees to it; at rest, exactly when the PLC follows it then or has failed |
| `LostFlips.FlipDuringBootIsLost` | core/src/plc_app/plc_boot.c:60-106 | a run from power-on in which a STOP during the boot's start is lost |
| `Text.PyIntOfDecimal` | webserver/image_config.py:170-180 | a written number is read back as itself |
| `Text.PyIntOfNumber` | webserver/image_config.py:170-196 | a number with a sign or none and white space around it is read |
| `Text.PyIntOfGroups` | webserver/image_config.py:170-196 | one underscore between digits is passed over |
| `Text.PyIntOfOtherText` | webserver/image_config.py:170-196 | two underscores, one at an end, or anything else among digits is no number |
| `Text.StrtolOfDecimal` | core/src/plc_app/image_tables.cpp:491-521 | strtol reads a written number and stops behind it |
| `Text.StrtolReads` | core/src/plc_app/image_tables.cpp:491-521 | white space, a sign or none, and digits are read, cut to 64 bits with an overflow |
| `Text.CLinesCutTheText` | core/src/plc_app/image_tables.cpp:469-472 | fgets gives the whole text, in pieces up to a newline or as long as the buffer |
| `Text.PyLinesOfAnyEnds` | webserver/image_config.py:157-160 | lines come back whatever ends them |
| `ImageConf.KeysAndUnits` | webserver/image_config.py:79-95 | the keys of the fourteen tables and their units |
| `ImageConf.FileLines` | webserver/image_config.py:276-309 | the file is comments, the version, and fourteen counts with their units |
| `ImageConf.ReadImageConf` | webserver/image_config.py:132-203 | the line loop over its dictionaries is the fold over the lines |
| `ImageConf.PyTakesTheLast` | webserver/image_config.py:132-203 | whatever the file, each table takes the count and unit of the last line that gives it one, 0 in its own unit if none does |
| `ImageConf.TablesAcceptedExactlyWhen` | webserver/image_config.py:206-273 | accepted exactly when every count is a number in its own unit within its ceiling |
| `ImageConf.ReadConf` | core/src/plc_app/image_tables.cpp:451-561 | the core's line and key loops are the fold over its lines, and an unknown version refuses the file |
| `ImageConf.CoreTakesTheLast` | core/src/plc_app/image_tables.cpp:451-561 | so does each table in the core |
| `ImageConf.PyTakesTheLastVersion` | webserver/image_config.py:157-175 | the web server takes the last version given, -1 for one that is no number |
| `ImageConf.CoreTakesTheLastVersion` | core/src/plc_app/image_tables.cpp:465-488 | and so does the core, 0 for one that is no number |
| `ImageConf.CoreTakesExactlyWhen` | core/src/plc_app/image_tables.cpp:491-538 | a count is used exactly when it is positive, within 65536 elements or 524288 bits, and followed by the table's own unit |
| `ImageConf.OtherVersionsAreRefused` | core/src/plc_app/image_tables.cpp:543-561 | any version but 2 refuses the whole file on both sides |
| `ImageConf.PythonReadsWhatItWrote` | webserver/image_config.py:132-309 | for every counts accepted, the written text reads back as the version, counts and units |
| `ImageConf.CoreReadsWhatPythonWrote` | core/src/plc_app/image_tables.cpp:451-561 | the core reads the same counts, bits rounded up to bytes, ignoring nothing |
| `ImageConf.AcceptedReachesTheCore` | webserver/image_config.py:206-309 | any configuration accepted, written and read back is accepted again, and reaches the core as it was asked for |
| `ImageConf.BitsFitTheirBytes` | core/src/plc_app/image_tables.cpp:530-538 | the bytes hold all the bits, and one less would not |
| `ImageConf.Ceilings` | webserver/image_config.py:102-126 | the ceiling of every table is 65536 elements in the unit of the file |
| `ImageConf.CoreReadIsBounded` | core/src/plc_app/image_tables.cpp:451-561 | whatever the text, no count exceeds the addressable range |
| `PluginsConf.RoundTrip` | webserver/plugin_config_model.py:49-101 | a plugin read from a line is read back from the line written for it |
| `PluginsConf.FourFieldsAreEnough` | webserver/plugin_config_model.py:49-86 | four fields are a plugin by their places, exactly when the fourth is 0 or 1 |
| `PluginsConf.LineOfAPlugin` | webserver/plugin_config_model.py:88-101 | the line written, field by field |
| `PluginsConf.FromFile` | webserver/plugin_config_model.py:153-171 | plugins in order, and every other line with its position |
| `PluginsConf.ToFile` | webserver/plugin_config_model.py:184-209 | writing back puts every plugin and every other line where it was |
| `PluginsConf.WrittenLinesAreFound` | webserver/plugin_config_model.py:154-209 | the lines written are the lines read back |
| `PluginsConf.FileKeepsItsLines` | webserver/plugin_config_model.py:121-215 | every other line stays word for word, every plugin line reads as the same plugin |
| `PluginParser.RemoveNewline` | core/src/drivers/plugin_config.c:11-26 | white space at the end goes |
| `PluginParser.PathIsAcceptable` | core/src/drivers/plugin_config.c:37-75 | the cursor loop decides the acceptable paths |
| `PluginParser.DotDotExactlyWhen` | core/src/drivers/plugin_config.c:44-60 | the scan finds two dots exactly when they are a component of the path |
| `PluginParser.PathAcceptableExactlyWhen` | core/src/drivers/plugin_config.c:37-75 | acceptable exactly when not empty, no component is two dots, and, if contained, it starts with neither separator nor drive |
| `PluginParser.SlashesPart` | core/src/drivers/plugin_config.c:44-60 | slashes and backslashes part components |
| `PluginParser.Tokenizer.Next` | core/src/drivers/plugin_config.c:94-160 | cutting the line buffer in place gives the tokens of the text one after the other |
| `PluginParser.ParseOne` | core/src/drivers/plugin_config.c:86-172 | the fields taken off the buffer in order are those of the line |
| `PluginParser.ParseFile` | core/src/drivers/plugin_config.c:77-177 | the entries of the buffer-sized lines of the text in order, up to the limit |
| `PluginParser.TailIsReadExactlyWhen` | core/src/drivers/plugin_config.c:134-168 | the optional fields are read as written exactly unless only the second is there |
| `PluginParser.CoreReadsPluginExactlyWhen` | core/src/drivers/plugin_config.c:94-172 | the core reads the plugin written exactly when the name is not empty, the path acceptable, and a configuration path there or no environment path |
| `PluginParser.LineIsReadExactlyWhen` | core/src/drivers/plugin_config.c:86-172 | the core takes a line for a plugin exactly when it does not start like a comment, has four fields that are not empty and an acceptable path; these fields, cut to 63 and 255 characters, are the plugin |
| `PluginParser.LineAgreesExactlyWhen` | core/src/drivers/plugin_config.c:86-172 | on which lines, all lines considered, the core reads what the web server wrote back for them |
| `PluginParser.IndentedCommentIsRead` | core/src/drivers/plugin_config.c:86-92 | an indented comment with the fields of a plugin is none to the web server and one to the core |
| `PluginParser.CoreReadsTheSamePlugins` | core/src/drivers/plugin_config.c:77-177 | from a file of such lines, read and written back, the core reads the same plugins in the same order, when it has room for that many |
| `SnapshotStore.StoredProjectIsWhole` | webserver/project_snapshot.py:143-248 | at every point, crashes included, a reported project is whole, of one upload whose build succeeded |
| `SnapshotStore.CacheIsFresh` | webserver/project_snapshot.py:287-308 | what is advertised is a fresh read when probes keep out of the mutating functions |
| `SnapshotRuns.SafeBuildsStoreWholeProjects` | webserver/project_snapshot.py:143-248 | clears may fail: a reported project is whole at every point when every build starts with nothing to promote or an archive and metadata that match |
| `SnapshotRuns.BuildStaysWholeExactlyWhen` | webserver/project_snapshot.py:194-248 | a build leaves the store whole whatever becomes of it exactly when it starts so |
| `SnapshotRuns.AdvertisedIsFresh` | webserver/project_snapshot.py:287-308 | what is advertised is a fresh read when each probe fills the cache with what still holds and will not change under it |
| `SnapshotRuns.FillStaysFreshExactlyWhen` | webserver/project_snapshot.py:287-308 | filling the cache leaves what is advertised fresh exactly then |
| `SnapshotRuns.FailedClearMixesUploads` | webserver/project_snapshot.py:143-208 | a run of two uploads, the second with failed clears, that leaves the first's metadata beside the second's archive |
| `SnapshotRuns.ProbeDuringPromoteIsStale` | webserver/project_snapshot.py:194-308 | a run of one upload in which a probe during its promote leaves the project unadvertised |
| `SnapshotStore.Store.Clear` | webserver/project_snapshot.py:143-156 | files go in any order; none is left; the effects are steps of the machine |
| `SnapshotStore.Store.Stage` | webserver/project_snapshot.py:159-191 | both staged files or nothing; the effects are steps of the machine |
| `SnapshotStore.Store.Promote` | webserver/project_snapshot.py:194-208 | both files are replaced or the staged ones dropped; the effects are steps of the machine |
| `SnapshotStore.Store.DiscardStaged` | webserver/project_snapshot.py:211-221 | the staged files go; the effects are steps of the machine |
| `SnapshotStore.Store.Upload` | webserver/plcapp_management.py:860-869 | a whole upload, whatever was stored, is a run of the machine, and a project is reported afterwards exactly when one came with it and everything went through |
| `SnapshotStore.Store.AdvertisedFields` | webserver/project_snapshot.py:287-308 | the cache if there is one, otherwise a read that fills it |

## Left out

- The drain's bounded wait for a slot that is never published, start-up and clean-up racing with live
  producers, and more than 2^31 claims between two flips: exactly-once does not hold there. They are
  not steps of `LockFreeJournal`.
- `%MB` variables: copy-out and the debug queue send them to the output bytes, although no such table
  exists. `TableOrders.OneTablePerAddress` states it; the properties of `ScanCycle` exclude them.
- LockFreeJournal and MutexJournal are machines only: an add is several steps that others come between.
  The drain loop over the real arrays is `JournalCore.Journal.ApplyPending`.
- Weak memory: atomics are sequentially consistent steps; publishing is what lets the drain go on.
- The journal's sequence numbers, null image slots, and the checks that a component was initialised.
- A forced-slot byte is eight separate bits; the drain's load, apply and clear of one slot is one step.
- Writes that bypass the journal, such as zeroing the outputs, and the direct write window.
- ScanCycle.Scan: its journal keeps a bank's worth, as the lock-free one does; the mutex one empties
  itself when full, which `MutexJournal` models.
- VariantsAgree.SameImageExactlyWhen: runs without forces between the writes; with them,
  `VariantsAgree.SameAddsSameImage` compares runs that accepted the same adds.
- Sha256: comparing the seal with its list, and path handling.
- Sha256Vectors.RoundConstantsAreCubeRoots: takes the first 64 primes as a list of numbers.
- Supervisor: creating, replacing and pulling for the container, health polling, discovery hooks; other
  goroutines' starts, stops and phase changes are steps that may happen at any time. Every exit gives
  one event and none is lost.
- Updater: progress wording, the disk-space estimate, and other goroutines recreating the container
  during an attempt. What the daemon answers is a parameter.
- DebugPdu: values do not change during a session; the write queue's answer is a parameter.
- BootSwitch and SwitchReconcile are machines only: their code is a few accesses to shared atomics,
  which any other thread may come between. A worker that cannot be spawned, editor commands, and the
  time limit on waiting for a landing are not in them.
- LostFlips.RequestIsSafeExactlyWhen: requests after the boot, when those before found the workers
  quiet.
- ImageConf and PluginsConf: white space and digits are ASCII, and the wording of the comment lines is
  a parameter. Writing to a temporary file and renaming is one step.
- PluginParser: one character is one byte, and a field is a value rather than a fixed-size array.
  `PluginParser.CoreReadsTheSamePlugins` covers lines that fit the line buffer.
- SnapshotStore: metadata normalisation and the size limit; the archive's bytes are one value. A file
  that exists when it is checked still exists when it is replaced.
- Plugin update helpers, EtherCAT routes, accounts, upload checks, HTTP, Docker and sockets: plumbing or
  easy members.
