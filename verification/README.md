# Verified models of the PrivDNS Gateway control plane

A Dafny 4.11 model of the parts of PrivDNS Gateway that change a running gateway, with proofs about every
input, every run and every crash point. `dafny verify dfyconfig.toml` checks everything.

| files | what they model |
|---|---|
| `Tx*.dfy` | the configuration transaction engine: staging, commit, rollback, crash recovery, and aborts that take no lock |
| `Job*.dfy` | the maintenance job store and its mutual exclusion |
| `Model*.dfy`, `GroupGraph.dfy` | the canonical model: validation, deletion, renaming, migration, rebinding |
| `Route*.dfy`, `Render*.dfy` | the bot's route interpreter and the rendered Mihomo configuration |
| `Notifier*.dfy` | the per-recipient health notifier |
| `Base128.dfy`, `Wire.dfy`, `WirePatch.dfy` | protobuf varints, fields and the coordinate patch |
| `SlidingWindow.dfy`, `Limiter.dfy` | the Web rate limiter |
| `Nft*.dfy` | splicing the project's table into `nftables.conf` |
| `Decimal.dfy`, `Profile*.dfy` | the profile reader and the Android/iOS rewrite |

## How the models are built

The three state machines with durable state (transactions, jobs, notifier) are written twice. A protocol
module has one function per durable step; theorems are proved by induction over every sequence of steps, with a
crash possible between any two. A class then does what the source does, loop by loop, and every method is proved
to be a run of that protocol: its ghost field `events` lists the steps it took. What validators, probes, services,
copies, writes and sends answer is an argument (`Probe`, `Repair`, `Answer`), so each outcome is decided, and the
theorems bind the code of the class whatever fails and wherever it stops. The other components are imperative methods
proved against specification functions. The `*Meaning` modules and lemmas say what these functions compute in terms
that do not name them: which inputs are accepted, and what the result holds.

Conditions the models rest on:

- A SHA-256 is represented by the content it digests. Writing a file, removing it and saving a record are atomic.
- Transactions: candidates are functions of the contents a caller read; each such file is read once and then
  staged or watched, and each target is staged once; a transaction's plan is what its caller has staged and watched
  when it commits; transaction ids are never reused; `recover` reads the record and takes the lock as one step;
  `pdg tx apply` starts from a durable PREPARING record; only the engine writes the files between check and commit.
  Service actions, validators and probes are arbitrary answers of the environment; a write happens or has no effect.
- Jobs: the clock does not run backwards, job ids are not reused, one locked section reads the clock once, and
  the boot id is read reliably. Whether `systemctl` tells the truth is a parameter of the model.
- Names: `normalize_name` is an abstract partial function that is idempotent and the identity on machine tags.
  `ModelStory.SampleIsValid` shows that every such function accepts some model.
- Notifier and limiter: time is an exact number, not a float, and not negative. The limiter reads its clock before it
  takes the lock; a locked section comes with a time at most `skew` before the latest one seen, for any `skew`.
- Route: domain names are lower case; a connection carries a domain and at most one listener; an address
  rule without resolving never matches a domain.
- nftables: a line comes with what the scanners' patterns say of it (its kind and its braces outside comments and
  strings); the shape checks of the table are an arbitrary function of its lines.

## What the proofs found

1. **A deletion can be lost without an error.** `stage` remembers whether the file existed at that moment, while
   its precondition may come from an earlier read. If the file is missing only in between (another transaction
   removed it and rolled back), the deletion passes every check, is skipped and the transaction commits.
   `TxTheorems.CommitIsSerialIff` says that this is the only way in which a commit can differ from running alone;
   `TxStory.ADeletionCanBeLost` is the run.
2. **`pdg tx abort` takes no lock.** It checks a record once and later saves ABORTED over whatever is there, while the
   owner goes on with what it has in memory. `TxAbortStory.SoundIffCareful` gives the exact condition over all runs:
   crashes stay recoverable and an ABORTED transaction never wrote exactly if aborts land only where the owner is
   gone and the record is PREPARING or VALIDATED (or ABORTED already). The command checks the phase only, earlier
   and without asking for the owner. `TxAbortStory.AbortOfALiveWriter` and `TxAbortStory.AbortBeforeApplying` are
   the runs in which a live owner is hit before it has written anything, `TxStory.StaleAbortCanStrand` one in which
   it had. `TxTheorems.StaleAbortHarmlessIff` says which aborts of a stuck transaction without an owner do no harm.
3. **Job exclusion hangs on two conditions.** It holds over all runs exactly if `systemctl` reports inactive or
   failed only of finished runners and each run limit, the launch delay and one second fit into the "unknown"
   limit (`JobTheorems.ExclusiveIffSafe`). With the limits in the source that leaves 299 seconds between a
   claim and its command (`JobTheorems.SourceLimitsSafeIff`).
4. **`rebind_direct_preserve_schema` refuses other spellings.** It compares stored references with the direct tag
   byte by byte, so a reference that only normalizes to the tag makes it fail where `rebind_direct` succeeds
   (`ModelMigrate.RebindCommutesWithMigration`, `ModelStory.ASpellingBlocksRebinding`).
5. **`use` may dangle in the rendered file.** Validation asks only that a used proxy provider has an entry; one that
   is not a mapping is never rendered (`Render.UsesAreClosedIff`, and `RenderStory.AUseCanDangle` at a valid model). The
   transaction's own model validator refuses such an entry (deploy/bot/pdgtx.py:722-728), and behind it every name
   resolves (`RenderStory.CheckedModelsAreClosed`), so this reaches only a configuration that did not come through a
   transaction.
6. **The splice is idempotent, and can be undone, only behind settled tables.** If a table before the splice point is
   left open, or hides a line that opens the project's table, the next run refuses the file or changes it again, and
   removing the block is refused or does not give back the kept text. `NftTheorems.ReplaceIsIdempotentIff`,
   `NftTheorems.RemoveUndoesReplaceIff` and `NftTheorems.RestoredIff` all have this one condition; on the file of
   `NftTheorems.ACutOffTableStopsTheNextRun` the block goes in once and `NftTheorems.ACutOffTableKeepsTheBlock`
   says that it cannot be removed.
7. **A clock before 1970 silences the notifier.** A first alarm stored at a negative time is refused by the notifier's own
   decoder from then on (`NotifierProtocol.FirstAlarmIsReadableIff`).
8. A profile without a TLS port list gains one with the target's default when it is moved, so the rewrite touches
   more than the platform and the GMS ports (`ProfileRetarget.RetargetChangesTwoValues` states both cases,
   `ProfileRetarget.AnEmptyProfileGainsPorts` is one).
9. **The login bound needs every failure paid for.** No fifteen minutes, less the skew of clock readings that the source
   takes outside the lock, hold more than 30 failures if each failing finish gives back a reservation of its own
   address, which the request handlers ensure however they interleave (`Limiter.SecurityState.HandlersAreBounded`).
   `record_login_failure`, which nothing calls, would not.

## Model

| member | source | states |
|---|---|---|
| TxEngine.Engine.New | deploy/bot/pdgtx.py:1495-1530 | a new transaction is one PREPARING record and a live process |
| TxEngine.Engine.ReadForUpdate | deploy/bot/pdgtx.py:1539-1574 | a read under no lock remembers what it saw as a later precondition |
| TxEngine.Engine.StageTarget | deploy/bot/pdgtx.py:1576-1604 | the precondition is the earlier read, existence is observed now |
| TxEngine.Engine.SetState | deploy/bot/pdgtx.py:1532-1537 | a jump outside the table changes nothing, an allowed one is one protocol step |
| TxEngine.Engine.ApplyTarget | deploy/bot/pdgtx.py:1908-1923 | replace, remove or leave alone is exactly the protocol's write of one target |
| TxEngine.Engine.ApplyNext | deploy/bot/pdgtx.py:1817-1823 | one target is written as staged, or nothing changed; it fails exactly if the write does or a file to delete is gone |
| TxEngine.Engine.SaveMaterials | deploy/bot/pdgtx.py:1858-1905 | succeeds exactly if every copy, the index and the record could be saved; then a complete before-image and the intended content are durable, still before APPLYING |
| TxEngine.Engine.ApplyAll | deploy/bot/pdgtx.py:1817-1823 | goes through exactly if every target can be written; else the targets written so far are as staged and no other file is touched |
| TxEngine.Engine.Rollback | deploy/bot/pdgtx.py:2010-2050 | every target that can be put back is back; ROLLED_BACK exactly if all can and the services come back |
| TxEngine.Engine.PendingRecovery | deploy/bot/pdgtx.py:2242-2246 | finds exactly the other transactions that need recovery, however many records there are |
| TxEngine.Engine.PreconditionsHold | deploy/bot/pdgtx.py:1773-1788 | true exactly if every target and every watched file still holds what was read |
| TxEngine.Engine.Clear | deploy/bot/pdgtx.py:1715-1788 | admits exactly if no other transaction is stuck, there is something to do, no two actions contradict, service guards are met, all gates are good in normal mode (in repair mode they do not matter), nothing read has changed and everything planned is staged or watched |
| TxEngine.Engine.ValidateAll | deploy/bot/pdgtx.py:1789-1804 | true exactly if every candidate passes; deletions have nothing to pass |
| TxEngine.Engine.Execute | deploy/bot/pdgtx.py:1815-1841 | committed, rolled back or ROLLBACK_FAILED is decided by the writes, the actions, the observation and the undoing; the files are then as staged, the old ones, or the old ones as far as they could be put back |
| TxEngine.Engine.Commit | deploy/bot/pdgtx.py:1645-1654 | refused exactly if not admitted or not prepared, and then no file changed and it is ABORTED; else it ends as `Execute` says; no other record changes and the lock is given back |
| TxEngine.Engine.AbortUnstarted | deploy/bot/pdgtx.py:1656-1712 | acts exactly on PREPARING and VALIDATED, touches no other record, and a failure to drop materials changes nothing else |
| TxEngine.Engine.DropBefore | deploy/bot/pdgtx.py:2053-2076 | materials are dropped only of finished transactions, and failing to drop them changes nothing else |
| TxEngine.Engine.Preflight | deploy/bot/pdgtx.py:2321-2363 | computes exactly the targets to restore and the drifted ones, before any write |
| TxEngine.Engine.Recover | deploy/bot/pdgtx.py:2299-2393 | which of its seven answers it gives is decided by record, lock, copies, drift and writes; unless it restores, nothing changes at all; success gives the before-image back, failure keeps the materials and what could be put back |
| TxEngine.Engine.Gc | deploy/bot/pdgtx.py:2276-2296 | what is left is every unfinished record and the newest `keep` finished ones, nothing else |
| TxTheorems.CrashIsRecoverable | deploy/bot/pdgtx.py:1858-1905 | at every crash point of every run a stuck transaction has its full before-image and no drift, and restoring gives the committed files |
| TxTheorems.RecoverStuck | deploy/bot/pdgtx.py:2299-2393 | an unforced `recover` after any crash never reports drift; with readable copies it goes through, and if the files can be written and the services come back it leaves the committed files and nothing stuck |
| TxTheorems.RestoreTwice | deploy/bot/pdgtx.py:2299-2393 | restoring again finds nothing to do and changes nothing |
| TxTheorems.Serializable | deploy/bot/pdgtx.py:1539-1604 | whenever nothing is stuck the files are the committed effects in commit order, and equal to running the committed plans one at a time if no deletion was skipped |
| TxTheorems.CommitIsSerialIff | deploy/bot/pdgtx.py:1908-1923 | a commit equals its plan run alone exactly if no deletion was staged while its file was missing |
| TxTheorems.CommitsIff | deploy/bot/pdgtx.py:1714-1841 | the whole condition under which a commit ends COMMITTED, in terms of records, files, staged targets and answers alone; bad gates stop it in normal mode only |
| TxTheorems.OnlyThePendingWrites | deploy/bot/pdgtx.py:1815-1834 | every change of a production file is made by the one transaction that then needs recovery |
| TxTheorems.AtMostOneStuck | deploy/bot/pdgtx.py:1714-1719 | no run reaches a state in which two transactions need recovery |
| TxTheorems.AbortedNeverWrote | deploy/bot/pdgtx.py:1702-1712 | an ABORTED transaction never wrote a production file, in runs whose aborts find no owner; `TxAbortStory.SoundIffCareful` treats the others |
| TxTheorems.PhasesFollowTheTable | deploy/bot/pdgtx.py:78-92 | records move only along the table or through `recover`, finished ones stay, only finished ones disappear |
| TxTheorems.AllowedMoves | deploy/bot/pdgtx.py:78-92 | the table, move by move |
| TxTheorems.GcForgets | deploy/bot/pdgtx.py:2276-2296 | collection leaves every unfinished record and as many finished ones as it should, all newer than those it drops |
| TxTheorems.EngineIsReachable | deploy/bot/pdgtx.py:1486-2093 | whatever the class does is a run of the protocol |
| TxTheorems.StaleAbortHarmlessIff | deploy/bot/pdgtx.py:2587-2610 | after an abort on a stuck transaction whose owner is gone nothing is left to recover, and the files are the committed ones exactly if every target equalled its saved copy |
| TxTheorems.NothingToRestoreIff | deploy/bot/pdgtx.py:2321-2363 | a stuck transaction has nothing to restore exactly if the committed files are in place |
| TxTheorems.GuardedAbortIsSafe | deploy/bot/pdgtx.py:2587-2610 | aborting an unstarted transaction without an owner is a protocol step |
| TxAbort.CarefulRunsAreProtocolRuns | deploy/bot/pdgtx.py:2587-2610 | with careful aborts, runs with owners working from memory reach only states of the protocol, so all theorems hold of them |
| TxAbort.ProtocolFollows | deploy/bot/pdgtx.py:1532-1537 | while memory and record agree, a step taken from memory is possible exactly if the protocol's step is, and does the same |
| TxAbortStory.SoundIffCareful | deploy/bot/pdgtx.py:2587-2610 | over all runs with lock-free aborts, crashes stay recoverable and ABORTED transactions never wrote exactly if aborts land only without an owner on PREPARING or VALIDATED records |
| TxAbortStory.CarelessBreaks | deploy/bot/pdgtx.py:2587-2610 | for each other case of owner and phase a run that breaks the promises |
| TxAbortStory.AbortOfALiveWriter | deploy/bot/pdgtx.py:1815-1834 | hit between APPLYING and its first write, with the committed files in place, the owner still writes, and nothing can restore them |
| TxAbortStory.AbortBeforeApplying | deploy/bot/pdgtx.py:1815-1834 | hit on VALIDATED just before APPLYING is saved, the transaction gets stuck and no `recover` can start |
| TxStory.ADeletionCanBeLost | deploy/bot/pdgtx.py:1576-1604 | a run in which the only committed plan deletes a file that is still there |
| TxStory.StaleAbortCanStrand | deploy/bot/pdgtx.py:2587-2610 | a run after which an abort leaves changed files and nothing to restore them |
| TxInvariant.Step | deploy/bot/pdgtx.py:1714-2393 | every step of every transaction, recovery and crash keeps the invariant behind these theorems |
| TxInvariant.CommitEffect | deploy/bot/pdgtx.py:1714-1841 | at the end of observation the files are the committed ones with the plan's candidates laid over them |
| TxGates.ActionConflicts | deploy/bot/pdgtx.py:169-187 | accepts exactly the action lists in which no unit is asked to end in two states |
| TxGates.ExpectedMeaning | deploy/bot/pdgtx.py:157-166 | of a consistent list, a unit is expected as each action naming it asks |
| TxGates.ExpectedOrderFree | deploy/bot/pdgtx.py:157-181 | expected states of an accepted list do not depend on the order of its actions |
| TxGates.CheckGuards | deploy/bot/pdgtx.py:1753-1763 | true exactly if every guarded service is in the state that was seen before |
| TxGates.DoActions | deploy/bot/pdgtx.py:1925-1966 | true exactly if every action succeeds |
| TxGates.ServiceStable | deploy/bot/pdgtx.py:381-405 | true exactly for a streak of active samples without a new restart |
| TxGates.ServiceInactiveStable | deploy/bot/pdgtx.py:408-427 | true exactly for a streak of inactive samples, at least one |
| TxGates.Observe | deploy/bot/pdgtx.py:1968-2007 | accepts exactly if named units reached their state and nothing that was good turned bad |
| TxGates.ReachedMeaning | deploy/bot/pdgtx.py:1968-2000 | a unit whose last action stops it must show a streak of inactive samples, any other a streak of active ones and no new restart |
| TxGates.NoRegressionMeaning | deploy/bot/pdgtx.py:1968-2007 | the verdict on accepted actions: every watched unit ends as its actions ask, or was bad before and untouched, and no gate turned bad |
| TxGates.NormalModeStaysGood | deploy/bot/pdgtx.py:1764-1772 | in normal mode an accepted observation means every gate is good |
| TxGates.NamedUnitsReached | deploy/bot/pdgtx.py:1968-2007 | a unit named by an action ended as that action asked, in every mode |
| JobTheorems.MutualExclusion | deploy/web/pdg-web-job.py:395-462 | with safe limits no run overlaps two commands, or a command with a guarded action |
| JobTheorems.ExclusiveIffSafe | deploy/web/pdg-web-job.py:395-438 | exclusion over all runs holds exactly for safe limits and an honest `systemctl` |
| JobTheorems.SourceLimitsSafeIff | deploy/web/pdg-web-job.py:395-438 | the limits in the source are safe exactly up to a launch delay of 299 seconds |
| JobTheorems.ShortLimitsOverlap | deploy/web/pdg-web-job.py:395-438 | for any other limits a run with two commands at once |
| JobTheorems.WorkingIsNeverLost | deploy/web/pdg-web-job.py:395-438 | with safe limits a record whose runner still has work is never declared interrupted |
| JobTheorems.LiveStays | deploy/web/pdg-web-job.py:395-438 | finished records, and those whose unit is seen alive in this boot, stay as they are |
| JobTheorems.OtherBootIsInterrupted | deploy/web/pdg-web-job.py:395-438 | an active record of another boot is interrupted at once |
| JobTheorems.QueuedIsInterruptedIff | deploy/web/pdg-web-job.py:395-438 | a queued record of this boot is untouched for a minute whatever `systemctl` says; then it is interrupted exactly if the unit is inactive or failed, or unknown after five minutes |
| JobTheorems.RunningIsInterruptedIff | deploy/web/pdg-web-job.py:395-438 | a running record of this boot is interrupted exactly if its unit is inactive or failed, at any age, or unknown after the limit of its kind |
| JobTheorems.SourceWaits | deploy/web/pdg-web-job.py:395-438 | that limit is 50 minutes for software updates and 25 for other jobs |
| JobTheorems.FreshJobCanBeClaimed | deploy/web/pdg-web-job.py:395-438 | over every run of one boot, a job queued less than a minute ago is still there unchanged and can be claimed |
| JobTheorems.RecordsStaySound | deploy/web/pdg-web-job.py:194-286 | whatever the limits: one active record, every record valid, no command started twice |
| JobTheorems.TerminalStays | deploy/web/pdg-web-job.py:726-798 | a finished record is never written again |
| JobStore.Store.Get | deploy/web/pdg-web-job.py:705-712 | returns and stores the reconciled record, which is the old one for a job queued less than a minute ago; what reconciling does is in the rows above |
| JobStore.Store.AssertIdle | deploy/web/pdg-web-job.py:454-462 | idle exactly if every reconciled record is finished, so never within a minute of a submission; then only the newest 50 are left |
| JobStore.Store.PruneTerminal | deploy/web/pdg-web-job.py:464-488 | keeps the newest 50 records and nothing else |
| JobStore.Store.Start | deploy/web/pdg-web-job.py:592-689 | accepts exactly a well-formed request on an idle store, so never beside a job queued less than a minute ago; then the job is queued and no other record active |
| JobStore.Store.LaunchError | deploy/web/pdg-web-job.py:662-683 | closes exactly a queued record whose unit systemd never knew |
| JobStore.Store.RunClaim | deploy/web/pdg-web-job.py:730-747 | goes on exactly with a queued record of this boot |
| JobStore.Store.RunCommand | deploy/web/pdg-web-job.py:748-785 | the command starts once, or never if preparing it fails; the answer decides what will be reported |
| JobStore.Store.RunReport | deploy/web/pdg-web-job.py:786-798 | writes the result only into a record that is still active |
| JobStore.Store.Run | deploy/web/pdg-web-job.py:726-798 | from claim to report: runs exactly a queued record of this boot, starts its command once and ends with the status and result its exit asks for |
| JobStore.Store.EnterMaintenance | deploy/web/pdg-web-job.py:490-502 | lets an action in exactly if every reconciled record is finished, so never beside a job queued less than a minute ago |
| JobStore.Store.List | deploy/web/pdg-web-job.py:714-724 | returns the newest 50 records, newest first, each reconciled |
| JobStore.StoreIsReachable | deploy/web/pdg-web-job.py:92-798 | whatever the class does, commands, time and restarts included, is a run of the protocol, so exclusion binds it |
| GroupGraph.Checker.Visit | deploy/bot/pdgmodel.py:515-524 | fails only with a cycle in hand; otherwise ranks everything below the group |
| GroupGraph.Checker.AllAcyclic | deploy/bot/pdgmodel.py:511-526 | accepts exactly the graphs with a strictly decreasing rank, which are those without a cycle |
| GroupGraph.RankedHasNoCycle | deploy/bot/pdgmodel.py:513-526 | a rank rules out every cycle |
| ModelValidate.CheckOutbounds | deploy/bot/pdgmodel.py:461-474 | exactly one direct outbound, distinct legal tags |
| ModelValidate.CheckGroups | deploy/bot/pdgmodel.py:410-440 | distinct legal group names, options in range, no empty group |
| ModelValidate.CheckMembers | deploy/bot/pdgmodel.py:495-511 | every member and provider reference is known, and REJECT appears under one name only |
| ModelValidate.Validate | deploy/bot/pdgmodel.py:443-540 | accepts exactly the models that the declarative definition calls valid |
| ModelValidate.OptionsIff | deploy/bot/pdgmodel.py:427-436 | the options of each group type and their ranges |
| ModelValidate.UrlIff | deploy/bot/pdgmodel.py:427-430 | the accepted URLs are a scheme in any case, then text without white space |
| ModelDelete.Draft.GroupDelete | deploy/bot/pdg-bot.py:915-930 | ends, and removes exactly the least set closed under "no member and no provider left" |
| ModelDelete.Draft.DeleteExit | deploy/bot/pdg-bot.py:3740-3804 | refused exactly for names that are neither group nor proxy; else the least cascade goes, live references stay, dangling ones become the first live target in order, and nothing else changes; an error changes nothing |
| ModelDelete.PruneSieves | deploy/bot/pdg-bot.py:915-930 | what a cascade leaves: the other groups in order, each without the members that are gone and otherwise as it was |
| ModelDelete.DeleteKeepsValid | deploy/bot/pdg-bot.py:3740-3804 | deleting from a valid model gives a valid model |
| ModelDelete.DeleteFromValid | deploy/bot/pdg-bot.py:3740-3804 | on a valid model it succeeds exactly for deletable names, and every ruleset target stays direct or routable |
| ModelDelete.RulesetsFollow | deploy/bot/pdg-bot.py:3768-3785 | a ruleset target that could be routed to still can |
| ModelDelete.DirectIsLive | deploy/bot/pdg-bot.py:3756-3767 | on a valid model the direct exit is always left as a fallback |
| ModelDelete.Draft.RenameReferences | deploy/bot/pdgmodel.py:585-597 | groups, members, final target and rules all follow, nothing else changes |
| ModelDelete.Draft.RenameExit | deploy/bot/pdg-bot.py:3701-3716 | outbound, legacy member lists, references and ruleset targets are renamed together, name by name, and nothing else changes |
| ModelDelete.ValidRenamesPlainly | deploy/bot/pdg-bot.py:3705-3712 | on a valid model there is no legacy list to rewrite, so the two rows below speak of the whole rename |
| ModelRename.RenameKeepsValid | deploy/bot/pdg-bot.py:3675-3716 | renaming to a free legal name keeps the model valid |
| ModelRename.RenameBack | deploy/bot/pdg-bot.py:3675-3716 | renaming back restores the model exactly |
| ModelRename.RenameMeaning | deploy/bot/pdgmodel.py:585-597 | a rename changes one name wherever it stands, and nothing else |
| ModelMigrateSteps.CollectCanonical | deploy/bot/pdgmodel.py:212-227 | groups written as outbounds are collected exactly if their names are legal and distinct |
| ModelMigrateSteps.MergeGroups | deploy/bot/pdgmodel.py:245-275 | merges both legacy representations exactly if they agree, mirrors first |
| ModelMigrateSteps.RebuildProviders | deploy/bot/pdgmodel.py:297-310 | provider names are normalized exactly if none is illegal and no two meet |
| ModelMigrateSteps.Canonicalize | deploy/bot/pdgmodel.py:278-347 | every name and reference is normalized, or the document is refused |
| ModelMigrateSteps.Migrate | deploy/bot/pdgmodel.py:350-407 | lays out, normalizes and validates as the two rows below spell out |
| ModelMigrateMeaning.MigratedMeaning | deploy/bot/pdgmodel.py:212-407 | exactly which documents are accepted, and what comes of them: rules, outbounds, inbounds, providers and tags in order and up to normalized spelling, and for each legacy group outbound the group of its name with its kind, members and defaults |
| ModelMigrateMeaning.MigratedIsStable | deploy/bot/pdgmodel.py:350-407 | a migrated model stored as schema 3 migrates to itself |
| ModelMigrateSteps.RebindDirect | deploy/bot/pdgmodel.py:599-620 | the collision checks, the rename and the final validation as specified |
| ModelMigrateMeaning.ReboundMeaning | deploy/bot/pdgmodel.py:599-620 | exactly which tags are accepted, and that the direct tag changes wherever it stands and nothing else |
| ModelMigrateSteps.Document.RewriteDirect | deploy/bot/pdgmodel.py:641-673 | every representation in the stored document follows the new direct tag |
| ModelMigrateMeaning.RewriteMeaning | deploy/bot/pdgmodel.py:641-673 | what changes in the stored document, place by place |
| ModelMigrateSteps.RebindPreservingSchema | deploy/bot/pdgmodel.py:622-674 | refuses exactly where the specification does |
| ModelMigrate.ReboundNeverFailsLate | deploy/bot/pdgmodel.py:599-620 | once its collision checks pass, the final validation of `rebind_direct` cannot fail |
| ModelMigrate.RebindCommutesWithMigration | deploy/bot/pdgmodel.py:622-674 | the rewritten document migrates to what `rebind_direct` returns, and is refused otherwise exactly for an unnormalized spelling of the direct tag |
| ModelStory.SampleIsValid | deploy/bot/pdgmodel.py:443-540 | every lawful normalization accepts a sample model, so the theorems speak of something |
| ModelStory.SampleCanChange | deploy/bot/pdg-bot.py:3675-3804 | the sample meets the conditions of the deletion and renaming theorems |
| ModelStory.ASpellingBlocksRebinding | deploy/bot/pdgmodel.py:622-674 | a stored document that `rebind_direct` takes and its schema-preserving form refuses |
| Route.RouteInfo | deploy/bot/pdg-bot.py:3911-3985 | the loop with its `uncertain` flag is the recursive reading of the rule list |
| RouteMeaning.CertainIff | deploy/bot/pdg-bot.py:3911-3985 | the interpreter is certain exactly if the first rule that may concern the domain is plain, known to match and routes, everything before it known not to match; or, without one, for the final target |
| RouteMeaning.MalformedIff | deploy/bot/pdg-bot.py:3911-3985 | it rejects the model exactly if it comes to an empty exit before it has an answer, or ends in no doubt and without a final target; in all other cases it is unavailable |
| RouteMeaning.SuffixHitIff | deploy/bot/pdg-bot.py:3904-3908 | a suffix matches itself and what ends in a dot and it |
| RouteMeaning.ContainsIff | deploy/bot/pdg-bot.py:3904-3908 | a keyword matches around any text |
| Route.RulesFromRoute | deploy/bot/sb2mihomo.py:329-358 | rules rendered in order with the final match last, which `RouteMeaning.RenderedRoutes` reads; dropped rules are exactly the unroutable ones |
| RouteMeaning.RenderedRoutes | deploy/bot/sb2mihomo.py:320-358 | any connection goes to the policy of the first rule that acts on it, else of the final target: DIRECT for a direct exit, REJECT for a blocking one, the name itself for any other |
| RouteMeaning.PolicyByExit | deploy/bot/sb2mihomo.py:312-326 | on a valid model that policy follows from the kind of the exit |
| Route.RulesAgree | deploy/bot/sb2mihomo.py:320-358 | whenever the interpreter is certain, the first rendered rule that matches has the mapped target |
| Render.MixedListeners | deploy/bot/sb2mihomo.py:361-379 | one pin rule per listening mixed inbound, to its first pinned exit or the final one |
| RenderMeaning.PinMeaning | deploy/bot/sb2mihomo.py:361-379 | a listener goes to the policy of the exit of the first rule that pins it, else of the final target |
| Render.Assemble | deploy/bot/sb2mihomo.py:453-469 | pins, then interception, go right behind the leading address rejects |
| Render.Layers | deploy/bot/sb2mihomo.py:453-469 | first match over the whole list: a leading address reject, else the pin of the listener, else interception, else the route rules |
| RenderMeaning.EveryConnectionGoes | deploy/bot/sb2mihomo.py:320-469 | where every connection goes, in these layers, told from the model alone |
| RenderMeaning.InterceptedMeaning | deploy/bot/sb2mihomo.py:462-469 | intercepted are the given domains in order but the two retired ones, in any case and with trailing dots |
| Render.RenderConfig | deploy/bot/sb2mihomo.py:382-531 | exits, groups, rules, providers and reports of the rendered file |
| RenderMeaning.GroupsMeaning | deploy/bot/sb2mihomo.py:434-445 | every group, its members under their policy names and otherwise as it was |
| RenderMeaning.ExitsMeaning | deploy/bot/sb2mihomo.py:408-432 | the exits of the file and those reported as not translated, kind by kind |
| Render.RenderingPreservesRouting | deploy/bot/pdg-bot.py:3888-3985 | through the whole file: certain domains go to the mapped target, listeners to their pin, intercepted domains to the interceptor |
| RenderMeaning.CertainMeansItsExit | deploy/bot/pdg-bot.py:3888-3985 | on a valid model a certain target with a direct exit goes out directly, one with a blocking exit is rejected, and any other exit or group takes the connection under its own name |
| Render.NothingDroppedIsProvided | deploy/bot/sb2mihomo.py:343-349 | if nothing was dropped, every ruleset that decides has its provider |
| Render.PoliciesAreClosed | deploy/bot/sb2mihomo.py:393-531 | a valid model without unconvertible exits renders to a file in which every policy and ruleset name resolves |
| Render.UsesAreClosedIff | deploy/bot/sb2mihomo.py:398-405 | `use` names resolve exactly if every used provider is a mapping |
| RenderStory.AUseCanDangle | deploy/bot/sb2mihomo.py:398-405 | a valid model that no rendering gives a file without a dangling `use` |
| RenderStory.CheckedModelsAreClosed | deploy/bot/pdgtx.py:722-728 | a valid model whose providers all are mappings renders to a file in which every name resolves |
| NotifierState.Decode | deploy/bot/healthcheck.py:85-139 | the decoder loop accepts and yields what the specification says, legacy files included |
| NotifierState.StateRoundTrip | deploy/bot/healthcheck.py:207-216 | a good state written out reads back, for whatever recipients there are by then |
| NotifierState.FileReadsIff | deploy/bot/healthcheck.py:85-139 | a file reads as a state exactly if it is a legacy or a current file that says this state |
| NotifierState.RowReadsIff | deploy/bot/healthcheck.py:97-139 | a written row reads back exactly if it is one a notifier may keep |
| NotifierState.LoadedIsFit | deploy/bot/healthcheck.py:187-204 | every accepted file yields a state the run can work on |
| Notifier.Observe | deploy/bot/healthcheck.py:232-251 | a watched recipient has nothing pending only if told exactly these problems, a notice otherwise (or a recovery); retries are at most an hour away; the row stays readable, what was delivered stays, and a settled row stays as it is |
| NotifierProtocol.NewProblemsAreAnnounced | deploy/bot/healthcheck.py:232-251 | problems the recipient was not told are announced at once |
| NotifierProtocol.SameProblemsKeepWaiting | deploy/bot/healthcheck.py:232-251 | the same problems keep a waiting notice waiting, an hour at most, and leave a settled row alone |
| NotifierProtocol.EndIsExplained | deploy/bot/healthcheck.py:232-251 | when problems end, whoever was not told of them hears what they were, whoever was told hears they are over |
| NotifierProtocol.QuietStart | deploy/bot/healthcheck.py:232-251 | without problems before or now nothing is sent, unless a delivered problem is still open |
| NotifierProtocol.LegacyIsToldOnce | deploy/bot/healthcheck.py:85-96 | a legacy list of problems leads to one notice, as nobody knows whether it was delivered |
| NotifierProtocol.WaitsDouble | deploy/bot/healthcheck.py:305-313 | an unconfirmed send is tried again after 10, 20, 40 and then 60 minutes |
| Notifier.Notifier.UpdateLegacyView | deploy/bot/healthcheck.py:282-287 | the shared list changes exactly when all recipients were told the same |
| Notifier.Notifier.Turn | deploy/bot/healthcheck.py:300-313 | one recipient: nothing due, or an attempt that is on disk before the next one; the answer decides whether it counts as delivered |
| Notifier.Notifier.Run | deploy/bot/healthcheck.py:290-316 | any crash leaves a protocol run; how it ends is decided by the file, the problems and the answers: a finished run tried everyone due once, wrote it down, and reports a failure exactly if one send was not confirmed |
| NotifierProtocol.SavedIsAlwaysAccepted | deploy/bot/healthcheck.py:290-316 | over all runs and crashes the file is accepted by every later run, and no retry waits longer than an hour |
| NotifierProtocol.FreshIsReadable | deploy/bot/healthcheck.py:85-96 | a missing file and a legacy file meet what the theorem above asks of the first file |
| NotifierProtocol.FreshIsEarned | deploy/bot/healthcheck.py:187-195 | the same for the next theorem |
| NotifierProtocol.FreshTracks | deploy/bot/healthcheck.py:187-195 | the same for `NothingIsRepeated` |
| NotifierProtocol.RecoveryFollowsProblem | deploy/bot/healthcheck.py:232-251 | a confirmed recovery follows a confirmed non-empty problem notice to the same recipient |
| NotifierProtocol.UnchangedProblemsStayQuiet | deploy/bot/healthcheck.py:232-251 | after a recorded delivery unchanged problems never cause another notice |
| NotifierProtocol.ConfirmedAndSavedIsQuiet | deploy/bot/healthcheck.py:305-313 | a confirmed and saved send leaves that quiet state |
| NotifierProtocol.NothingIsRepeated | deploy/bot/healthcheck.py:290-316 | while no receipt is lost, every notice tells its recipient something new |
| NotifierProtocol.FirstAlarmIsReadableIff | deploy/bot/healthcheck.py:73-77 | a stored first alarm is accepted exactly if its time is not negative |
| Base128.EncodeVarint | deploy/bot/mitm_wloc.py:148-158 | the loop encodes the value modulo 2^64 |
| Base128.ReadVarint | deploy/bot/mitm_wloc.py:174-180 | the index loop reads the varint at that place |
| Base128.ReadStrictVarint | deploy/bot/parse-geosite.py:11-23 | the same with ten bytes and 64 bits as bounds |
| Base128.VarintRoundTrip | deploy/bot/mitm_wloc.py:148-180 | a varint is read back whatever follows it |
| Base128.UvarintMeaning | deploy/bot/mitm_wloc.py:148-158 | the bytes of a number: seven bits each, the lowest first, the top bit on all but the last, none too many |
| Base128.VarintMeaning | deploy/bot/mitm_wloc.py:174-180 | a number is read exactly if some byte ends it, and is what the bytes up to the first such one weigh |
| Base128.StrictIsLaxWithin64Bits | deploy/bot/parse-geosite.py:11-23 | the strict reader accepts exactly what the lax one reads in ten bytes below 2^64, and agrees with it |
| Base128.SignedRoundTrip | deploy/bot/mitm_wloc.py:200-202 | signed 64-bit numbers survive encoding, reading and `_svar` |
| Wire.FieldLayout | deploy/bot/mitm_wloc.py:161-171 | the bytes of a field: number and wire type as one varint, then a varint, four or eight bytes, or a length and as many bytes |
| Wire.DecodeLax | deploy/bot/mitm_wloc.py:183-197 | the loop computes the recursive lax decoder that `_try_fields` and the patch rest on |
| Wire.DecodeStrict | deploy/bot/parse-geosite.py:26-48 | the loop computes the recursive strict decoder of the two rows below |
| Wire.StrictDecodesWhatIsEncoded | deploy/bot/parse-geosite.py:26-48 | decoding the encoding of any list of legal fields returns the list |
| Wire.StrictConsumesExactly | deploy/bot/parse-geosite.py:26-48 | accepted input is legal, read alike by both decoders, and consumed exactly: appended bytes decode on their own |
| Wire.LosslessIff | deploy/bot/mitm_wloc.py:309-329 | `_try_fields` accepts exactly the canonical encodings of non-empty field lists |
| WirePatch.PatchMessage | deploy/bot/mitm_wloc.py:351-375 | the recursive loop computes the specified patch |
| WirePatch.PatchKeepsTheTree | deploy/bot/mitm_wloc.py:351-375 | the patched bytes decode to the same field tree with only the coordinates of location messages replaced, at any depth |
| WirePatch.PatchTwice | deploy/bot/mitm_wloc.py:351-375 | the last patch wins, although lengths change on the way |
| WirePatch.UnchangedIff | deploy/bot/mitm_wloc.py:332-375 | bytes come back unchanged exactly if every location already says these coordinates, so always without one |
| SlidingWindow.Prune | deploy/web/pdg-web.py:230-233 | pruning drops the front up to the cutoff |
| SlidingWindow.FreshMeaning | deploy/web/pdg-web.py:230-233 | what is left is the end of the queue from the first entry after the cutoff on |
| SlidingWindow.SpreadIffWindowsBounded | deploy/web/pdg-web.py:230-262 | times recorded in order are far enough apart exactly if no half-open window holds more than the limit |
| SlidingWindow.SpreadBoundsWindow | deploy/web/pdg-web.py:247-262 | in whatever order they were recorded, no window holds more than the limit of spread entries |
| SlidingWindow.FreshCounts | deploy/web/pdg-web.py:230-262 | a pruned queue holds at least the window of its history and at most that window widened by twice the skew, so exactly it when readings are in order |
| Limiter.PruneMap | deploy/web/pdg-web.py:235-245 | every queue pruned, empty ones gone; the map never outgrows its limit |
| Limiter.SecurityState.GlobalRateAllowed | deploy/web/pdg-web.py:247-262 | admits exactly if the pruned queues of all requests and of the address have room, and what every queue holds then; the first measures the last minute of the history up to the skew |
| Limiter.SecurityState.ReserveLoginAttempt | deploy/web/pdg-web.py:276-293 | reserves exactly if recent failures and reservations leave room in total and for the address; the recent failures measure the last fifteen minutes up to the skew |
| Limiter.SecurityState.FinishLoginAttempt | deploy/web/pdg-web.py:304-318 | gives one reservation back and records a failure if there was one, else leaves the queues alone; what is reserved stays what the run reserved and did not give back |
| Limiter.SecurityState.RecordLoginFailure | deploy/web/pdg-web.py:320-323 | records in both queues, paid for by no reservation |
| Limiter.SecurityState.RecordLocked | deploy/web/pdg-web.py:295-302 | records in both queues, dropping at most the address that was quiet longest; bounds stay if there was room |
| Limiter.SecurityState.ClearLoginFailures | deploy/web/pdg-web.py:325-327 | forgets one address only |
| Limiter.SecurityState.WindowsAreBounded | deploy/web/pdg-web.py:247-318 | after any run of locked sections with clock readings at most `skew` out of order: no minute less `skew` holds more than 2000 admitted requests, and no fifteen minutes less `skew` more than 30 failures if each was paid for |
| Limiter.HandlersPay | deploy/web/pdg-web.py:1118-1208 | however handlers interleave, what stays reserved for an address is one for each open handler, and every failure is paid for |
| Limiter.SecurityState.HandlersAreBounded | deploy/web/pdg-web.py:1118-1208 | so their failures are bounded, and failures and open attempts of one address together never exceed five |
| Limiter.TotalSplit | deploy/web/pdg-web.py:309-316 | the pending total is the sum over the addresses, whichever is looked at first |
| NftScan.ScanBlocks | deploy/bot/nftscan.py:51-87 | the brace-depth scan finds the blocks of the project's table at the top level |
| NftMeaning.BlocksMeaning | deploy/bot/nftscan.py:51-87 | cut at the top level into lines and tables whose braces balance, and at most one at the end that never closes, the blocks are the project's tables in order |
| NftMeaning.StatusMeaning | deploy/bot/nftmerge.py:129-146 | absent exactly without table, guard and naming line; owned exactly with one block of the right shape and no guard twice; stock exactly with one block of that shape; else foreign |
| NftSplice.StripLines | deploy/bot/nftmerge.py:161-185 | the scan keeps exactly the lines that are not the project's and finds the first hit |
| NftMeaning.StripMeaning | deploy/bot/nftmerge.py:161-185 | what is kept are the lines of others in order, and the splice point is where the first piece of the project stood |
| NftMeaning.StripIff | deploy/bot/nftmerge.py:161-185 | lines are kept exactly if every table of the project that is met closes |
| NftSplice.RemoveLines | deploy/bot/nftmerge.py:149-185 | foreign tables are refused, absent ones left alone, owned ones stripped |
| NftSplice.ReplaceBlock | deploy/bot/nftmerge.py:236-265 | the spliced file, blank lines trimmed at both sides |
| NftMeaning.ReplaceMeaning | deploy/bot/nftmerge.py:236-265 | which files are refused and why; else the text of the new file: what was before, an empty line, banner and block, an empty line, what was behind, and a final line break |
| NftMeaning.RemoveMeaning | deploy/bot/nftmerge.py:268-271 | the same for removal, which leaves foreign and stock tables alone |
| NftTheorems.ContentStays | deploy/bot/nftmerge.py:236-265 | solid lines that are not the project's keep content and order, with the block in one place |
| NftTheorems.ReplaceIsIdempotentIff | deploy/bot/nftmerge.py:236-265 | a second replace gives the same file exactly if the part before the splice is settled and opens no table of that name |
| NftTheorems.RemoveUndoesReplace | deploy/bot/nftmerge.py:268-271 | under the condition of the next row, the kept text and what comes back agree line by line; only blank lines at the splice point and at the end may differ, and in a file without the table only those at the end |
| NftTheorems.RemoveUndoesReplaceIff | deploy/bot/nftmerge.py:268-271 | for every file that replace accepts, removing succeeds and gives back the kept text up to blank lines exactly if every table before the splice point is closed there and opens no table of that name |
| NftTheorems.RestoredIff | deploy/bot/nftmerge.py:268-271 | a file without the table comes back up to blank lines at its end exactly under the same condition |
| NftTheorems.ACutOffTableStopsTheNextRun | deploy/bot/nftscan.py:69-71 | a concrete file on which the second replace is not the first |
| NftTheorems.ACutOffTableKeepsTheBlock | deploy/bot/nftmerge.py:149-160 | on that file the block goes in, and removing it is refused as foreign |
| Profile.ReadValues | deploy/bot/pdgprofile.py:80-112 | the loop reads managed entries and refuses malformed or repeated ones |
| ProfileMeaning.ReadMeaning | deploy/bot/pdgprofile.py:80-112 | accepted exactly if no line is an error and no key has two entries, and then says these entries |
| ProfileMeaning.LineSplits | deploy/bot/pdgprofile.py:80-112 | every line is white, or text between white space, so the three rows below cover all lines |
| ProfileMeaning.PairMeaning | deploy/bot/pdgprofile.py:80-112 | a line with `=` is an entry if its key is managed and stands right before it, an error if white space is between, nothing otherwise |
| ProfileMeaning.BareWordIsBadIff | deploy/bot/pdgprofile.py:80-112 | a line without `=` is an error exactly if its first word is a managed key |
| ProfileMeaning.CommentsAreSkipped | deploy/bot/pdgprofile.py:80-112 | white lines and comments say nothing |
| Profile.RewriteLines | deploy/bot/pdgprofile.py:148-161 | lines renewed in place, missing keys appended |
| Profile.RewrittenReads | deploy/bot/pdgprofile.py:115-162 | the rewritten profile is accepted and says the updates over what it said before |
| Profile.RewrittenTwice | deploy/bot/pdgprofile.py:148-162 | rewriting a rewritten profile is rewriting the first one |
| ProfileRetarget.RetargetPlatform | deploy/bot/pdgprofile.py:115-162 | the whole step, refusing exactly where the source raises |
| ProfileMeaning.RetargetIff | deploy/bot/pdgprofile.py:115-141 | accepted exactly if the profile and its port list can be read and, on the way to iOS, a port besides GMS is left |
| ProfileMeaning.PortByPort | deploy/bot/pdgprofile.py:115-141 | afterwards the GMS ports are listed on Android only, any other port exactly if it was before |
| ProfileMeaning.PortsAreWrittenPlainly | deploy/bot/pdgprofile.py:138-141 | the list is written ascending, in decimal, with single commas |
| ProfileRetarget.RetargetChangesTwoValues | deploy/bot/pdgprofile.py:115-141 | only the platform and the TLS ports change, by the GMS ports over the old list or the target's default |
| ProfileRetarget.OtherLinesStay | deploy/bot/pdgprofile.py:148-162 | every other line stays in its place; new lines only follow |
| ProfileRetarget.RetargetIsIdempotent | deploy/bot/pdgprofile.py:115-162 | moving twice to one platform is moving once |
| ProfileRetarget.AnEmptyProfileGainsPorts | deploy/bot/pdgprofile.py:122-141 | a profile that never listed its TLS ports lists the default of its target after a move |
| ProfileRetarget.AndroidAndBack | deploy/bot/pdgprofile.py:129-136 | iOS is accepted exactly if a port besides GMS is left, and then going back restores the Android profile |
| Decimal.NumbersOfJoin | deploy/bot/sb2mihomo.py:114-137 | a comma-joined list of numbers reads back |
| ProfileMeaning.PortsMeaning | deploy/bot/sb2mihomo.py:114-137 | port lists are exactly the decimal numbers with gaps of at most one comma between them, all of them ports |

## Left out

- Real files, owners, modes, links, fsync and flock: replaced by atomic updates, an exclusive lock and a crash step.
- Validators, probes, service managers, HTTP, Telegram, DNS, TLS and all texts and menus: answers of the environment.
- Sets and dictionaries whose order the source fixes by sorting are visited in an arbitrary order where the result
  does not depend on it.
- Python's recursion limit: `visit`, `_has_loc` and `_patch_pb` are modelled without one.
- Bytes of 2^64 / 11 and more: the patch theorems stop below, where patched lengths still fit 64 bits.
- Render.RenderConfig: does not model the fields of a converted proxy, sniffer, ports, secrets and advanced settings;
  a proxy is its name, and `convert_proxy` is taken to succeed for every protocol it knows.
- Render.RenderingPreservesRouting: says nothing where the interpreter itself answers unavailable or malformed.
- ModelMigrate.RebindCommutesWithMigration: documents are typed values, so shapes that JSON allows and the source refuses
  (a list where an object is expected) are outside the model, and durations are numbers.
- TxEngine.Engine.Commit: does not model derivers; a derived target is a candidate like any other.
- TxEngine.Engine.Recover: the runtime state beside the files is one answer of the environment.
- Aborts: what an abort finds and when its save lands are unrelated, as if its check could be arbitrarily old.
- JobStore.Store.Run: stated for a runner alone; beside others its steps are `RunClaim`, `BeginCommand`, `EndCommand`
  and `RunReport`, in any order with everything else.
- JobStore.Store.Start: does not model import files, snapshots on disk and the unit name.
- Notifier.Notifier.Run: a send that Telegram accepted without the bot learning of it counts as unconfirmed.
- Limiter.SecurityState.GlobalRateAllowed: bounds per address hold between evictions and are not stated over windows;
  sessions and password slots are not part of this model.
- NftSplice.ReplaceBlock: does not model the `flush ruleset` check against the live tables, nor `_render_mode`; the block
  is any text with only guards and blanks before its table, as in the shipped template. A banner text
  inside a longer line does not count as a banner.
- `_merge_domain_rules`, `_split_resp`, the legacy Go code, the iOS profiles, diagnostics and reports are not part of
  this model: they add no state that these properties depend on.
