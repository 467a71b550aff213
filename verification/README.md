# Verification of the Abbey deployment and Court programs

A Dafny model of the state machines, transactions, parsers and gates around the Abbey
service: the dependency-graph gate, the managed installer and the two provider cutovers
with their shared lock, the readiness wait, the Court client against a restarting server,
the source scanners and renderers, the streamed tool-call assembler, the qualification
publisher and its consumer, and the content-addressed Court packages.

`dafny verify dfyconfig.toml` checks everything. One module models one component:

- `DependencyGate`: the cargo-metadata half of the accepted-debt gate, with walks, dominators and the worklist search.
- `ServiceProtocol`, `Readiness`, `LaunchdRecord`, `LaunchdLines`: the readiness document, the timed stability wait over an arbitrary sequence of polls, and the launchd record parser, with its lines as they are written.
- `InstallLock`, `InstallPhases`, `InstallTransaction`, `InstallEndings`, `InstallMishap`: the lock directory three programs share; the installer's phases as lists of steps, the class that performs them and their shell order; how every run ends; and one run that ends badly, step by step. A write or removal may work, fail, or fail after taking effect (the configurator's making of the lock directory works or fails); a file is replaced atomically.
- `EnvironmentCutover`: the environment publish/restart/rollback. Renaming and syncing are separate steps there, each of which works or fails.
- `EnvironmentFile`, `EnvironmentGrammar`, `EnvironmentRender`, `EnvironmentSecrets`: the environment parser, the lines it reads as they are written, both renderers, and what becomes of deactivated secrets.
- `EnvironmentKeys`, `EnvironmentLines`, `EnvironmentAgreement`, `EnvironmentPieces`, `EnvironmentDisagreement`: where a key stands in a line, what a rendering keeps, when the parser reads a rendered file as it should, the same told from the pieces of each line, and files with which it does not.
- `Qualification` (with `Json`): the publisher's records and the configurator's validator, over decoded JSON.
- `CourtClient`, `CourtProtocol`, `CourtSession`: the page's mutable state, the page with its requests in flight against the server, and what a session does when its requests get through.
- `CourtRelease`: concurrent preparers of Court packages; SHA-256 is an injective constructor.
- `SourceMask`, `SourcePieces`, `MacroEnd`, `ModuleSize`: both Rust-source maskers, source as it is written, the macro bracket scan and the module-size classification.
- `InstructionMirror`, `MarkedBlock`: the TOML rendering and its reader, and the marker-delimited block.
- `LiquidScan`, `ToolStream`, `Text`, `Wrappers`: the raw-span scanner, the tool-delta assembler, and shared helpers.

Concurrency is modelled by events: a run is any sequence of steps of any processes, in any
order, including kills, restarts and lost or delayed messages. Clocks, launchd, the network
and failing system calls are inputs that range over everything they could do.

Findings, where the code and what is said about it differ (the model follows the code):

- `activity/README.md:80-81` says a restart invalidates outstanding responses. The first adoption does not start a new generation (`activity/court.js:66-69`), so two reads in flight at page load can move the view back across a restart. `FirstAdoptionIsUnprotected` is such a run; `ViewNeverGoesBackIffSafe` is the exact condition.
- `scripts/check-instructions.py:93-94` says JSON and TOML escape the same characters. DEL is not escaped by JSON and not allowed by TOML; `BasicRoundTrip` holds exactly without it.
- `deploy/configure-mlx-primary.py:557-572`: if syncing fails after the environment was replaced and removing the already renamed temporary raises anything but "not found", the exception leaves the new environment in place without a restore and without a report. `Cutover` states that this is exactly when it happens, and what then is in place.
- The renderers break lines at characters the parser does not (form feed, for example), and take fewer characters for blanks. So mlx can turn a valid environment into one the parser refuses, and fm can shorten a setting, join it with the next, or assign a managed key twice (`MlxCanBreakAFile`, `FmCanCutAValue`, `FmCanLoseASetting`, `FmCanAssignTwice`). `AgreesExactly` is the exact condition line by line, `MlxAgreesExactly` the one on the pieces that mlx leaves, `NewlineFilesAgreeExactly` the one for files without such line breaks, and `CutoverReadsBackExactly` the one for the two programs.
- An unmanaged line is not always kept: mlx drops trailing blank lines (`deploy/configure-mlx-primary.py:490-491`); fm drops an empty line that comes to stand behind a carriage return (`FmCanLoseAnEmptyLine`); `UnmanagedLinesSurvive` says which lines last.
- A commit whose journal is in place may still be reported as failed, or be interrupted; a restore that then stops after its first write leaves `"committed"` beside the old binary (`deploy/service_transaction.py:717-731`). Only a retained run can end so. `WhenTheJournalStillHolds` is the exact condition, `InstallMishap` such a run from its first step to its last, with `ACommittedJournalBesideTheOldBinary` at its end.
- A failed acquisition of the lock passes on its first error alone, whether or not the directory was removed (`deploy/configure-mlx-primary.py:149-165`, `deploy/service_transaction.py:513-519`): `AFailedAcquisitionDoesNotTell`. `EndsTellTheTruth` is what each report does tell.
- A release of the installer's lock whose directory sync fails after the owner file was removed leaves the lock without an owner record (`deploy/service_transaction.py:748-749`): `AnOwnerlessLockStays`, with the exact condition in `FailedReleaseKeepsTheRecord`.

## Model

| member | source | states |
|---|---|---|
| `DependencyGate.IsReachable` | scripts/check-rustsec-debt.py:862-881 | the worklist returns true exactly when some walk of any length from start to target avoids the blocked node, and it ends although the pending list may hold duplicates |
| `DependencyGate.BlockedMeansBypass` | scripts/check-rustsec-debt.py:849-859 | a search with a node blocked succeeds exactly when that node fails to dominate the target |
| `DependencyGate.BuildGraph` | scripts/check-rustsec-debt.py:701-770 | the node table and successor graph are built exactly when the inventory is within its limits, node ids are distinct, the root exists, kinds are well formed and no dependency dangles |
| `DependencyGate.SelectPackages` | scripts/check-rustsec-debt.py:772-803 | every approved name and version picks the one package with that name and version and the approved source; failure means no such choice exists |
| `DependencyGate.SelectionIsUnique` | scripts/check-rustsec-debt.py:772-803 | the choice of packages for an approved path is unique |
| `DependencyGate.CheckLinks` | scripts/check-rustsec-debt.py:807-847 | the edge checks pass exactly when every approved node has a resolve node and exactly one dependency entry on its successor, with the approved name and kinds |
| `DependencyGate.CheckDominators` | scripts/check-rustsec-debt.py:849-859 | passes exactly when the vulnerable package is reachable and every earlier approved node lies on every walk to it; each rejection names a real reason |
| `DependencyGate.VerifyMetadataPath` | scripts/check-rustsec-debt.py:701-859 | the whole metadata check passes exactly when the inventory is well formed and every approved path is accepted in the walk-based sense |
| `DependencyGate.TightPathIsDominatorChain` | scripts/check-rustsec-debt.py:807-859 | in an accepted path every node dominates every later node, not only the vulnerable one |
| `DependencyGate.EveryWalkFollowsTheApprovedPath` | scripts/check-rustsec-debt.py:807-859 | every walk from the root to the vulnerable package meets the approved packages in the approved order, through whatever cycles |
| `DependencyGate.CuttingAnApprovedPackageDisconnects` | scripts/check-rustsec-debt.py:849-859 | removing any approved package other than the root makes the vulnerable package unreachable |
| `ServiceProtocol.Fresh` | deploy/service_protocol.py:108-116 | fresh means inside the transaction, at most 30 s old and at most 2 s ahead, for three in-range times |
| `ServiceProtocol.ValidateReady` | deploy/service_protocol.py:130-151 | accepts exactly a well-formed serving document of the expected process and digest that is fresh and alive; a not-ready or stale answer still proves the identity |
| `Readiness.Judge` | deploy/service_readiness.py:253-292 | how one poll is classed: good, tolerated before the first good one, or fatal |
| `Readiness.WaitReady` | deploy/service_readiness.py:238-297 | returns exactly when the polls become stable: an unbroken run of good samples of one identity spanning at least 5 s and ending by the deadline, each fresh at both clock reads and bracketed by pid and liveness checks |
| `Readiness.AtMost121Polls` | deploy/service_readiness.py:238-297 | the loop takes at most 121 polls, whatever the service does |
| `LaunchdRecord.ParsePidRecord` | deploy/service_readiness.py:150-186 | accepts exactly a record whose root block closes once, is followed by blanks only, and has one well-formed top-level pid line, or none where that is allowed |
| `LaunchdRecord.RenderedRecordsAreRead` | deploy/service_readiness.py:150-186 | of any printed tree of nested blocks exactly the top-level pid lines are read, never a nested one at any depth |
| `LaunchdRecord.AcceptedIsARenderedRecord` | deploy/service_readiness.py:150-186 | conversely, whatever the parser accepts is the printout of such a tree, closed and followed by blanks |
| `LaunchdLines.PidsExactly` | deploy/service_readiness.py:167-171 | a line carries a number exactly when it is a tab, `pid = ` and the decimal digits of a positive number, at most ten |
| `LaunchdLines.LooksLikePidExactly` | deploy/service_readiness.py:166-167 | a line looks like a pid entry exactly when it is whitespace, `pid`, whitespace and an equals sign, then anything |
| `LaunchdLines.OpensExactly` | deploy/service_readiness.py:173-174 | a line opens a block exactly when a brace ends it, whitespace apart |
| `LaunchdLines.ClosesExactly` | deploy/service_readiness.py:175-177 | a line closes a block exactly when it is a brace, whitespace apart |
| `CourtClient.CourtPage.AdoptSnapshot` | activity/court.js:63-75 | adopts a snapshot exactly when the request is of the present generation and the revision does not fall within an epoch; a different epoch starts a generation |
| `CourtClient.CourtPage.Rehearse` | activity/court.js:89-101 | the offline page after a poll, vote or next: entering keeps the case and clears the totals, further polls keep the solo vote |
| `CourtClient.CourtPage.Begin` | activity/court.js:102-129 | what a click or poll posts, with which epoch, round and generation, or that it is rehearsed at once |
| `CourtClient.CourtPage.Finish` | activity/court.js:121-137 | the page after the response or failure of a request of a given generation |
| `CourtProtocol.EveryBallotIsTallied` | activity/server/court.mjs:82-85 | the two totals a snapshot reports add up to the ballots held |
| `CourtProtocol.StepKeepsInv` | activity/court.js:63-138 | every step of page, network and restarting server keeps: screen equals authority unless rehearsing, replies come from known incarnations, mutations match the screen, each counts once, the held ballot is backed by one |
| `CourtProtocol.RunKeepsInv` | activity/court.js:63-138 | the same over runs of any length |
| `CourtProtocol.SafeRunsGoForward` | activity/court.js:63-75 | from a safe state the adopted (epoch age, revision) never decreases in any interleaving, and safety is kept |
| `CourtProtocol.ViewNeverGoesBackIffSafe` | activity/court.js:63-75 | once a snapshot is held, the view can never go back exactly when no request of the present generation already holds a reply from an older incarnation |
| `CourtProtocol.AloneAtFirstAdoptionIsSafe` | activity/court.js:63-75 | a first adoption with no other request in flight is safe |
| `CourtProtocol.FirstAdoptionNeverGoesBackIff` | activity/court.js:63-75 | in every run from page load, the first adoption is never gone back on, in any continuation, exactly when no other request then holds a reply from an older incarnation; so always when it is alone in flight |
| `CourtProtocol.RestartAdoptionIsSafe` | activity/court.js:66-69 | adopting a different epoch starts a new generation and is safe |
| `CourtProtocol.OutdatedResponsesAreIgnored` | activity/court.js:64-64 | a response begun in an earlier generation changes nothing on screen, however late it arrives |
| `CourtProtocol.FirstAdoptionIsUnprotected` | activity/court.js:63-71 | without that condition the view can go back: two reads in flight at page load, answered on both sides of a restart, in reverse order |
| `CourtProtocol.EveryMutationMatchesTheScreen` | activity/court.js:76-81 | in every run a vote or next is posted only while shared state is on screen, carries its epoch and round, is never a rehearsal vote, and is counted at most once |
| `CourtProtocol.CountedBallotWasForTheCaseOnScreen` | activity/server/court.mjs:73-82 | a ballot the room holds was clicked while that very epoch and round were on screen |
| `CourtProtocol.StepPostsAtMostItsClick` | activity/court.js:76-129 | only a click posts a mutation, at most one, and none follows a refusal or a refresh |
| `CourtProtocol.EachClickPostsAtMostOneMutation` | activity/court.js:76-129 | over any run, mutations posted never exceed clicks |
| `CourtSession.AVoteIsCounted` | activity/server/court.mjs:73-85 | in any reachable state, a vote on the case on screen that gets through becomes the page's ballot and leaves the others, and the page then shows the room, with its counts of ballots for and against and its own ballot |
| `CourtSession.TheNextCaseIsCalled` | activity/server/court.mjs:74-81 | the next case, called from the case on screen, raises the round, clears the ballots and is shown |
| `CourtSession.APollShowsTheRoom` | activity/court.js:102-129 | a poll, or any click of a page that is cut off, shows the room as it is, changes nothing in it, and connects the page |
| `CourtSession.AStaleClickOnlyRefreshes` | activity/court.js:76-88 | a click on a case that is over changes and counts nothing, and the refresh that follows by itself shows the room's present case |
| `CourtSession.AFailedRequestRehearses` | activity/court.js:130-137 | a request that fails leaves the room alone and puts the page into rehearsal |
| `CourtSession.ARehearsalIsSolo` | activity/court.js:89-101 | a rehearsal keeps to the case it started from and shows exactly the ballot clicked; further polls change nothing, and what is known of the shared room stays |
| `Qualification.ProjectModes` | deploy/publish-provider-qualification.py:195-232 | one record per evidence mode, accepted exactly when every entry is sound and modes are distinct |
| `Qualification.LendStreaming` | deploy/publish-provider-qualification.py:233-247 | server streaming evidence raises the system record and only it, and fails exactly when there is no system mode |
| `Qualification.FmRecords` | deploy/publish-provider-qualification.py:182-249 | records are returned exactly for publishable evidence, and are its projection mode by mode, including the server-streaming update |
| `Qualification.ValidateManifest` | deploy/configure-fm-primary.py:32-79 | the configurator accepts exactly a shaped manifest of distinct providers, with a sound candidate identity that some qualified record authorises |
| `Qualification.PublishedManifestHasShape` | deploy/publish-provider-qualification.py:182-249 | everything the publisher returns passes all of the configurator's shape checks |
| `Qualification.PublisherAndConfiguratorAgree` | deploy/configure-fm-primary.py:66-79 | a published manifest is accepted exactly when its identity is the candidate's and some evidence entry meets the streaming condition |
| `Qualification.AcceptedManifestBindsTheBinary` | deploy/configure-fm-primary.py:66-79 | an accepted manifest names the candidate binary's own digest in a qualified record |
| `InstallLock.OwnStep` | deploy/configure-mlx-primary.py:90-207 | every step of one process keeps what it knows of the lock directory, its record and its signal mask, whether the step works, fails, or fails after taking effect |
| `InstallLock.RunKeepsInv` | deploy/configure-mlx-primary.py:90-207 | the same for any number of installers and configurators over any run |
| `InstallLock.OneInside` | deploy/service_transaction.py:501-521 | at most one process is inside its transaction |
| `InstallLock.InsideHasItsRecord` | deploy/service_transaction.py:429-435 | whoever is inside finds its own owner record, so lock verification and release never meet another's |
| `InstallLock.OnlyTheMakerTouchesTheLock` | deploy/configure-mlx-primary.py:137-207 | no step removes, changes or replaces a lock directory its process did not make |
| `InstallLock.EndsTellTheTruth` | deploy/configure-mlx-primary.py:137-207 | what a process that ended on its own left and said: a report of a left-over lock is never false, nobody leaves one silently or blaming another, a configurator that was inside always reports it, a report of a restored record is true, and a configurator's signals stay blocked exactly when its directory stays |
| `InstallLock.AFailedAcquisitionDoesNotTell` | deploy/configure-mlx-primary.py:149-165 | a concrete failed acquisition of each program that leaves the directory and one that frees it, both ending with the same unrelated error |
| `InstallLock.AFreedLockMayStillBeAnError` | deploy/service_transaction.py:748-757 | a concrete release that removes the directory and then ends with an error |
| `InstallLock.FailedReleaseKeepsTheRecord` | deploy/service_transaction.py:748-757 | a release that goes wrong leaves the directory for good, and with its record exactly unless the installer's removal of the record took effect and was reported as failed, or the record was gone and writing it back did not take effect |
| `InstallLock.AnOwnerlessLockStays` | deploy/service_transaction.py:748-749 | a concrete release that ends with the directory in place and no owner record, unreported, and nothing that runs later changes it |
| `InstallLock.StaleLockStays` | deploy/configure-mlx-primary.py:137-145 | a lock whose maker ended or was killed is never touched again |
| `InstallLock.NoLockIsForgotten` | deploy/configure-mlx-primary.py:157-207 | if no process is running, killed or ended without removing its directory, there is no lock |
| `InstallLock.AnUndisturbedRunGetsThrough` | deploy/configure-mlx-primary.py:104-207 | whenever the lock is free, a program none of whose steps fails gets inside with its record, and then ends without an error, its signals restored and the lock free |
| `InstallLock.AHeldLockIsLeftAlone` | deploy/configure-mlx-primary.py:137-145 | a program that finds the lock held says so, ends refused with its signals restored, and changes nothing |
| `EnvironmentCutover.Restore` | deploy/configure-mlx-primary.py:575-594 | restores the backup byte for byte or leaves the environment as it was; succeeds exactly when no step fails |
| `EnvironmentCutover.Publish` | deploy/configure-mlx-primary.py:525-572 | which of its ends publish reaches for every combination of failing steps, and what the environment and the backup then hold |
| `EnvironmentCutover.Restart` | deploy/configure-mlx-primary.py:622-651 | returns a process exactly when launchd accepted the restart and the first process other than the previous one appears in time and is seen three times running |
| `EnvironmentCutover.Cutover` | deploy/configure-mlx-primary.py:720-744 | how the cutover ends for every combination of failing steps and both restarts; it updates exactly when publishing works and the restart yields a new stable process, with the rendered text in place; at every exit the environment is the original or the rendered text; otherwise the original is in place or the failed restoration is reported beside an exact backup, except exactly when removing the renamed temporary raises: then the rendered text stays, unreported, beside an exact backup |
| `EnvironmentCutover.RunLocked` | deploy/configure-fm-primary.py:160-188 | with its rendering: it updates exactly when the text can be rendered, publishing works and a new process is stable; however it ends, a regular environment can still be read, with its own settings or with them overridden by the managed ones; regular means the exact conditions of the rendering |
| `EnvironmentFile.ReadEnvironment` | deploy/service_environment.py:22-59 | the parser's loop computes the settings of all lines, or the first error |
| `EnvironmentFile.AssignedLineHasItsKey` | deploy/configure-mlx-primary.py:52-52 | parser and renderers read the same key off every assignment whose export is separated by blanks |
| `EnvironmentFile.SkippedLineHasNoKey` | deploy/configure-mlx-primary.py:52-52 | a line the parser skips is never taken for an assignment |
| `EnvironmentGrammar.AssignmentsExactly` | deploy/service_environment.py:37-52 | a line is read as an assignment exactly when it is written as one: whitespace, possibly an export, the key, an equals sign, and the value between two equal quotes of either kind, whatever it is, or bare, with whitespace around it |
| `EnvironmentGrammar.SkipsExactly` | deploy/service_environment.py:38-39 | a line is skipped exactly when it is whitespace, or whitespace and a hash |
| `EnvironmentGrammar.RefusesExactly` | deploy/service_environment.py:42-51 | a line is refused exactly when it is neither skipped nor written as an assignment |
| `EnvironmentGrammar.QuotesAreRemoved` | deploy/service_environment.py:48-51 | either kind of quotes around a value is removed, whatever stands between them |
| `EnvironmentGrammar.FilesReadExactly` | deploy/service_environment.py:35-52 | a file is read as settings exactly when no line is refused, no key is assigned twice, and the settings are just what its lines assign |
| `EnvironmentRender.RenderMlx` | deploy/configure-mlx-primary.py:467-514 | the mlx renderer's loops compute the specified text, refusing a repeated managed key |
| `EnvironmentRender.RenderFm` | deploy/configure-fm-primary.py:106-122 | the fm renderer's loop computes the specified text, refusing a repeated managed key |
| `EnvironmentRender.QuoteRoundTrip` | deploy/configure-fm-primary.py:122-122 | a shell-quoted value reads back as itself exactly when it holds no single quote |
| `EnvironmentKeys.AssignmentHolds` | deploy/service_environment.py:24-59 | a line assigns a key only if that key stands in it, after blanks or an export, before an equals sign |
| `EnvironmentAgreement.MatchedKey` | deploy/configure-mlx-primary.py:52-52 | on every line the parser accepts, the renderers match the key it assigns if its export gap is blank, and none otherwise |
| `EnvironmentAgreement.AgreesExactly` | deploy/service_environment.py:22-59 | rendering a valid file succeeds exactly when no managed key is matched twice, and the result then reads as the original settings with exactly the managed keys overridden exactly when each line, as rendered, assigns what it did outside them |
| `EnvironmentAgreement.FmKeptTextDecides` | deploy/configure-fm-primary.py:106-122 | for fm on every file, lines that join included: the result agrees exactly when the kept text alone reads as the original settings outside the managed keys |
| `EnvironmentAgreement.NewlineFilesAgreeExactly` | deploy/configure-mlx-primary.py:467-514 | where newlines are the only line breaks, rendering succeeds, and agrees exactly when every managed key it assigns is set off from its export by blanks |
| `EnvironmentPieces.MlxAgreesExactly` | deploy/configure-mlx-primary.py:467-514 | for mlx whatever line breaks a valid file has: the result agrees exactly when of every line that assigns an unmanaged key one piece is left that is the whole line up to whitespace, and whatever else is left of any line is blank or a comment |
| `EnvironmentAgreement.CutoverReadsBackExactly` | deploy/service_environment.py:51-57 | for both programs' own keys and values: the same two conditions, for the whole parser with its required keys and its size cap |
| `EnvironmentDisagreement.MlxCanBreakAFile` | deploy/configure-mlx-primary.py:480-489 | a concrete valid file that mlx renders into one the parser refuses |
| `EnvironmentDisagreement.FmCanCutAValue` | deploy/configure-fm-primary.py:106-122 | a concrete valid file in which fm silently shortens an unmanaged setting |
| `EnvironmentDisagreement.FmCanLoseASetting` | deploy/configure-fm-primary.py:106-122 | a concrete valid file from which fm takes a newline, so that one unmanaged setting becomes part of another |
| `EnvironmentDisagreement.FmCanAssignTwice` | deploy/configure-fm-primary.py:106-122 | a concrete valid file that fm renders into one that assigns a managed key twice and is refused |
| `EnvironmentDisagreement.TwoWrongLinesCancel` | deploy/configure-fm-primary.py:106-122 | a concrete file fm renders correctly although two of its lines, as rendered, assign what they did not: one loses the setting the other gains |
| `EnvironmentDisagreement.FmCanLoseAnEmptyLine` | deploy/configure-fm-primary.py:106-122 | a concrete valid file from which fm takes an unmanaged empty line, with the managed one before it |
| `EnvironmentLines.RenderingIsIdempotent` | deploy/configure-mlx-primary.py:467-514 | rendering the rendered file changes nothing, for every file and all its line breaks |
| `EnvironmentLines.UnmanagedLinesSurvive` | deploy/configure-mlx-primary.py:467-514 | the lines of the rendered file hold the unmanaged lines in order, for mlx without trailing blank ones; the others are the header and the managed assignments, unless a live secret is commented out; for fm unless a dropped line stood between a kept carriage return and a newline |
| `EnvironmentSecrets.SetSecretsAreKeptAsComments` | deploy/configure-mlx-primary.py:480-488 | a secret that was set, to more than empty quotes, stands in the rendered file as a comment right under the notice |
| `EnvironmentSecrets.NoSecretIsSet` | deploy/configure-mlx-primary.py:492-514 | the only lines of the rendered file that assign a secret set it to nothing |
| `InstallPhases.StopsAtAPrefix` | deploy/service_transaction.py:619-731 | whatever the effects of its steps, a phase leaves exactly the files of a prefix of its list, and of all of it if it completes |
| `InstallTransaction.Transaction.Prepare` | deploy/service_transaction.py:619-656 | prepare performs its lists of steps up to the first that fails; complete, it has copied every original into its backup and staged a candidate the manifest vouches for; complete or not, nothing outside the backup changed |
| `InstallTransaction.Transaction.Publish` | deploy/service_transaction.py:657-683 | publish performs its list of steps up to the first that fails; wherever it stops, only the replaced files and its journal changed, and each replaced file is whole: as it was, or its own candidate; if it completes, each is its candidate |
| `InstallTransaction.Transaction.Restore` | deploy/service_transaction.py:718-731 | a restore that completes has made exactly the specified files; one that stops has made its first n writes and nothing else, or all of them and its journal entry |
| `InstallTransaction.Transaction.Commit` | deploy/service_transaction.py:692-717 | whenever the journal was written, reported as written or not, the receipt holds; otherwise nothing changed |
| `InstallTransaction.Transaction.RollBack` | deploy/install-launchd.sh:45-75 | cleanup after a failure either restores everything or keeps what a later restore needs; a committed journal it leaves means a restore that stopped |
| `InstallTransaction.Transaction.Install` | deploy/install-launchd.sh:77-111 | a whole run with failures and interrupts anywhere is the specified run of the phases' steps, for every effect of every step: refused and rolled-back runs leave every file outside the backup as it was, retained runs stay recoverable, ready runs have each replaced path hold its own candidate and have their receipt, the environment is never written unless the manifest target is that file, and a committed journal is left only by a qualified run that is ready or was retained while restoring a commit |
| `InstallTransaction.RollbackIsExact` | deploy/service_transaction.py:718-731 | whatever happened to the replaced files since prepare, a complete restore puts back every file outside the backup exactly, absent ones included |
| `InstallTransaction.RestoreIsIdempotent` | deploy/service_transaction.py:718-731 | a restore that stopped after any of its writes can be run again and then makes what one run makes |
| `InstallTransaction.RecoverableStays` | deploy/service_transaction.py:657-731 | nothing any later phase does spoils the rollback or the staged candidate |
| `InstallTransaction.ReceiptBindsEverything` | deploy/service_transaction.py:692-717 | with an injective digest, the installed manifest has a qualified record naming the digest of the running, installed and staged binary |
| `InstallTransaction.PartialRestore` | deploy/service_transaction.py:718-731 | after any of its writes a restore has put back exactly the files of those writes |
| `InstallTransaction.WhenTheJournalStillHolds` | deploy/service_transaction.py:390-391 | a journal left committed by a restore that stopped still tells the truth exactly when each file already put back had the committed digest before |
| `InstallEndings.ReadyExactly` | deploy/install-launchd.sh:86-111 | a run is ready exactly when the originals can be copied, the candidate staged and accepted, every later step works, nothing interrupts and the service answers with the candidate's digest; then each replaced path holds its candidate, every other file outside the private directory is as it was, and a qualified journal says committed |
| `InstallEndings.HowARunEnds` | deploy/install-launchd.sh:45-111 | which of its ends every run reaches, told from the files it finds and what it meets: refused, ready, rolled back or retained |
| `InstallEndings.InterruptedIsNeverReady` | deploy/install-launchd.sh:31-44 | a run interrupted while publishing, starting or committing is never ready |
| `InstallMishap.TheManifestIsAccepted` | deploy/configure-fm-primary.py:32-79 | the complete manifest of that run is one the configurator accepts for the binary it stages |
| `InstallMishap.TheRun` | deploy/install-launchd.sh:45-111 | one whole run of all phases from its first file on: every step works but the commit's journal sync and, in the restore, the removal of the new property list |
| `InstallMishap.ACommittedJournalBesideTheOldBinary` | deploy/service_transaction.py:718-731 | this run is retained with a committed journal beside the old binary, and no run of the service makes its receipt hold |
| `InstallMishap.LeaveACommittedJournal` | deploy/service_transaction.py:718-731 | the installer's own method, run in that world, ends so |
| `SourceMask.MaskLiteralsAndComments` | scripts/check-privacy.py:91-154 | the in-place masker computes the specified mask |
| `SourceMask.MaskNonCode` | scripts/check-rust-module-size.py:32-84 | the second masker computes the specified mask under its own character-literal rule |
| `SourceMask.MaskKeepsShape` | scripts/check-privacy.py:91-154 | both masks keep the length, map each character to itself or a space, and keep every newline |
| `SourceMask.NothingOpensAfterMasking` | scripts/check-privacy.py:91-154 | no double quote and no comment opener remains, for every input including unclosed ones |
| `SourceMask.MaskIsIdempotent` | scripts/check-rust-module-size.py:32-84 | masking masked text changes nothing |
| `SourcePieces.MaskIsCodeOnly` | scripts/check-privacy.py:91-154 | for source written as code, line comments, nested block comments, strings with escapes, raw strings with any number of hashes and character literals, either mask is the code where it stands and blanks for everything else |
| `SourcePieces.MaskHidesTheUnclosed` | scripts/check-privacy.py:91-154 | text that ends in an unclosed string, raw string or comment is blanked from its opening on |
| `MacroEnd.FindMacroEnd` | scripts/check-privacy.py:157-170 | the bracket stack loop computes the specified scan: the index at which the stack first empties, or the end of the text |
| `MacroEnd.Pair` | scripts/check-privacy.py:158-158 | each opening bracket is closed by its own kind |
| `MacroEnd.MatchesTheGroup` | scripts/check-privacy.py:157-170 | on text with balanced brackets the result is the index of the closer that matches the group's opener |
| `ModuleSize.FindProduction` | scripts/check-rust-module-size.py:117-124 | the worklist finds exactly the files a chain of non-test declarations reaches from a crate root |
| `ModuleSize.Inspect` | scripts/check-rust-module-size.py:105-142 | the errors are those of every file in order, with test modules exempted as specified |
| `ModuleSize.CleanMeansEveryFileFits` | scripts/check-rust-module-size.py:125-142 | no errors exactly when every file is short enough and no production file suppresses the lints |
| `ModuleSize.ReachedCodeIsNeverExempt` | scripts/check-rust-module-size.py:117-132 | a file the crate reaches is held to the production rules whatever test declarations also name it |
| `ModuleSize.ErrorsExactly` | scripts/check-rust-module-size.py:125-142 | the errors name exactly the files that break a rule, and which rule |
| `ModuleSize.TreesAre` | scripts/check-rust-module-size.py:116-116 | the tree of a test module in `mod.rs` is its directory, and that of `name.rs` the directory `name` beside it |
| `InstructionMirror.TwoReplacementsAreOnePass` | scripts/check-instructions.py:98-100 | the two successive replacements equal one left-to-right escape |
| `InstructionMirror.MultilineRoundTrip` | scripts/check-instructions.py:98-100 | the rendered multi-line basic string (section "String" of TOML v1.0.0) reads back as the text exactly when the text has only legal characters, with quote runs, backslashes and leading newlines of any length |
| `InstructionMirror.BasicRoundTrip` | scripts/check-instructions.py:92-95 | the rendered basic string reads back exactly when the text has no DEL |
| `MarkedBlock.TheMarkersAreMarkers` | scripts/check-instructions.py:75-89 | the two real markers meet the conditions of the round trip |
| `MarkedBlock.BlockRoundTrip` | scripts/check-instructions.py:75-89 | rewriting succeeds exactly when the block can be read, then reads back as written, and leaves the text outside the markers unchanged |
| `MarkedBlock.OuterNewlinesGo` | scripts/check-instructions.py:82-82 | a block without outer newlines reads back as itself |
| `MarkedBlock.BlocksReadExactly` | scripts/check-instructions.py:75-82 | a block is read exactly when each marker occurs just once and in order, and is what stands between them without its outer newlines |
| `MarkedBlock.OnlyOuterNewlinesGo` | scripts/check-instructions.py:82-82 | stripping takes the newlines around a text and nothing else |
| `MarkedBlock.RewritingForgets` | scripts/check-instructions.py:85-89 | writing one block and then another is writing the other |
| `LiquidScan.ScanText` | scripts/check-pages-liquid.py:72-106 | no findings exactly when a left-to-right reading exists in which every opener opens, lies in or closes a raw span and every span is closed, over any number of lines; each finding gives the line of an opener that is no raw marker, or of a raw marker that nothing closes |
| `LiquidScan.MarkersExactly` | scripts/check-pages-liquid.py:29-30 | a marker is recognised exactly where it is spelled out: `{%`, an optional dash, spaces, the word, spaces, an optional dash and `%}` |
| `LiquidScan.StrayBracesAreRefused` | scripts/check-pages-liquid.py:31-31 | text with `{{` or `{%` that no raw span holds is never clean |
| `ToolStream.Assembler.MergeOne` | deploy/smoke-mlx-vlm.py:77-133 | one delta is merged exactly when well formed, and grows its own call only |
| `ToolStream.Assembler.Merge` | deploy/smoke-mlx-vlm.py:70-133 | a batch is merged delta by delta exactly when all are well formed |
| `ToolStream.FramingDoesNotMatter` | deploy/smoke-mlx-vlm.py:70-133 | merging batches in turn equals merging their concatenation |
| `ToolStream.AssembledCalls` | deploy/smoke-mlx-vlm.py:70-133 | each call is the in-order concatenation of the fragments of its index |
| `ToolStream.CallsAreJoinedFragments` | deploy/smoke-mlx-vlm.py:91-131 | every assembled call is, field by field, the JSON strings that the deltas of its index hold at `id`, `type`, `function.name` and `function.arguments`, joined from left to right |
| `ToolStream.InterleavingDoesNotMatter` | deploy/smoke-mlx-vlm.py:70-133 | two streams with the same fragments in the same order for each index assemble to the same calls |
| `ToolStream.NeighboursCommute` | deploy/smoke-mlx-vlm.py:70-133 | neighbouring deltas of different indices commute |
| `ToolStream.AtMostEightCalls` | deploy/smoke-mlx-vlm.py:70-133 | a turn never has more than eight calls |
| `ToolStream.ValidateCalls` | deploy/smoke-mlx-vlm.py:136-156 | accepts exactly calls that are all complete |
| `ToolStream.AcceptedTurnSkipsNoIndex` | deploy/smoke-mlx-vlm.py:136-156 | an accepted turn has a fragment for every index |
| `ToolStream.StreamedTurn` | deploy/smoke-mlx-vlm.py:192-259 | the accumulation loop returns exactly for a finished stream of well-formed events whose calls are complete, with the texts joined from left to right, the last finish reason, and the joined fragments of every call |
| `CourtRelease.ComputeCourtDigest` | scripts/prepare-court-release.py:75-81 | the loop hashes every asset's path, length and bytes, framed as the server also does (activity/server/court.mjs:18-25) |
| `CourtRelease.CourtDigestIsInjective` | scripts/prepare-court-release.py:75-81 | equal Court digests mean equal assets, byte for byte |
| `CourtRelease.TheFrame` | scripts/prepare-court-release.py:75-81 | the hashed text spelled out: the four assets in order, each with its path, its length in decimal and its bytes |
| `CourtRelease.NameDeterminesPackage` | scripts/prepare-court-release.py:254-258 | a package's name determines every byte of it |
| `CourtRelease.Verify` | scripts/prepare-court-release.py:235-278 | verification accepts exactly a complete package under the name of its manifest's digest; the manifest then lists each asset with its own length and digest |
| `CourtRelease.ReleasesAreComplete` | scripts/prepare-court-release.py:326-371 | under failures and crashes at any step of any number of preparers, every release directory is complete |
| `CourtRelease.ReleasesAreImmutable` | scripts/prepare-court-release.py:326-371 | no later step changes or removes a release |
| `CourtRelease.ReturnedPackageIsPublished` | scripts/prepare-court-release.py:326-371 | a preparer that returns has its own inputs' package published |
| `CourtRelease.OneWorks` | scripts/prepare-court-release.py:304-320 | at most one preparer works in the output directory, and the name it renames to is free |
| `CourtRelease.PreparingAgainReturnsIt` | scripts/prepare-court-release.py:337-343 | repeating prepare on unchanged inputs returns the release and changes nothing |
| `CourtRelease.FirstPreparePublishes` | scripts/prepare-court-release.py:326-371 | from any reachable state with the lock free and the name not released, preparing from an unchanged source without a failing step publishes that package, returns it and leaves everything else as it was |
| `CourtRelease.APrepareInVain` | scripts/prepare-court-release.py:344-371 | a preparer one of whose steps fails, or that finds the source changed, never returns a directory, whatever happens afterwards, and unless it was just renaming changes no release |
| `CourtRelease.AFailedPrepareCleansUp` | scripts/prepare-court-release.py:366-369 | a failed preparer's next two steps that work remove its stage and its lock, and nothing else |
| `CourtRelease.ABusyDirectoryIsLeftAlone` | scripts/prepare-court-release.py:304-310 | a preparer that finds the directory locked ends at once and changes nothing |

## Left out

- Readiness.WaitReady: the time a poll takes is bounded below only by the sleep between polls; the child-process ownership of `launchd_pid` and the context pipe of `read_context` are not modelled.
- LaunchdRecord.ParsePidRecord: splitting the launchd output into lines, its size cap and decoding it are not modelled.
- CourtProtocol.RunKeepsInv: one page and one room; time to live, the 256-room limit and rate limits appear as arbitrary refusals and disappearances.
- InstallLock.OneInside: the lock is modelled on values, process steps and files, not as the `InstallLock` object; a restored signal mask cannot itself fail, and modes and ownership of the directory are taken as right.
- InstallTransaction.Transaction.Install: acquiring and releasing the lock are in `InstallLock`; `capture`, `stop` and the uninstall phases appear only as steps that may fail, because they replace no installed file except the uninstall ones.
- InstallTransaction.Transaction.Start: the run it records is any document naming the installed binary's digest; that waiting yields such a run is in `Readiness`.
- InstallTransaction.Transaction.Prepare: the manifest target is taken to lie outside the transaction's own backup directory, whose random name is made after the environment was written; file modes, size caps and the git and cargo checks appear as steps that may fail.
- InstallEndings.HowARunEnds: for a manifest target other than the lock's own owner file, which `publish` would overwrite; `ReadyExactly` covers that target too. The transaction's directory is taken as new, as its random name makes it.
- SourcePieces.MaskIsCodeOnly: an unclosed block comment is stated for text without a further closing mark.
- EnvironmentCutover.Cutover: file modes and ownership are not modelled, and nobody else writes the environment between the comparison in `publish` and the end of the run.
- EnvironmentAgreement.AgreesExactly: for fm, its second part is stated for files in which no line but the last loses just its newline; where lines join, two wrong lines can make up for each other (`TwoWrongLinesCancel`), no condition on single lines is exact, and `FmKeptTextDecides` is what holds.
- EnvironmentAgreement.CutoverReadsBackExactly: the same guard for fm; UTF-8 decoding is not modelled, text is a sequence of characters with its encoded length.
- EnvironmentLines.UnmanagedLinesSurvive: for fm, stated where no dropped line stands between a kept carriage return and a newline, because the two then join and an empty line goes (`FmCanLoseAnEmptyLine`); its last part where newlines are the only breaks.
- EnvironmentCutover.RunLocked: the validation of paths, manifest and service beforehand, and the fallback and endpoint checks of `deploy/configure-fm-primary.py`, are not modelled.
- Qualification.FmRecords: JSON decoding is not modelled, and Python's equality of `True` with `1` is not: versions and flags have their exact types.
- CourtClient.CourtPage.Begin: a hidden page, the Discord readiness gate and the room check before a request are not modelled.
- Qualification.ValidateManifest: file modes, ownership and the size cap of the manifest are not modelled.
- CourtRelease.Verify: modes, symbolic links, the node probe and the fixed manifest fields are not modelled; the ingress proposal is an opaque part of the manifest.
- ToolStream.Assembler.Merge: what a failing batch leaves half merged is not stated, because a failure ends the program; deciding whether arguments are a JSON object is a parameter.
- SourceMask.MaskNonCode: the path strings it collects beside the mask are not modelled.
- ModuleSize.Inspect: finding declarations and suppressions by regular expression is not modelled, and the review notes for files over 800 lines are left out.
- MarkedBlock.BlockRoundTrip: `boundaries` and `split_front_matter` are left out; they add only easy members.
- LiquidScan.ScanText: which pages are scanned (`tracked_paths`, the entry filter) is left out.
- ToolStream.StreamedTurn: events malformed otherwise than in their tool deltas, and the 4 MiB cap on the stream, are not modelled.
- DependencyGate.BuildGraph: length limits of strings and the JSON types of the inventory are not modelled.
- DependencyGate.VerifyMetadataPath: length limits of strings, the lockfile scan `_verify_lockfile_path` and the report comparison `compare_report` are left out.
- The two-sample observation of `deploy/service_status.py`, the privacy scanners beyond the mask and bracket scan, and the contract inventory of `scripts/check-abbey-contracts.py`: checks whose claims are one branch each.
- Ownership, mode-bit and symbolic-link checks throughout, process control, and the string-pinning gates: constant comparisons or foreign calls.
- The Rust service, its learning loop, consent and memory systems: not part of this model.
