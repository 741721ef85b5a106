# Verified model of the local company's coordination code

This project models, in Dafny, the parts of the local-company repository that coordinate work: the
durable execution focus, build identity and its manifest, the runtime guard with the scripts that read
its verdict, the scheduled cycle, workflow learning and replay, the configuration merge, the MCP session,
and four codecs and scanners. It proves properties of whole runs: every interleaving of focus operations
with crashes, every series of stamps, every answer the environment can give to the guard, every output a
child process can print, every byte stream on standard input.

`dafny verify dfyconfig.toml` checks the project. It also verifies under `--resource-limit 2000000`, with and
without `--warn-contradictory-assumptions`.

## How the source is represented

- A probe, a file read, a child process, a clock or a person is an argument with an arbitrary value (often
  named `...Answers`, `...Reply` or `a`). A contract about a method therefore holds for every behaviour of
  the environment.
- SHA-256 is symbolic: `ShaOf(x) == ShaOf(y)` only if `x == y`, and a digest text that is not such a value is
  a different value. JSON encoders and decoders are function arguments; a bundle's manifest reads back from its text,
  and so does the one merged configuration that is written (numbers are reals, so not every configuration could).
- Exceptions are `Result` or `Option` values, or outcomes of their own where the source tells them apart.
- Code that changes things step by step is a method with loops, or a class with fields, and its contract ties
  the result to a function or predicate whose properties are proved as lemmas. Code made of expressions is
  functions.

| file | what it models |
|---|---|
| ExecutionFocus, FocusSize, FocusText, FocusAnswers, FocusProtocol, FocusSafety, FocusHistory, FocusOutcomes, FocusSolo, FocusReaders, FocusFull | `src/local_company/focus.py`: the record, the three operations, and many processes running them at once |
| SourceFraming, BuildId, StampHistory | `scripts/stamp_build_manifest.py`: framed digest, build IDs, stamping and series of stamps |
| LiveBuild | `scripts/check_live_build.py`: the comparison and its soundness over a stamp history |
| Verdicts, Readiness | the shared actions, and `scripts/check_readiness.py` |
| GuardTypes, RuntimeGuard, GuardOnce | `scripts/runtime_guard.py`: recovery, the child, the verdict, and the recorded result |
| Supervisor | `scripts/check_runtime_supervisor.py` |
| CycleLaunch, ScheduledCycle | `scripts/run_scheduled_cycle.py` with `run_cycle`, `run_experiment_agent` and the prompt runner |
| Whitespace, WorkflowLearning, Workflow, KeyReplay | `src/local_company/computer_use.py`: learning, validation, key events |
| JsonValues, ConfigMerge, ConfigRefusals | `scripts/setup_local_ai.py`: the merge and its second look, its refusals and the changes it reports |
| McpSession, McpAnswers | `src/local_company/mcp_server.py`: the session, its answers and the serving loop |
| FstringScanner, MarkdownText, PilotBundle, BundleAnswers | the f-string scanner, Markdown escaping and review rows, bundle building and verification |

## Where the code and a stated promise part

Each of these is proved with its exact condition; lemmas named beside it give instances.

- **At most one step of a scheduled run uses a model.** A mission's text is passed on before the cycle's own
  receipt, and standard error is searched first, so a line of a mission's output can be taken for the receipt.
  Whatever the rest of the run meets, at most one model runs exactly when the receipts read from the cycles do not
  lead on after a mission: not a retry whose two cycles both ran one, and not an experiment after a last cycle that
  is read as having had nothing due although one mission has run (`ScheduledCycle.OneModelRun`,
  `ScheduledCycle.SecondModelRun`). Instances: a first cycle that forges a lack of memory
  (`ScheduledCycle.ForgedReceiptIsBelieved`), and a retried one that forges an empty queue
  (`ScheduledCycle.ForgedRetryIsBelieved`). If no mission prints a line that reads as a cycle receipt, at most one
  model runs (`ScheduledCycle.HonestMissionsRunOnce`).
- **An experiment follows only a cycle that ran nothing.** It follows a cycle that is read as having had nothing
  due; that cycle ran nothing exactly when the receipt read is the cycle's own (`ScheduledCycle.ExperimentGate`).
- **The exit code is the journaled one.** They differ exactly when the first cycle exits with 0 and its output holds
  no readable receipt: 0 is journaled and 2 returned (`ScheduledCycle.RunScheduledCycle`, with an instance in
  `ScheduledCycle.FirstReceiptCanBeLost`).
- **A focus can be cleared with its own digest and an acceptable reason.** The clear still fails when the reason
  holds a control character, and for the size of its record exactly when revision, project name, reason and times
  need more than 3584 bytes (`FocusSize.ClearOutcome`). 80 and 240 characters outside the basic plane do
  (`FocusSize.ClearCanBeTooLarge`); printable reasons never do while the revision has at most a thousand digits
  (`FocusSize.ClearAlwaysFits`).
- **A disabled focus can be set.** A set adds at least eight bytes to a disabled record, apart from its time. At a
  given time no operation at all can replace a disabled record exactly when even a name of one character is too long
  for it (`FocusFull.FullExactly`); every set is written or refused by the same measure (`FocusSize.SetOutcome`). A
  clear can write such a record (`FocusFull.ClearCanFill`), and a disabled record of 4096 bytes is the last one: no
  schedule of any operations ever changes the file again (`FocusFull.LargestIsLast`).
- **A failed cleanup is reported.** When recording the guard's result fails, the result is replaced by one with a
  single blocker, so `ollama_cleanup_failed` is lost exactly then (`GuardOnce.CleanupReportSurvives`; from the
  answers of a whole run in `GuardOnce.RunGuardOnce`, with two runs in `GuardOnce.CleanupReportCanBeLost`).
- **What is recorded is what is returned.** The record is always the guard's own result, and also the returned one
  except when the directory cannot be synced once the record is in place; the caller is then told that the journal
  was not written (`GuardOnce.RecordingKeepsVerdict`), and the supervisor finds record and exit code in agreement
  only if the guard's code was 2 anyway (`Supervisor.RecordedResultMatches`).
- **The guard's advice reaches the supervisor's reader.** Five of its actions are not final actions of the
  supervisor and become `inspect_runtime_guard` (`Supervisor.GuardVerdictIsUnderstood`,
  `Supervisor.AdviceThatReaches`).
- **A recorded demonstration can be saved.** It is refused exactly when nothing was captured, a control clicked
  among the first hundred captured events is described by a text of more than 512 characters or otherwise not as the
  checks want it, a given final expectation is only white space or too long, or no title was given and the last
  window's own title is longer than 512 characters (`Workflow.LearnWorkflow`). One click on a control with a long
  name is such a demonstration (`Workflow.LongNameIsRefused`), and so is a long last title
  (`Workflow.LongTitleIsRefused`).
- **No reported change means an equal configuration, and the other way round.** The denied tools entry is tested
  with `is not False`, so a zero there is rewritten although Python calls the two configurations equal
  (`ConfigMerge.ChangesPythonDoesNotSee`, `ConfigMerge.ZeroIsRewritten`, with one in
  `ConfigMerge.ZeroInAFreshConfig`). As JSON the two differ, and in that sense
  no change is reported exactly when nothing changed (`ConfigMerge.NoChangesMeansSame`).
- **Other entries are kept.** Every other top-level key and every other `mcp`, `tools` and `agent` entry is, but the
  provider object becomes the local provider alone (`ConfigMerge.ProviderKeeps`).
- **A bundle within the limits is built and accepted.** It is, unless a packed file's own name holds a backslash or
  is not UTF-8 text (`PilotBundle.BuiltBundleIsAccepted`); systems other than Windows allow both
  (`PilotBundle.NamesThatFail`). A name that is not text cannot be written into the archive, so nothing is built
  (`PilotBundle.BuildBundle`).
- **Every well-formed request with an identifier gets exactly one response.** A line gets its answer exactly when
  neither it nor a line before it ends the session. A line ends it when it is framed well and the JSON reader fails
  on it in another way than by refusing it, for nesting too deep or a number too long, or when it is an accepted
  tool call whose tool fails in a way nothing catches (`McpSession.OneAnswerEach`, `McpSession.EndsExactly`). After
  such a line a good request gets nothing (`McpSession.BrokenLineSilences`).

## Model

| member | source | states |
|---|---|---|
| `ExecutionFocus.Normalize` | src/local_company/focus.py:79-155 | whatever a file decodes to, of either contract, is read as a valid record or not at all |
| `FocusText.Encoded` | src/local_company/focus.py:244-253 | the text that is written, key by key, has exactly the record's encoded size, the quantity the 4096-byte limit is about |
| `ExecutionFocus.ReadsWholeFiles` | src/local_company/focus.py:217-241 | no file reads as the disabled record; a file reads as its record exactly when it is whole, within the size limits and valid |
| `ExecutionFocus.ReadFocus` | src/local_company/focus.py:79-155 | whatever is read is a valid record |
| `ExecutionFocus.FocusHome.Publish` | src/local_company/focus.py:244-268 | the new file replaces the old one whole, or nothing changes |
| `ExecutionFocus.FocusHome.SetExecutionFocus` | src/local_company/focus.py:271-301 | the file after a set, and its outcome, are those of one atomic operation |
| `ExecutionFocus.FocusHome.HandoffExecutionFocus` | src/local_company/focus.py:304-342 | the same for a handoff, with its refusals in the order the code makes them |
| `ExecutionFocus.FocusHome.ClearExecutionFocus` | src/local_company/focus.py:345-371 | the same for a clear |
| `ExecutionFocus.CommitFacts` | src/local_company/focus.py:277-371 | every write is valid, raises the revision by one, carries the time and exactly the project, name and roles asked for, is bound to the digest it names, and leaves the right handoff record |
| `FocusAnswers.SetOverEnabled` | src/local_company/focus.py:278-286 | a set over an enabled focus never changes the file; it is answered with the record exactly when it names that very project, name and number of roles, and refused with the demand for a handoff exactly otherwise |
| `FocusAnswers.SetOverDisabled` | src/local_company/focus.py:287-301 | a set over a disabled focus commits exactly this record, or is refused for what it names or for its size |
| `FocusAnswers.HandoffAnswers` | src/local_company/focus.py:304-342 | a handoff that passes its first checks: which refusal it gets, or exactly which record is committed |
| `FocusAnswers.ClearAnswers` | src/local_company/focus.py:345-371 | a clear that passes its first checks: refused, answered with the disabled record, or committed as exactly this record |
| `FocusAnswers.OtherAnswers` | src/local_company/focus.py:217-241 | an operation over an unreadable file, or with a failed first check, changes nothing and says which it was |
| `FocusAnswers.FirstChecks` | src/local_company/focus.py:315-353 | which digests and reasons fail the checks made before the lock |
| `FocusAnswers.CurrentRecords` | src/local_company/focus.py:88-155 | which records of the current contract can be read, field by field; each reads as itself |
| `FocusAnswers.OlderRecords` | src/local_company/focus.py:79-87 | a record of the older contract reads as the current one with the same fields, revision 1 or 0 and no handoff |
| `FocusSize.ClearOutcome` | src/local_company/focus.py:345-371 | a clear bound to the current digest is written exactly when its reason has no control character and its record fits; otherwise which of the two it was |
| `FocusSize.WideClearIsTooLarge` | src/local_company/focus.py:252-253 | a clear that passes its first checks and fails for its size |
| `FocusSize.ClearCanBeTooLarge` | src/local_company/focus.py:252-253 | a valid focus with such a clear |
| `FocusSize.ClearAlwaysFits` | src/local_company/focus.py:345-371 | with a printable reason every enabled focus whose revision has at most a thousand digits can be cleared, whatever names and handoff it carries |
| `FocusSize.SetOutcome` | src/local_company/focus.py:271-301 | a set over a disabled focus is written exactly when it names a focus and its record fits; otherwise which of the two it was |
| `FocusSize.HandoffOutcome` | src/local_company/focus.py:304-342 | the same for a handoff bound to the current digest that leaves the active project for another one |
| `FocusFull.FullExactly` | src/local_company/focus.py:252-253 | no operation replaces a disabled record exactly when it has no room for the shortest set |
| `FocusFull.FullForever` | src/local_company/focus.py:169-371 | in every schedule of every number of processes such a record stays, and nothing is even staged |
| `FocusFull.LargestIsLast` | src/local_company/focus.py:252-253 | a disabled record of 4096 bytes is never replaced, whatever the clock says |
| `FocusFull.ClearCanFill` | src/local_company/focus.py:345-371 | a clear that writes such a record |
| `FocusProtocol.RunKeepsInv` | src/local_company/focus.py:169-371 | every schedule of every number of processes, with failures and crashes at any step, keeps lock, phases, file and history consistent |
| `FocusSafety.MutualExclusion` | src/local_company/focus.py:169-214 | at most one process is inside the lock at any time |
| `FocusSafety.LockIsGivenBack` | src/local_company/focus.py:196-214 | whoever holds the lock works inside it, and giving up at any point frees it with the file as it was |
| `FocusSafety.FileIsWhole` | src/local_company/focus.py:244-268 | the file is untouched or one whole validated record, never a torn one |
| `FocusSafety.UnreadableFileSurvives` | src/local_company/focus.py:217-241 | a file that cannot be read is never overwritten |
| `FocusSafety.Linearizable` | src/local_company/focus.py:169-371 | the file equals the committed operations applied one after the other |
| `FocusOutcomes.DecisionIsPerforms` | src/local_company/focus.py:271-371 | refusals and unchanged records, too, are those of the whole operation at the moment of the decision |
| `FocusOutcomes.ReplaceIsPerforms` | src/local_company/focus.py:254-268 | the replacement does to the file, in one step, what the operation does |
| `FocusOutcomes.ReadersSeeTheLastCommit` | src/local_company/focus.py:217-241 | at any one moment the file reads as the record of the last commit |
| `FocusReaders.ReadExecutionFocus` | src/local_company/focus.py:217-241 | the outcome of a read over what its three looks find, which may differ: when it is a record, and exactly when the size is wrong, the file gone, or changed |
| `FocusReaders.ReadDuringCommits` | src/local_company/focus.py:217-241 | a reader without the lock, with any steps of others between its looks, gets the record of a commit current during its read or is told that the file changed, and that only if a commit landed |
| `FocusReaders.ChangedExactly` | src/local_company/focus.py:228-238 | if inode and time tell versions apart, it is told so exactly when there was a file at first and a commit landed |
| `FocusReaders.HolderKeepsTheFile` | src/local_company/focus.py:169-214 | while a process is inside the lock nobody else changes the file |
| `FocusReaders.LockedReadIsAtOnce` | src/local_company/focus.py:271-371 | the three looks of a read under the lock are as one |
| `FocusHistory.NoLostUpdate` | src/local_company/focus.py:271-371 | every commit raises the revision by exactly one over the record the previous commit wrote |
| `FocusHistory.NoDigestReturns` | src/local_company/focus.py:161-166 | no digest ever stands for two moments of a history |
| `FocusHistory.OneCommitPerDigest` | src/local_company/focus.py:304-371 | at most one operation bound to a given digest commits, and it left that very enabled state |
| `FocusHistory.StaleDigestRefused` | src/local_company/focus.py:315-371 | an operation bound to the digest of an earlier state is refused |
| `FocusHistory.HandoffIsLastDeparture` | src/local_company/focus.py:277-371 | the handoff field is exactly the record of the most recent departure from an enabled focus, and survives a later set |
| `FocusHistory.NoSilentReplacement` | src/local_company/focus.py:277-342 | an enabled project gives way only to a handoff or clear bound to its own digest, and its departure is recorded |
| `FocusSolo.SoloRun` | src/local_company/focus.py:271-371 | the interleaved steps of one process alone do what the operation does |
| `SourceFraming.BigEndianRoundTrip` | scripts/stamp_build_manifest.py:169-216 | lengths are read back from their big-endian bytes |
| `SourceFraming.FrameRoundTrip` | scripts/stamp_build_manifest.py:169-216 | a framed stream is read back into exactly its files |
| `SourceFraming.FrameInjective` | scripts/stamp_build_manifest.py:169-216 | two bounded file lists with one stream are one list |
| `SourceFraming.DomainSeparates` | scripts/stamp_build_manifest.py:36-41 | a release-domain stream is never a stream without the domain |
| `SourceFraming.OrderedUnique` | scripts/stamp_build_manifest.py:169-180 | a set of files has one listing in path order |
| `SourceFraming.CalculateFramedDigest` | scripts/stamp_build_manifest.py:169-216 | the digest is over the domain and the framed files in path order; refused exactly when one of the limits on paths, counts and sizes is exceeded or a path repeats, and for a limit that is |
| `SourceFraming.HashInOrder` | scripts/stamp_build_manifest.py:183-216 | the loop's running hash and total are those of the framed stream |
| `SourceFraming.ScanOrderIrrelevant` | scripts/stamp_build_manifest.py:118-180 | the digest does not depend on the order in which files are found |
| `SourceFraming.StreamDeterminesFiles` | scripts/stamp_build_manifest.py:169-216 | equal digests mean equal sets of paths and contents |
| `BuildId.ParseBuildId` | scripts/stamp_build_manifest.py:314-325 | an accepted build ID is a real date and a number from 1 to 9999 |
| `BuildId.ParseRoundTrip` | scripts/stamp_build_manifest.py:46-48 | an accepted build ID is the rendering of its date and number |
| `BuildId.RenderParses` | scripts/stamp_build_manifest.py:314-325 | every date with every number from 1 to 9999 is an ID and reads back as itself |
| `BuildId.Dates` | scripts/stamp_build_manifest.py:314-325 | which days are dates: the Gregorian calendar from year 1 to 9999 |
| `BuildId.ParseInjective` | scripts/stamp_build_manifest.py:314-325 | two accepted build IDs that parse alike are equal |
| `StampHistory.CheckProject` | scripts/stamp_build_manifest.py:422-441 | a checked manifest has a valid ID, the current release digest and the current package version |
| `StampHistory.ManifestFile.StampProject` | scripts/stamp_build_manifest.py:495-543 | a stamp is answered `stamped` exactly when the build IDs and digests allow it, the scans agree, the write succeeds and the sources are still those; the file then holds the ID and digest asked for; the file changes exactly when the checks pass, the manifest is not already that one and the write does not fail before; the outcome says whether it changed; all of it also as one function of the answers |
| `StampHistory.OrdersTell` | scripts/stamp_build_manifest.py:512-520 | two build IDs of the same order are the same ID |
| `StampHistory.ReleaseDigestTells` | scripts/stamp_build_manifest.py:256-277 | the release digest exists exactly with the initializer and within the limits, is over the package under its directory and the scripts, and counts them |
| `StampHistory.LegacyDigestTells` | scripts/stamp_build_manifest.py:246-253 | the legacy digest is over the package alone, without a domain |
| `StampHistory.NeverBackNeverReused` | scripts/stamp_build_manifest.py:495-543 | over any series of stamps the build order never goes back and one build ID never stands beside two digests |
| `StampHistory.EarlierManifest` | scripts/stamp_build_manifest.py:495-543 | any later manifest of a series may follow any earlier one |
| `StampHistory.MigrationAdvances` | scripts/stamp_build_manifest.py:495-530 | a manifest with a legacy digest is replaced only by a strictly newer build with another digest |
| `StampHistory.CoverageShows` | scripts/stamp_build_manifest.py:246-277 | legacy and release digests never coincide |
| `StampHistory.SameHashSameVersion` | scripts/stamp_build_manifest.py:377-441 | equal release digests mean equal package versions |
| `LiveBuild.CountLegacyQueue` | scripts/check_live_build.py:145-175 | the counters taken from the older queue payload are the numbers of its rows |
| `LiveBuild.CompareLiveBuild` | scripts/check_live_build.py:95-226 | refused exactly when a field of the report is unfit, with a reason that is true of it; else mismatches are the differing fields, in field order, the verdict follows from them and the two build orders, a restart is called safe exactly when nothing is queued, running or waiting |
| `LiveBuild.WellFormedExactly` | scripts/check_live_build.py:98-190 | a report can be compared exactly when every field, read by itself, is fit |
| `LiveBuild.IdleMeansResting` | scripts/check_live_build.py:145-194 | the computed idleness is that nothing is queued, running or waiting, for both forms of the report |
| `LiveBuild.VerdictOverHistory` | scripts/check_live_build.py:113-214 | against any earlier manifest of a stamp history: never `disk_older`; `match` for the same build and `restart_required` for any other, but `identity_conflict` if the same build names a Git state |
| `LiveBuild.CompareOverHistory` | src/local_company/dashboard.py:349-357 | the comparison against any earlier manifest; for the identity the service itself reports, only `match` or `restart_required` |
| `Verdicts.MappedActionsAreFinal` | scripts/runtime_guard.py:67-82 | every translated readiness action is one the supervisor may give |
| `Verdicts.ReadinessActions` | scripts/runtime_guard.py:67-82 | which readiness actions become which action of the guard |
| `Verdicts.FinalActions` | scripts/check_runtime_supervisor.py:81-92 | which actions the supervisor never gives |
| `Verdicts.Unique` | scripts/runtime_guard.py:134-149 | each value is kept once, and none is added |
| `Verdicts.UniqueInOrder` | scripts/runtime_guard.py:134-149 | the values stand in the order of their first occurrences |
| `Readiness.CollectBlockers` | scripts/check_readiness.py:460-497 | the blockers are exactly those that apply to the answers; none exactly when nothing stands in the way, else the action is the remedy of the most urgent one, translatable by the others |
| `Readiness.RunReadiness` | scripts/check_readiness.py:322-517 | code 0 exactly when everything is in place; a run that cannot read an answer stops with the one blocker, action and code that are true of it; otherwise the blockers are exactly those that apply |
| `GuardTypes.ViewOf` | scripts/runtime_guard.py:856-917 | a service is live exactly when the status answer says running, live, matching and configured as expected; misconfigured exactly for the same answer with another configuration; gone, lingering or unclear exactly by the answer's own fields |
| `RuntimeGuard.SpawnOllama` | scripts/runtime_guard.py:781-834 | on every path the child is handed over, terminated, or reported as not cleaned up; each of the six outcomes exactly under its answers |
| `RuntimeGuard.WaitForOllama` | scripts/runtime_guard.py:837-853 | the result is that of the first look that does not find the child still starting, or of the last look; a child is reachable only while it is alive |
| `RuntimeGuard.StartOllama` | scripts/runtime_guard.py:1026-1087 | a started child is confirmed and listed, terminated, or a recorded cleanup failure, on every exception path; from the answers, exactly when it starts, is left over, or leaves nothing unclear, and exactly which reasons are named |
| `RuntimeGuard.BringUpOllama` | scripts/runtime_guard.py:1010-1087 | no child without two failed probes, a refused port, and fresh looks at store and manifest; reasons and remembered attempts are exactly those of the answers |
| `RuntimeGuard.BringUpService` | scripts/runtime_guard.py:1098-1141 | the service is started exactly when it is safe, the runtime ready, and store and manifest unchanged |
| `RuntimeGuard.StartService` | scripts/runtime_guard.py:1098-1141 | what is known before the closing looks: reasons, remembered attempts, changes, store and manifest, from the answers |
| `RuntimeGuard.FullReadiness` | scripts/runtime_guard.py:943-978 | ready exactly on a clean code-0 report; otherwise there is an action, the translated one for a request for action |
| `RuntimeGuard.CloseReasons` | scripts/runtime_guard.py:1143-1229 | each reason is left exactly when the closing looks give it; none exactly when two complete looks bracket a ready report; the components show those looks |
| `RuntimeGuard.Conclude` | scripts/runtime_guard.py:1229-1278 | `ready` as computed from snapshot, report and reasons is the same as no reason; status, code, blockers and action agree with it |
| `RuntimeGuard.BlockedActionRemoves` | scripts/runtime_guard.py:1256-1274 | the advice on a blocked result is the remedy of the most urgent blocker |
| `RuntimeGuard.FinishGuard` | scripts/runtime_guard.py:1089-1278 | from the runtime to the verdict: reasons, components, changes and advice are exactly those of the answers; code 0 exactly when nothing was unclear before and both closing looks were complete |
| `RuntimeGuard.BringUpOrStop` | scripts/runtime_guard.py:981-1025 | a guard stops before the closing looks exactly when store or manifest are not as they should be, with the reason, action and components of the first of them |
| `RuntimeGuard.GuardLocked` | scripts/runtime_guard.py:981-1278 | code 0 iff ready iff no blocker, code 2 iff an indeterminate reason, code 1 with blocker and action; each reason is named exactly when the answers give it; code 0 exactly under a condition on all answers, which needs the service read as running, matching and configured at both closing looks; components and changes from the answers; the child accounted for and justified |
| `GuardOnce.CleanupReportSurvives` | scripts/runtime_guard.py:219-239 | a cleanup failure is still reported after recording exactly when recording did not fail |
| `GuardOnce.CleanupReportCanBeLost` | scripts/runtime_guard.py:219-239 | two runs over a child that cannot be terminated: the report is kept when the result is recorded and lost when the journal cannot be written |
| `GuardOnce.RecordingKeepsVerdict` | scripts/runtime_guard.py:329-394 | the verdict stays consistent, changes stay listed, the record is always the guard's own result, and the returned one unless the directory sync failed after the record was in place; a result that could not be recorded says which of two reasons it was |
| `GuardOnce.RunGuardOnce` | scripts/runtime_guard.py:1281-1359 | every result has a consistent verdict; without identity or lock nothing is done and the result says so; a result that cannot be recorded is replaced by one that says why, any other is the guard's own and exactly it is recorded; code 0 exactly under a condition on all answers; a failed cleanup is reported exactly when recording did not fail |
| `Supervisor.Age` | scripts/check_runtime_supervisor.py:588-595 | fresh exactly from 2 s ahead to 420 s old, in the future beyond that, stale before; ages are whole seconds from 0 to a day |
| `Supervisor.JournalStatus` | scripts/check_runtime_supervisor.py:598-614 | which code, status and action is read from which record; `ready` only for this model, without blockers and without an action |
| `Supervisor.ReadinessStatus` | scripts/check_runtime_supervisor.py:617-641 | which code, status and action is read from which report; code 0 exactly on a clean one; always a final action |
| `Supervisor.GuardVerdictIsUnderstood` | scripts/check_runtime_supervisor.py:598-614 | the supervisor reads exactly the guard's own code; its advice survives exactly when it is a final action |
| `Supervisor.AdviceThatReaches` | scripts/runtime_guard.py:1256-1274 | which blockers of the guard lead to advice the supervisor passes on |
| `Supervisor.ReadinessIsUnderstood` | scripts/check_runtime_supervisor.py:617-641 | guard and supervisor draw the same code and action from any readiness result |
| `Supervisor.RecordedResultMatches` | scripts/check_runtime_supervisor.py:715-719 | the record and the exit code of its run agree exactly unless that sync failed and the guard's own code was not 2 |
| `Supervisor.CheckTask` | scripts/check_runtime_supervisor.py:653-690 | passes exactly a healthy task; an early result stands only if the task reads the same twice |
| `Supervisor.CheckJournal` | scripts/check_runtime_supervisor.py:692-723 | passes exactly a fresh correlated `ready` record with task result 0; relays the guard's advice |
| `Supervisor.CheckReadiness` | scripts/check_runtime_supervisor.py:725-758 | `ready` exactly with the pin, equal reads after, and a clean report |
| `Supervisor.ComposeOnce` | scripts/check_runtime_supervisor.py:653-758 | `ready` exactly on the full evidence; every other result names one thing that the attempt found wrong; checks and ages show what was read |
| `Supervisor.RunSupervisorCheck` | scripts/check_runtime_supervisor.py:794-820 | code 0 exactly on the full evidence of the first attempt, or of the second if the first saw something change; a changed snapshot, a lost task and a missing manifest are each reported exactly then; any other result tells and shows what the attempt that counts found |
| `Supervisor.EvidenceInNumbers` | scripts/check_runtime_supervisor.py:653-758 | the full evidence spelled out over the fields read, with its windows in nanoseconds |
| `Supervisor.ReadyIsRecent` | scripts/check_runtime_supervisor.py:66-67 | `ready` bounds the age of the run and the record by 420 s and their distance by 210 s |
| `CycleLaunch.JsonReceipt` | scripts/run_scheduled_cycle.py:34-46 | the receipt found is the last accepted line of both streams, within the limits |
| `CycleLaunch.LastLineCounts` | scripts/run_scheduled_cycle.py:34-46 | a further line hides all earlier receipts exactly when it is at most 65536 characters long and reads as a receipt of the schema |
| `CycleLaunch.RunCycle` | scripts/local_ai.py:2580-2750 | at most one mission, only after two ready previews with enough memory; recovery only when allowed; exit code, receipt, effects and where the receipt is printed are exactly those of the answers |
| `CycleLaunch.RunPrompt` | scripts/run_local_company_prompt.py:185-283 | a receipt without a model call means that no agent was started; each field of the receipt, exactly |
| `CycleLaunch.RunExperiment` | scripts/local_ai.py:1581-1693 | over both attempts at most one agent run and one recovery, the retry only after blocked memory; exit code, receipt and effects are exactly those of the answers |
| `ScheduledCycle.ScheduleExperiment` | scripts/run_scheduled_cycle.py:95-136 | an experiment is launched exactly when none is pending, with recovery allowed only if unused; the outcome is a timeout, an invalid reply, a number of pending experiments or the child's own exit code and receipt, exactly by the replies |
| `ScheduledCycle.RunCycles` | scripts/run_scheduled_cycle.py:196-251 | one retry only after a receipt that asks for memory and a valid recovery; an early end has the code and journal of its reply |
| `ScheduledCycle.RunScheduledCycle` | scripts/run_scheduled_cycle.py:185-295 | every run that returns wrote exactly one journal, last; code and journal are those of the replies (`RunEnds`): the last cycle's own exit code, or the experiment's; the returned code differs from the journaled one exactly when the first cycle exits with 0 without a readable receipt |
| `ScheduledCycle.ExitCodes` | scripts/run_scheduled_cycle.py:196-295 | the returned code from the replies alone: the last cycle's own, the experiment's own, 0 for a pending one, 2 for an invalid reply, 124 for a timeout |
| `ScheduledCycle.StepsAtAGlance` | scripts/run_scheduled_cycle.py:196-262 | all the sequences of steps there are |
| `ScheduledCycle.OneExperimentEnd` | scripts/run_scheduled_cycle.py:95-136 | the replies leave only one outcome of the experiment's part |
| `ScheduledCycle.FirstReceiptCanBeLost` | scripts/run_scheduled_cycle.py:34-46 | such a first cycle: its captured output is over the limit |
| `ScheduledCycle.OneRecovery` | scripts/run_scheduled_cycle.py:205-262 | memory recovery is tried at most once, counting the children |
| `ScheduledCycle.OwnReceiptIsRead` | scripts/local_ai.py:2709-2750 | after a mission that printed no receipt line, the run reads the cycle's own receipt or none |
| `ScheduledCycle.OneModelRun` | scripts/run_scheduled_cycle.py:185-295 | over both cycles, the experiment and its retry, at most one step runs a model in every run exactly when the receipts read do not lead on after a mission |
| `ScheduledCycle.SecondModelRun` | scripts/run_scheduled_cycle.py:205-252 | for two replies of the cycles a run with a second model run exists exactly when their receipts lead on after a mission |
| `ScheduledCycle.HonestMissionsRunOnce` | scripts/run_scheduled_cycle.py:185-295 | if no mission prints a line that reads as a cycle receipt, at most one model runs |
| `ScheduledCycle.ForgedReceiptIsBelieved` | scripts/run_scheduled_cycle.py:34-46 | a first cycle whose mission forges a lack of memory lets a second mission run |
| `ScheduledCycle.ForgedRetryIsBelieved` | scripts/run_scheduled_cycle.py:226-252 | a retried cycle whose mission forges an empty queue lets an experiment run |
| `ScheduledCycle.RetriesOnlyOnce` | scripts/run_scheduled_cycle.py:205-242 | a retried mission that asks for memory leads to no second model run |
| `ScheduledCycle.ExperimentGate` | scripts/run_scheduled_cycle.py:252-262 | an experiment starts exactly after a last cycle read as having had nothing due with none pending; that cycle ran nothing exactly when the receipt read is its own |
| `Whitespace.Strip` | src/local_company/computer_use.py:1171-1192 | stripping leaves nothing exactly of blank text, and leaves no white space at the ends |
| `Whitespace.StripTakesEnds` | src/local_company/computer_use.py:1171-1192 | stripping takes away only white space, and only at the two ends |
| `WorkflowLearning.StepDelay` | src/local_company/computer_use.py:974-975 | the delay is the nearest number of milliseconds to the time since the step before, from 0 to 30000 |
| `WorkflowLearning.Relative` | src/local_company/computer_use.py:1118-1130 | a point lies within half a millionth of its place between the two edges, kept inside them; edges less than one apart count as one apart |
| `WorkflowLearning.LearnSteps` | src/local_company/computer_use.py:1108-1168 | the loop's steps are those of the fold, up to a hundred |
| `WorkflowLearning.StepsAreCaptures` | src/local_company/computer_use.py:1108-1168 | the steps are exactly those of the first hundred captured events, and each tells its own event: where between which edges it was clicked, on what, or which key, over which window, and how long after the captured event before; a text begins exactly more than 0.8 s after the last keystroke or after another step |
| `WorkflowLearning.CapturesInOrder` | src/local_company/computer_use.py:1108-1168 | the captured events are all of them, each once, in order |
| `WorkflowLearning.PlainKeysLeaveNoTrace` | src/local_company/computer_use.py:1138-1168 | recordings that differ only in plain keys teach the same steps |
| `Workflow.CheckStep` | src/local_company/computer_use.py:211-248 | one step passes exactly when it is valid at its place; the failure named is one of its own |
| `Workflow.ValidateWorkflow` | src/local_company/computer_use.py:195-268 | accepted exactly when nothing that can be wrong with a workflow is; the failure named is one of its own; text references distinct and the seal right |
| `Workflow.ValidExactly` | src/local_company/computer_use.py:195-268 | validity is that none of the listed faults, each read off the fields, is there |
| `Workflow.LearnedStepsAreSound` | src/local_company/computer_use.py:1108-1168 | whatever was clicked: consecutive ids, delays and points in range, a reference of its own for every text |
| `Workflow.LearnedTargets` | src/local_company/computer_use.py:173-192 | the learned steps pass the checks on targets exactly when every click among the first hundred captured events does |
| `Workflow.LearnWorkflow` | src/local_company/computer_use.py:1079-1193 | a demonstration is learned exactly when something was captured, the clicked controls are described within the limits and the final expectations are usable; each refusal has its own reason; every step tells its captured event |
| `Workflow.LongNameIsRefused` | src/local_company/computer_use.py:507-521 | a captured demonstration refused for the name of a clicked control |
| `Workflow.LongTitleIsRefused` | src/local_company/computer_use.py:1171-1193 | a captured demonstration refused for the title of its last window |
| `KeyReplay.SafeKeyReplays` | src/local_company/computer_use.py:671-676 | a learned safe key is replayed as the recorded key |
| `KeyReplay.CombinationReplays` | src/local_company/computer_use.py:671-676 | a learned CTRL combination is replayed as recorded |
| `KeyReplay.OtherKeys` | src/local_company/computer_use.py:671-676 | the codes of the modifying keys, and of letters in either case |
| `KeyReplay.ValidPartsCanBePressed` | src/local_company/computer_use.py:238-243 | the checks accept exactly the key parts that can be pressed |
| `KeyReplay.Keypress` | src/local_company/computer_use.py:678-688 | all keys are held together, released in reverse, and none stays down |
| `KeyReplay.Utf16RoundTrip` | src/local_company/computer_use.py:730-736 | the typed UTF-16 code units read back as the text |
| `KeyReplay.TypeText` | src/local_company/computer_use.py:690-742 | each code unit of the text is pressed and released, in order, and they read back as exactly the text; refused exactly when too long or not encodable |
| `JsonValues.PlainEqual` | scripts/setup_local_ai.py:243-337 | Python's equality with a value without numbers is sameness |
| `JsonValues.NumbersEqual` | scripts/setup_local_ai.py:318-322 | a number equals another by value, whatever its kind, with False as 0 and True as 1 |
| `ConfigMerge.MergeConfig` | scripts/setup_local_ai.py:243-337 | the merge in place gives the value and the changes of the merge function |
| `ConfigMerge.MergeIsIdempotent` | scripts/setup_local_ai.py:243-337 | merging the result again changes nothing |
| `ConfigMerge.MergeInstalls` | scripts/setup_local_ai.py:216-337 | the result allows only the local provider, denies the company's tools globally, and has server, agent and models in place |
| `ConfigMerge.NoChangesMeansSame` | scripts/setup_local_ai.py:243-337 | no change is reported exactly when the result is the input |
| `ConfigMerge.MergeKeepsTheRest` | scripts/setup_local_ai.py:293-337 | other top-level keys and other `mcp`, `tools` and `agent` entries are kept |
| `ConfigMerge.McpKeeps` | scripts/setup_local_ai.py:293-317 | an existing command keeps the spelling of its paths |
| `ConfigMerge.ProviderKeeps` | scripts/setup_local_ai.py:268-291 | the local provider keeps its own further fields; no other provider stays |
| `ConfigMerge.ChangesPythonDoesNotSee` | scripts/setup_local_ai.py:318-322 | the only reported change Python's equality does not see is a zero for False |
| `ConfigMerge.ZeroIsRewritten` | scripts/setup_local_ai.py:318-322 | every merged configuration with a zero in that entry is such a case |
| `ConfigMerge.ZeroInAFreshConfig` | scripts/setup_local_ai.py:318-322 | one of them, from an empty configuration |
| `ConfigMerge.ApplyAndCheck` | scripts/setup_local_ai.py:727-743 | if the merged configuration reads back from its own text, the merge of what is then in the file never finds a remaining change; a file that needs no change is left as it was |
| `ConfigRefusals.MergesExactly` | scripts/setup_local_ai.py:243-337 | a configuration is merged exactly when each managed entry, read by itself, may be kept or completed |
| `ConfigRefusals.RefusalExplains` | scripts/setup_local_ai.py:243-337 | what a refusal says is true of the configuration |
| `ConfigRefusals.EachChange` | scripts/setup_local_ai.py:259-337 | each of the eight changes is reported exactly when its entry is not what it was |
| `ConfigRefusals.NewServer` | scripts/setup_local_ai.py:216-226 | a server that was not there is installed with exactly this command, profile and timeout |
| `McpSession.Session.Handle` | src/local_company/mcp_server.py:1500-1557 | state and reply after every message |
| `McpAnswers.BadMessage` | src/local_company/mcp_server.py:1500-1504 | what is no request is refused under its identifier, or none |
| `McpAnswers.Notification` | src/local_company/mcp_server.py:1505-1511 | a notification gets no response and only ever confirms the handshake |
| `McpAnswers.InitializeAnswer` | src/local_company/mcp_server.py:1512-1525 | the first initialize request agrees on the version asked for or on the newest; any other agrees on nothing |
| `McpAnswers.PlainAnswer` | src/local_company/mcp_server.py:1526-1536 | what is answered to every other method, before and after the handshake |
| `McpAnswers.CallAnswer` | src/local_company/mcp_server.py:1537-1557 | a tool call counts; what the caller is told is what the tool returned, refused or failed with |
| `McpAnswers.FullCall` | src/local_company/mcp_server.py:1537-1547 | which calls of the full profile name a tool, with which input |
| `McpAnswers.CompactCallAnswer` | src/local_company/mcp_server.py:1450-1473 | which calls of the compact profile name one, with which input, and each refusal |
| `McpAnswers.UnreadableLine` | src/local_company/mcp_server.py:1560-1571 | a line that is too long, not ended or not JSON is answered as such and changes nothing |
| `McpSession.Lines` | src/local_company/mcp_server.py:1560-1566 | the lines read are within the limit and hold a newline only at their end |
| `McpSession.LinesJoin` | src/local_company/mcp_server.py:1560-1566 | the lines put together are the input |
| `McpSession.Serve` | src/local_company/mcp_server.py:1560-1575 | what is written is the responses to the lines, in order, up to a line that ends the session; the input is served to its end exactly when there is none |
| `McpSession.EndsExactly` | src/local_company/mcp_server.py:1553-1571 | a line ends the session exactly when it is framed well and breaks the reader, or is an accepted call of a tool that fails uncaught |
| `McpSession.LastingIsFirst` | src/local_company/mcp_server.py:1560-1575 | a line is dealt with exactly when neither it nor an earlier one ends the session |
| `McpSession.OneAnswerEach` | src/local_company/mcp_server.py:1500-1575 | exactly then one response with its own identifier to a request and none to a notification; else nothing is said to the line |
| `McpSession.AnswersCount` | src/local_company/mcp_server.py:1560-1575 | as many responses as lines that want one, up to the line that ends the session |
| `McpSession.BrokenLineSilences` | src/local_company/mcp_server.py:1567-1571 | a good request that is never answered |
| `McpSession.NothingBeforeTheHandshake` | src/local_company/mcp_server.py:1507-1532 | no tool runs or is listed before initialize and, after it, the initialized notification |
| `McpSession.BoundedRuns` | src/local_company/mcp_server.py:1537-1549 | at most 128 tool runs in a session |
| `McpSession.CompactEqualsFull` | src/local_company/mcp_server.py:1450-1473 | compact dispatch answers exactly as the full tool, for exactly the known tools |
| `FstringScanner.FindIncompatibleFstrings` | scripts/check_fstring_python_version_compatibility.py:50-64 | the loop reports what the scan of the token list reports |
| `FstringScanner.ScanFindsReuses` | scripts/check_fstring_python_version_compatibility.py:50-64 | on any nesting: exactly the nodes that reuse the quote right around them, in order, and the stack restored |
| `FstringScanner.ScannerIsExact` | scripts/check_fstring_python_version_compatibility.py:32-64 | a source is clean exactly when no quote is reused right inside its f-string |
| `MarkdownText.StepsAreOnePass` | scripts/local_ai.py:920-923 | the five replacements equal a single pass |
| `MarkdownText.UnescapeInvertsEscape` | scripts/local_ai.py:920-923 | unescaping gives the text back |
| `MarkdownText.EscapedRunsAreOdd` | scripts/local_ai.py:920-923 | every backtick, bracket and pipe follows an odd run of backslashes |
| `MarkdownText.NormalizedIsStable` | scripts/local_ai.py:917 | normalising white space twice is normalising it once |
| `MarkdownText.NormalizedKeepsText` | scripts/local_ai.py:917 | normalising drops and adds nothing but white space |
| `MarkdownText.FieldReadsBack` | scripts/local_ai.py:916-923 | a field reads back as its normalised text |
| `MarkdownText.RowSplits` | scripts/local_ai.py:1140-1143 | a row of such cells splits at its unescaped pipes into exactly those cells |
| `MarkdownText.ReviewRows` | scripts/local_ai.py:1117-1145 | every review row has exactly its eight cells, whatever the reviews say; no rows exactly when some review has none; the row in place of no reviews |
| `MarkdownText.CellsExactly` | scripts/local_ai.py:1117-1140 | a review has a row exactly when each of its five texts fits its limit |
| `MarkdownText.CellsTell` | scripts/local_ai.py:1117-1143 | what is read back from each cell of a row |
| `PilotBundle.VerifyBundle` | scripts/verify_pilot_bundle.py:37-156 | accepted exactly when the manifest describes all other members and identifies them; what a refusal says is true of the archive |
| `BundleAnswers.AcceptedExactly` | scripts/verify_pilot_bundle.py:37-143 | acceptance read off the archive: harmless, distinct members within the limits, and one of them a manifest that names all the others with size and digest, in order |
| `BundleAnswers.HarmlessExactly` | scripts/verify_pilot_bundle.py:30-34 | a member name is taken exactly when it is relative, has no backslash or NUL, and nowhere holds two dots alone between slashes |
| `PilotBundle.CheckRecords` | scripts/verify_pilot_bundle.py:98-128 | the record loop passes exactly records that match their members, in strict order |
| `PilotBundle.AcceptedMembers` | scripts/verify_pilot_bundle.py:98-130 | in an accepted archive every member but the manifest is a record's file with the recorded content |
| `PilotBundle.EqualManifestsEqualFiles` | scripts/verify_pilot_bundle.py:98-143 | two accepted archives with equal manifests hold equal files |
| `PilotBundle.SelectedNames` | scripts/build_pilot_bundle.py:19-30 | every selected name is one the verifier takes unless it holds a backslash, and none is the readme's or the manifest's |
| `PilotBundle.BundleIsAccepted` | scripts/build_pilot_bundle.py:138-171 | nothing about manifest, hashes, order or identifier of a built bundle can fail, whatever the files |
| `PilotBundle.BuiltBundleIsAccepted` | scripts/build_pilot_bundle.py:68-171 | the bundle over any selected files is written and accepted exactly when sizes and counts keep the verifier's limits, the build is proper and every name is UTF-8 text without a backslash |
| `PilotBundle.NamesThatFail` | scripts/build_pilot_bundle.py:138-151 | selected names a bundle fails on: one that is not text, one with a backslash |
| `BundleAnswers.Utf8Exactly` | scripts/build_pilot_bundle.py:138-151 | bytes can be written as a name exactly when they spell a text of code points in UTF-8 |
| `PilotBundle.BuildBundle` | scripts/build_pilot_bundle.py:119-189 | the build succeeds exactly then, fails by itself on a name that is not text, and the verifier reports the manifest's own identifier and all files |

## Left out

- Engine and services behind the scripts (`core.py`, `service.py`, `workflow_pilot.py`, `spreadsheet.py`, `dashboard.py`): their answers are arguments.
- WinAPI calls, PowerShell text, hooks, UI Automation, screenshots, link and reparse checks, drive types: only the values they return are modelled.
- HTTP, subprocess plumbing, argument parsing, printing, constant receipt flags.
- Uncaught exceptions that end a script, other than those named: for example a value `json.loads` rejects with a plain ValueError while a receipt is searched, or a KeyError in a guard step.
- `capacity.py`, `config.py`, `model_policy.py`, `select_local_code_model.py`, `browser_operator.py`, `deploy/verify_linux_port.py`, translation and help texts: they look up settings, memory and installed programs, or print fixed texts; what they answer is an argument here.
- The focus enforcement functions (`src/local_company/focus.py:374-442`): single comparisons with the record.
- FocusText.Encoded: a digest's 64 hex digits are a function argument, and texts with unpaired surrogates are not modelled; time texts are any texts of at most 40 characters that survive parsing, not calendar values.
- FocusProtocol.RunKeepsInv: durability of a rename after a power loss and the Windows locking call are taken as the operating system promises them.
- SourceFraming.CalculateFramedDigest: the walk over directories with its depth limit, and files that change while they are read, are one list of files per scan.
- StampHistory.NeverBackNeverReused: two stamping processes at once are not modelled; the file is not locked by the source.
- GuardTypes.Renders: the count rules of the result; the 2048-byte bound and the text patterns hold of the fixed vocabulary and are not proved.
- Readiness.RunReadiness: the components dictionary is not modelled; the three blockers for an unusable service runtime report are one.
- Supervisor.Age: float division is exact integer arithmetic here; the two agree at all thresholds for nanosecond times.
- Supervisor.RunSupervisorCheck: the preparation that can reject the arguments is not modelled.
- FocusReaders.ReadDuringCommits: links and special files in the file's place, and a file removed by somebody else.
- CycleLaunch.JsonReceipt: text is already split into lines, and a line is what it reads as.
- CycleLaunch.RunCycle: an abrupt end of the cycle process is modelled only as a timeout of its caller.
- WorkflowLearning.StepDelay: times and points are exact reals, not binary floating point.
- Workflow.LearnWorkflow: CTRL combinations over codes other than letters and digits, screenshots, and the two file-system steps after sealing are not modelled; texts with unpaired surrogates, which the sealing refuses, are not modelled; text references are numbers, not the texts `TEXT_n`.
- KeyReplay.TypeText: the select-all keystrokes before the text and partial injection by the operating system.
- ConfigMerge.MergeConfig: NaN, the agent's prompt text and permission names (an arbitrary object), and file backup.
- McpSession.CompactEqualsFull: a tool may itself report the profile, as `status` does; the theorem compares sessions over tools that behave alike.
- McpSession.OneAnswerEach: which texts the JSON reader fails on is a function argument, and a response can always be encoded.
- FstringScanner.ScannerIsExact: quote reuse from an f-string further out, and sources the tokenizer rejects.
- MarkdownText.ReviewRows: the other tables of the dossier; numbers are given as they are printed, without pipe or backslash.
- PilotBundle.BuildBundle: the selection's refusal of missing, linked or irregular files; compression and ZIP framing are functions; output collisions and the hash file are not modelled.
- PilotBundle.VerifyBundle: as in the code, names such as `a//b` or `.` are safe, since only a step up is refused; JSON shape errors inside the manifest are one failure.
