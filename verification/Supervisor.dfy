/**
 The runtime supervisor: it never acts, it reads the scheduled task, the guard's recorded result, the
 executable and the readiness report, and says `ready` only when the reads that bracket the readiness
 check agree. Times are whole nanoseconds.
 */
module Supervisor {
  import opened Wrappers
  import opened Verdicts
  import G = GuardTypes
  import RuntimeGuard
  import GuardOnce
  import Readiness

  const NS := 1_000_000_000
  const SCHEDULE_INTERVAL := 300 * NS
  const DISPATCH_GRACE := 120 * NS
  const EXECUTION_LIMIT := 180 * NS
  const CLOCK_SKEW := 2 * NS
  const MAX_READY_AGE := SCHEDULE_INTERVAL + DISPATCH_GRACE
  const MAX_CORRELATION := EXECUTION_LIMIT + 30 * NS

  // ----- what is read -----

  datatype TaskState = TaskReady | TaskRunning | TaskQueued | TaskDisabled | TaskUnknown
  datatype Configuration = Missing | Match | Mismatch

  datatype Task = Task(
    found: bool, configuration: Configuration, enabled: bool, state: TaskState,
    lastResult: Option<int>, lastRun: Option<string>, nextRun: Option<string>)

  datatype TaskReply = QueryFails | Snapshot(task: Task)

  /** The guard's recorded result, with the model it names and the file's identity and time. */
  datatype Journal = Journal(model: string, result: G.Payload, signature: nat, written: int)

  datatype JournalReply = NoJournal | BadJournal | Reads(journal: Journal)

  datatype PinReply = PinHolds | PinDiffers | PinUnusable | PinLostAfterwards

  datatype ReadinessReply =
    | ReadinessFails
    | Report(status: Status, ready: bool, blocked: bool, action: Action, code: int)

  /** Everything one attempt reads, in order; `second` is the task as read again. */
  datatype Attempt = Attempt(
    now: int, task: TaskReply, second: TaskReply, journal: JournalReply, pin: PinReply,
    readiness: ReadinessReply, journalAfter: JournalReply, taskAfter: TaskReply,
    identityAfter: Option<string>, manifestAfter: Option<string>)

  /** The expected model, the identity and manifest read at the start, and how a time text reads. */
  datatype Expected = Expected(model: string, identity: string, manifest: string, parse: string -> Option<int>)

  // ----- ages -----

  datatype Freshness = NoTime | Fresh | StaleTime | Future

  /** How a time and its age are shown: more than two seconds ahead is the future, which has no age; up to seven
      minutes ago is fresh; the age is in whole seconds, from 0 to a day. */
  predicate AgeTold(now: int, time: Option<int>, f: Freshness, age: Option<nat>) {
    match time
    case None => f.NoTime? && age.None?
    case Some(t) =>
      if t > now + 2_000_000_000 then f.Future? && age.None?
      else
        && age.Some? && (if now - t <= 420_000_000_000 then f.Fresh? else f.StaleTime?)
        && (if t >= now then age.value == 0
            else if now - t >= 86400_000_000_000 then age.value == 86400
            else age.value * 1_000_000_000 <= now - t < (age.value + 1) * 1_000_000_000)
  }

  /** How old a time is: never negative, in whole seconds, at most a day. */
  function Age(now: int, time: Option<int>): (r: (Freshness, Option<nat>))
    ensures r.0.Fresh? <==> time.Some? && -CLOCK_SKEW <= now - time.value <= MAX_READY_AGE
    ensures r.1.Some? <==> time.Some? && time.value <= now + CLOCK_SKEW
    ensures r.0.Fresh? ==> r.1.value * NS <= MAX_READY_AGE
    ensures r.1.Some? ==> r.1.value <= 86400
    ensures AgeTold(now, time, r.0, r.1)
  {
    if time.None? then (NoTime, None)
    else
      var delta := now - time.value;
      if delta < -CLOCK_SKEW then (Future, None)
      else
        var age: nat := if delta < 0 then 0 else delta / NS;
        (if delta <= MAX_READY_AGE then Fresh else StaleTime, Some(if age < 86400 then age else 86400))
  }

  function Time(x: Expected, text: Option<string>): Option<int> {
    if text.None? then None else x.parse(text.value)
  }

  predicate DueSoon(now: int, next: Option<int>) {
    next.Some? && -DISPATCH_GRACE <= next.value - now <= SCHEDULE_INTERVAL + DISPATCH_GRACE
  }

  predicate Correlates(run: Option<int>, written: int) {
    run.Some? && run.value - CLOCK_SKEW <= written <= run.value + MAX_CORRELATION
  }

  // ----- what the other scripts said -----

  datatype Reading = Reading(status: Status, code: int, action: Action)

  const UNREADABLE := Reading(IndeterminateStatus, 2, InspectRuntimeGuard)
  const NO_REPORT := Reading(IndeterminateStatus, 2, InspectRuntimeSupervisor)

  function JournalStatus(journal: Journal, model: string): (r: Reading)
    ensures r.code == 0 || r.code == 1 || r.code == 2
    ensures r.code == 0 <==>
              && journal.model == model
              && (journal.result.status.ReadyStatus? || journal.result.status.RecoveredStatus?)
              && journal.result.ready && journal.result.blockers == [] && journal.result.action.NoAction?
    ensures r.code == 1 <==>
              && journal.model == model && journal.result.status.ActionRequiredStatus?
              && !journal.result.ready && journal.result.blockers != []
    ensures r.code == 0 ==> r.status.ReadyStatus? && r.action.NoAction?
    ensures r.code == 1 ==> r.status.ActionRequiredStatus?
                            && r.action == if IsFinalAction(journal.result.action) then journal.result.action
                                           else InspectRuntimeGuard
    ensures r.code == 2 ==> r.status.IndeterminateStatus? && r.action.InspectRuntimeGuard?
    ensures IsFinalAction(r.action)
  {
    var p := journal.result;
    if journal.model != model then UNREADABLE
    else if (p.status.ReadyStatus? || p.status.RecoveredStatus?)
            && p.ready && p.blockers == [] && p.action.NoAction?
    then
      Reading(ReadyStatus, 0, NoAction)
    else if p.status.ActionRequiredStatus? && !p.ready && p.blockers != [] then
      Reading(ActionRequiredStatus, 1, if IsFinalAction(p.action) then p.action else InspectRuntimeGuard)
    else UNREADABLE
  }

  function ReadinessStatus(r: ReadinessReply): (reading: Reading)
    ensures reading.code == 0 || reading.code == 1 || reading.code == 2
    ensures reading.code == 0 <==> r == Report(ReadyStatus, true, false, NoAction, 0)
    ensures reading.code == 0 <==> reading.status.ReadyStatus?
    ensures reading.code == 0 ==> reading.action.NoAction?
    ensures reading.code == 1 <==> r.Report? && r.code == 1 && r.status.ActionRequiredStatus? && !r.ready && r.blocked
    ensures reading.code == 1 ==> reading.action == if MapReadiness(r.action).Some? then MapReadiness(r.action).value
                                                    else InspectRuntimeSupervisor
    ensures reading.code == 2 ==> reading.action.InspectRuntimeSupervisor?
    ensures IsFinalAction(reading.action)
  {
    if r.ReadinessFails? then NO_REPORT
    else if r.code == 0 && r.status.ReadyStatus? && r.ready && !r.blocked && r.action.NoAction? then
      Reading(ReadyStatus, 0, NoAction)
    else if r.code == 1 && r.status.ActionRequiredStatus? && !r.ready && r.blocked then
      match MapReadiness(r.action)
      case Some(action) => MappedActionsAreFinal(r.action); Reading(ActionRequiredStatus, 1, action)
      case None => Reading(ActionRequiredStatus, 1, InspectRuntimeSupervisor)
    else NO_REPORT
  }

  /** The supervisor reads from any guard verdict exactly the guard's own code. The guard's advice
      reaches the reader exactly when it is an action the supervisor may give; otherwise the reader
      is sent to the guard. */
  lemma GuardVerdictIsUnderstood(p: G.Payload, code: int, unclear: seq<G.Reason>, journal: Journal, model: string)
    requires RuntimeGuard.VerdictFits(p, code, unclear)
    requires journal.result == p && journal.model == model
    ensures JournalStatus(journal, model).code == code
    ensures code == 1 ==> (JournalStatus(journal, model).action == p.action
                           <==> IsFinalAction(p.action) || p.action.InspectRuntimeGuard?)
    ensures code == 1 && !IsFinalAction(p.action) ==> JournalStatus(journal, model).action.InspectRuntimeGuard?
  {
    assert code == 2 ==> p.status.IndeterminateStatus?;
  }

  /** Which blockers of a code-1 guard result lead to advice the supervisor passes on. */
  predicate AdviceReaches(blockers: seq<G.Reason>, readinessAction: Action) {
    && G.LegacyServiceRequiresMigration !in blockers
    && (|| G.ServiceConfigurationMismatch in blockers
        || (if G.FullReadinessActionRequired in blockers then IsFinalAction(readinessAction)
            else && G.OllamaExecutablePinRequired !in blockers
                 && (|| G.OllamaExecutableMissing in blockers || G.OllamaStartFailed in blockers
                     || G.OllamaUnavailable in blockers || G.ModelNotInstalled in blockers)))
  }

  lemma AdviceThatReaches(blockers: seq<G.Reason>, readinessAction: Action)
    ensures IsFinalAction(RuntimeGuard.BlockedAction(blockers, readinessAction))
            <==> AdviceReaches(blockers, readinessAction)
  {
    var a := RuntimeGuard.BlockedAction(blockers, readinessAction);
    assert !IsFinalAction(MigrateLegacyService) && !IsFinalAction(ConfigureOllamaExecutablePin);
    assert !IsFinalAction(StartLocalServiceManually) && !IsFinalAction(InspectLocalRuntime);
  }

  /** Every answer of the readiness script means the same to the guard and to the supervisor, and a
      request for action always comes with advice of its own. */
  lemma ReadinessIsUnderstood(p: Readiness.Payload, code: int)
    requires Readiness.CodeFits(p, code)
    ensures var report := Report(p.status, p.ready, p.blockers != [], p.action, code);
            var heard := RuntimeGuard.FullReadiness(
                           RuntimeGuard.ReadinessAnswer(code, p.status, p.ready, p.blockers != [], p.action));
            && ReadinessStatus(report).code == (if code == 3 then 2 else code)
            && (heard.0.ReadinessReady? <==> code == 0)
            && (heard.0.ReadinessActionRequired? <==> code == 1)
            && (code == 1 ==> Some(heard.1) == MapReadiness(p.action) == Some(ReadinessStatus(report).action))
            && (code == 1 ==> IsFinalAction(heard.1))
  {
    if code == 1 {
      MappedActionsAreFinal(p.action);
    }
  }

  // ----- the result -----

  datatype Blocker =
    | TaskMissing | TaskMisconfigured | TaskIsDisabled | TaskOverdue | TaskInProgress | TaskStateUnknown
    | TaskStale | JournalMissing | JournalInvalid | JournalUncorrelated | ResultMismatch
    | GuardActionRequired | GuardIndeterminate | PinMismatch | ExecutableInvalid
    | ReadinessActionRequired | ReadinessIndeterminate | ManifestInvalid | SnapshotChanged | TaskQueryFailed

  datatype LastResult = NoResult | Success | Failure
  datatype JournalSchema = SchemaUnknown | SchemaMissing | SchemaValid | SchemaInvalid
  datatype Correlation = CorrelationUnknown | CorrelationMatch | CorrelationMismatch
  datatype PinCheck = PinUnknown | PinMatch | PinCheckMismatch | PinInvalid

  datatype Checks = Checks(
    configuration: Option<Configuration>, state: TaskState, lastResult: LastResult, taskFreshness: Freshness,
    schema: JournalSchema, journalStatus: Option<Status>, journalFreshness: Freshness, correlation: Correlation,
    pin: PinCheck, readiness: Option<Status>, readinessAction: Action)

  const EMPTY_CHECKS := Checks(
    None, TaskUnknown, NoResult, NoTime, SchemaUnknown, None, NoTime, CorrelationUnknown, PinUnknown, None, NoAction)

  const ALL_GOOD := Checks(
    Some(Match), TaskReady, Success, Fresh, SchemaValid, Some(ReadyStatus), Fresh, CorrelationMatch, PinMatch,
    Some(ReadyStatus), NoAction)

  datatype Payload = Payload(
    status: Status, ready: bool, checks: Checks, taskAge: Option<nat>, journalAge: Option<nat>,
    blockers: seq<Blocker>, action: Action)

  function Say(code: int, checks: Checks, blockers: seq<Blocker>, action: Action, taskAge: Option<nat>,
               journalAge: Option<nat>): Payload {
    Payload(if code == 0 then ReadyStatus else if code == 1 then ActionRequiredStatus else IndeterminateStatus,
            code == 0, checks, taskAge, journalAge, blockers, action)
  }

  /** What render_result demands, and that ready, code 0 and no blocker are the same thing. */
  predicate ResultFits(p: Payload, code: int) {
    && (code == 0 || code == 1 || code == 2)
    && (code == 0 <==> p.ready) && (p.ready <==> p.status.ReadyStatus?) && (p.ready <==> p.blockers == [])
    && (code == 1 <==> p.status.ActionRequiredStatus?)
    && (p.ready ==> p.action.NoAction?) && IsFinalAction(p.action) && IsFinalAction(p.checks.readinessAction)
    && |p.blockers| <= 12
    && (p.taskAge.Some? ==> p.taskAge.value <= 86400) && (p.journalAge.Some? ==> p.journalAge.value <= 86400)
  }

  datatype Composition = Composed(payload: Payload, code: int) | Changed | TaskUnreadable

  /** A result drawn from the task alone stands only if the task reads the same a second time. */
  function IfStable(second: TaskReply, task: Task, p: Payload, code: int): Composition {
    if second.QueryFails? then TaskUnreadable
    else if second.task != task then Changed
    else Composed(p, code)
  }

  // ----- the evidence for `ready` -----

  /** The task: found, as configured, enabled, idle, ran lately with success, and due soon. */
  predicate TaskHealthy(x: Expected, task: Task, now: int) {
    && task.found && task.configuration.Match? && task.enabled && task.state.TaskReady?
    && task.lastResult == Some(0)
    && Age(now, Time(x, task.lastRun)).0.Fresh?
    && DueSoon(now, Time(x, task.nextRun))
  }

  /** The record: written lately, within that run's window, and saying `ready` for this model. */
  predicate JournalHealthy(x: Expected, journal: Journal, task: Task, now: int) {
    && JournalStatus(journal, x.model).code == 0
    && -CLOCK_SKEW <= now - journal.written <= MAX_READY_AGE
    && Correlates(Time(x, task.lastRun), journal.written)
  }

  /** The reads after the readiness check repeat the ones before it. */
  predicate Bracketed(x: Expected, a: Attempt) {
    && a.taskAfter == a.task && a.journalAfter == a.journal
    && a.identityAfter == Some(x.identity) && a.manifestAfter == Some(x.manifest)
  }

  predicate ReadyEvidence(x: Expected, a: Attempt) {
    && Healthy(x, a)
    && a.pin.PinHolds?
    && a.readiness == Report(ReadyStatus, true, false, NoAction, 0)
    && Bracketed(x, a)
  }

  /** What must hold before the executable and the readiness report are looked at. */
  predicate Healthy(x: Expected, a: Attempt) {
    && a.task.Snapshot? && TaskHealthy(x, a.task.task, a.now)
    && a.journal.Reads? && JournalHealthy(x, a.journal.journal, a.task.task, a.now)
  }

  /** The second look at the task alone differs from the first. */
  predicate TaskMoves(a: Attempt, task: Task) {
    a.second.Snapshot? && a.second.task != task
  }

  /** The reads after the readiness check differ, and were made: an executable that is wrong at once ends
      the attempt before them, and a task that cannot be queried ends it otherwise. */
  predicate BracketBreaks(x: Expected, a: Attempt) {
    && !a.pin.PinDiffers? && !a.pin.PinUnusable?
    && (!a.journalAfter.Reads? || (!a.taskAfter.QueryFails? && !Bracketed(x, a)))
  }

  /** An attempt sees something change and is given up. */
  predicate SeesChange(x: Expected, a: Attempt) {
    a.task.Snapshot? && if Healthy(x, a) then BracketBreaks(x, a) else TaskMoves(a, a.task.task)
  }

  // ----- one attempt -----

  /** What the result shows of the task. */
  predicate ShowsTask(x: Expected, a: Attempt, task: Task, c: Checks, age: Option<nat>) {
    && c.configuration == Some(task.configuration) && c.state == task.state
    && (c.lastResult.NoResult? <==> task.lastResult.None?) && (c.lastResult.Success? <==> task.lastResult == Some(0))
    && AgeTold(a.now, Time(x, task.lastRun), c.taskFreshness, age)
  }

  /** What it shows of the record, which is looked at after a healthy task. */
  predicate ShowsJournal(x: Expected, a: Attempt, task: Task, c: Checks, age: Option<nat>) {
    if TaskHealthy(x, task.(lastResult := Some(0)), a.now) && a.journal.Reads? then
      ShowsRecord(x, a.now, task, a.journal.journal, c, age)
    else
      && (if !TaskHealthy(x, task.(lastResult := Some(0)), a.now) then c.schema.SchemaUnknown?
          else if a.journal.NoJournal? then c.schema.SchemaMissing? else c.schema.SchemaInvalid?)
      && c.journalStatus.None? && c.journalFreshness.NoTime? && c.correlation.CorrelationUnknown? && age.None?
  }

  predicate ShowsRecord(x: Expected, now: int, task: Task, record: Journal, c: Checks, age: Option<nat>) {
    && c.schema.SchemaValid? && c.journalStatus == Some(JournalStatus(record, x.model).status)
    && AgeTold(now, Some(record.written), c.journalFreshness, age)
    && (if Correlates(Time(x, task.lastRun), record.written) then c.correlation.CorrelationMatch?
        else c.correlation.CorrelationMismatch?)
  }

  /** What it shows of the executable and of the readiness report, which come last. */
  predicate ShowsReadiness(x: Expected, a: Attempt, c: Checks) {
    var reading := ReadinessStatus(a.readiness);
    if !Healthy(x, a) then c.pin.PinUnknown? && c.readiness.None? && c.readinessAction.NoAction?
    else
      match a.pin
      case PinDiffers => c.pin.PinCheckMismatch? && c.readiness.None? && c.readinessAction.NoAction?
      case PinUnusable => c.pin.PinInvalid? && c.readiness.None? && c.readinessAction.NoAction?
      case PinHolds =>
        c.pin.PinMatch? && c.readiness == Some(reading.status) && c.readinessAction == reading.action
      case PinLostAfterwards =>
        c.pin.PinInvalid? && c.readiness == Some(reading.status) && c.readinessAction == reading.action
  }

  /** A result drawn from the task names what is wrong with it. */
  predicate TaskTold(x: Expected, a: Attempt, task: Task, p: Payload, code: int) {
    var age := Age(a.now, Time(x, task.lastRun)).1;
    var late := age.Some? && age.value * NS > MAX_CORRELATION;
    && |p.blockers| == 1
    && match p.blockers[0]
       case TaskMissing => !task.found && code == 1 && p.action.InstallRuntimeGuardTask?
       case TaskMisconfigured =>
         task.found && !task.configuration.Match? && code == 2 && p.action.InspectRuntimeGuardTask?
       case TaskIsDisabled =>
         && task.configuration.Match? && (!task.enabled || task.state.TaskDisabled?)
         && code == 1 && p.action.EnableRuntimeGuardTask?
       case TaskOverdue =>
         && task.enabled && (task.state.TaskRunning? || task.state.TaskQueued?) && late
         && code == 2 && p.action.InspectRuntimeGuardTask?
       case TaskInProgress =>
         && task.enabled && (task.state.TaskRunning? || task.state.TaskQueued?) && !late
         && code == 1 && p.action.WaitForRuntimeGuardTask?
       case TaskStateUnknown =>
         task.enabled && task.state.TaskUnknown? && code == 2 && p.action.InspectRuntimeGuardTask?
       case TaskStale =>
         && task.enabled && task.state.TaskReady? && code == 1 && p.action.RunRuntimeGuardTask?
         && !(Age(a.now, Time(x, task.lastRun)).0.Fresh? && DueSoon(a.now, Time(x, task.nextRun)))
       case _ => false
  }

  /** A result drawn from the record names what is wrong with it. */
  predicate JournalTold(x: Expected, a: Attempt, task: Task, p: Payload, code: int) {
    && |p.blockers| == 1
    && match p.blockers[0]
       case JournalMissing => a.journal.NoJournal? && code == 1 && p.action.RunRuntimeGuardTask?
       case JournalInvalid => a.journal.BadJournal? && code == 2 && p.action.InspectRuntimeGuard?
       case JournalUncorrelated =>
         && a.journal.Reads? && code == 2 && p.action.InspectRuntimeGuard?
         && !(-CLOCK_SKEW <= a.now - a.journal.journal.written <= MAX_READY_AGE
              && Correlates(Time(x, task.lastRun), a.journal.journal.written))
       case ResultMismatch =>
         && a.journal.Reads? && task.lastResult != Some(JournalStatus(a.journal.journal, x.model).code)
         && code == 2 && p.action.InspectRuntimeGuard?
       case GuardActionRequired =>
         && a.journal.Reads? && code == 1
         && JournalStatus(a.journal.journal, x.model) == Reading(ActionRequiredStatus, 1, p.action)
       case GuardIndeterminate =>
         && a.journal.Reads? && code == 2 && p.action.InspectRuntimeGuard?
         && JournalStatus(a.journal.journal, x.model).code == 2
       case _ => false
  }

  predicate Carries(p: Payload, c: Checks, taskAge: Option<nat>, journalAge: Option<nat>) {
    p.checks == c && p.taskAge == taskAge && p.journalAge == journalAge
  }

  /** The checks up to the record: either a result, or the record and the task's age. */
  method CheckTask(x: Expected, a: Attempt, task: Task)
    returns (early: Option<Composition>, checks: Checks, taskAge: Option<nat>)
    ensures early.None? <==> TaskHealthy(x, task.(lastResult := Some(0)), a.now)
    ensures early.Some? && early.value.Composed? ==>
              ResultFits(early.value.payload, early.value.code) && early.value.code != 0 && a.second == Snapshot(task)
    ensures early.Some? ==> (early.value.Changed? <==> TaskMoves(a, task))
    ensures early.Some? ==> (early.value.TaskUnreadable? <==> a.second.QueryFails?)
    ensures early.Some? && early.value.Composed? ==> TaskTold(x, a, task, early.value.payload, early.value.code)
    ensures checks == EMPTY_CHECKS.(configuration := Some(task.configuration), state := task.state,
                                    lastResult := if task.lastResult.None? then NoResult
                                                  else if task.lastResult == Some(0) then Success else Failure,
                                    taskFreshness := Age(a.now, Time(x, task.lastRun)).0)
    ensures taskAge == Age(a.now, Time(x, task.lastRun)).1
    ensures early.Some? && early.value.Composed? ==> Carries(early.value.payload, checks, taskAge, None)
  {
    var (freshness, age) := Age(a.now, Time(x, task.lastRun));
    taskAge := age;
    checks := EMPTY_CHECKS.(configuration := Some(task.configuration), state := task.state);
    checks := checks.(lastResult := if task.lastResult.None? then NoResult
                                    else if task.lastResult == Some(0) then Success else Failure);
    checks := checks.(taskFreshness := freshness);
    var code, blocker, action;
    if !task.found {
      code, blocker, action := 1, TaskMissing, InstallRuntimeGuardTask;
    } else if !task.configuration.Match? {
      code, blocker, action := 2, TaskMisconfigured, InspectRuntimeGuardTask;
    } else if !task.enabled || task.state.TaskDisabled? {
      code, blocker, action := 1, TaskIsDisabled, EnableRuntimeGuardTask;
    } else if task.state.TaskRunning? || task.state.TaskQueued? {
      if age.Some? && age.value * NS > MAX_CORRELATION {
        code, blocker, action := 2, TaskOverdue, InspectRuntimeGuardTask;
      } else {
        code, blocker, action := 1, TaskInProgress, WaitForRuntimeGuardTask;
      }
    } else if !task.state.TaskReady? {
      code, blocker, action := 2, TaskStateUnknown, InspectRuntimeGuardTask;
    } else if !freshness.Fresh? || !DueSoon(a.now, Time(x, task.nextRun)) {
      code, blocker, action := 1, TaskStale, RunRuntimeGuardTask;
    } else {
      return None, checks, age;
    }
    early := Some(IfStable(a.second, task, Say(code, checks, [blocker], action, age, None), code));
  }

  /** The record against the task: a result, or nothing when the guard itself said `ready`. */
  method CheckJournal(x: Expected, a: Attempt, task: Task, before: Checks, taskAge: Option<nat>)
    returns (early: Option<Composition>, checks: Checks, journalAge: Option<nat>)
    requires before.readinessAction.NoAction? && (taskAge.Some? ==> taskAge.value <= 86400)
    ensures early.None? <==>
              a.journal.Reads? && JournalHealthy(x, a.journal.journal, task, a.now) && task.lastResult == Some(0)
    ensures early.Some? && early.value.Composed? ==>
              ResultFits(early.value.payload, early.value.code) && early.value.code != 0 && a.second == Snapshot(task)
    ensures early.Some? ==> (early.value.Changed? <==> TaskMoves(a, task))
    ensures early.Some? ==> (early.value.TaskUnreadable? <==> a.second.QueryFails?)
    ensures early.Some? && early.value.Composed? ==> JournalTold(x, a, task, early.value.payload, early.value.code)
    ensures early.None? ==> checks == before.(schema := SchemaValid, journalStatus := Some(ReadyStatus),
                                              journalFreshness := Fresh, correlation := CorrelationMatch)
    ensures checks == before.(schema := checks.schema, journalStatus := checks.journalStatus,
                              journalFreshness := checks.journalFreshness, correlation := checks.correlation)
    ensures if a.journal.Reads? then ShowsRecord(x, a.now, task, a.journal.journal, checks, journalAge)
            else checks == before.(schema := if a.journal.NoJournal? then SchemaMissing else SchemaInvalid)
                 && journalAge.None?
    ensures early.Some? && early.value.Composed? ==> Carries(early.value.payload, checks, taskAge, journalAge)
    ensures journalAge.Some? ==> journalAge.value <= 86400
  {
    checks, journalAge := before, None;
    var code, blocker, action;
    if a.journal.NoJournal? {
      checks := checks.(schema := SchemaMissing);
      code, blocker, action := 1, JournalMissing, RunRuntimeGuardTask;
    } else if a.journal.BadJournal? {
      checks := checks.(schema := SchemaInvalid);
      code, blocker, action := 2, JournalInvalid, InspectRuntimeGuard;
    } else {
      var journal := a.journal.journal;
      var reading := JournalStatus(journal, x.model);
      checks := checks.(schema := SchemaValid, journalStatus := Some(reading.status));
      var (freshness, age) := Age(a.now, Some(journal.written));
      journalAge := age;
      var correlates := Correlates(Time(x, task.lastRun), journal.written);
      checks := checks.(journalFreshness := freshness);
      checks := checks.(correlation := if correlates then CorrelationMatch else CorrelationMismatch);
      if !freshness.Fresh? || !correlates {
        code, blocker, action := 2, JournalUncorrelated, InspectRuntimeGuard;
      } else if task.lastResult != Some(reading.code) {
        code, blocker, action := 2, ResultMismatch, InspectRuntimeGuard;
      } else if reading.code != 0 {
        code, action := reading.code, reading.action;
        blocker := if code == 1 then GuardActionRequired else GuardIndeterminate;
      } else {
        return None, checks, age;
      }
    }
    early := Some(IfStable(a.second, task, Say(code, checks, [blocker], action, taskAge, journalAge), code));
  }

  /** A result drawn from the executable or the readiness report says which of them it was. */
  predicate PinOrReadinessTold(a: Attempt, p: Payload, code: int) {
    if p.blockers == [] then a.pin.PinHolds? && code == 0
    else
      && |p.blockers| == 1
      && match p.blockers[0]
         case PinMismatch => a.pin.PinDiffers? && code == 2 && p.action.InspectOllamaService?
         case ExecutableInvalid =>
           (a.pin.PinUnusable? || a.pin.PinLostAfterwards?) && code == 2 && p.action.InspectOllamaService?
         case ReadinessActionRequired =>
           code == 1 && ReadinessStatus(a.readiness) == Reading(ActionRequiredStatus, 1, p.action)
         case ReadinessIndeterminate =>
           code == 2 && p.action.InspectRuntimeSupervisor? && ReadinessStatus(a.readiness).code == 2
         case _ => false
  }

  /** The readiness check inside its bracket of repeated reads. */
  method CheckReadiness(x: Expected, a: Attempt, before: Checks, taskAge: Option<nat>, journalAge: Option<nat>)
    returns (c: Composition)
    requires a.task.Snapshot? && a.journal.Reads? && before.readinessAction.NoAction?
    requires (taskAge.Some? ==> taskAge.value <= 86400) && (journalAge.Some? ==> journalAge.value <= 86400)
    ensures c.Composed? ==> ResultFits(c.payload, c.code)
    ensures c.Composed? && c.code == 0 <==>
              a.pin.PinHolds? && Bracketed(x, a) && a.readiness == Report(ReadyStatus, true, false, NoAction, 0)
    ensures c.Composed? && c.code == 0 ==>
              c.payload.checks == before.(pin := PinMatch, readiness := Some(ReadyStatus), readinessAction := NoAction)
    ensures c.Composed? ==>
              Carries(c.payload, before.(pin := c.payload.checks.pin, readiness := c.payload.checks.readiness,
                                         readinessAction := c.payload.checks.readinessAction), taskAge, journalAge)
    ensures c.Composed? && Healthy(x, a) && before.readiness.None? ==> ShowsReadiness(x, a, c.payload.checks)
    ensures c.Composed? && (a.pin.PinHolds? || a.pin.PinLostAfterwards?) ==> Bracketed(x, a)
    ensures c.Composed? ==> PinOrReadinessTold(a, c.payload, c.code)
    ensures c.Changed? <==> BracketBreaks(x, a)
    ensures c.TaskUnreadable? <==>
              !a.pin.PinDiffers? && !a.pin.PinUnusable? && a.journalAfter.Reads? && a.taskAfter.QueryFails?
  {
    var checks := before;
    if a.pin.PinDiffers? {
      checks := checks.(pin := PinCheckMismatch);
      return Composed(Say(2, checks, [PinMismatch], InspectOllamaService, taskAge, journalAge), 2);
    }
    if a.pin.PinUnusable? {
      checks := checks.(pin := PinInvalid);
      return Composed(Say(2, checks, [ExecutableInvalid], InspectOllamaService, taskAge, journalAge), 2);
    }
    var reading := ReadinessStatus(a.readiness);
    checks := checks.(pin := PinMatch, readiness := Some(reading.status), readinessAction := reading.action);
    if !a.journalAfter.Reads? {
      return Changed;
    }
    if a.taskAfter.QueryFails? {
      return TaskUnreadable;
    }
    if !Bracketed(x, a) {
      return Changed;
    }
    if a.pin.PinLostAfterwards? {
      checks := checks.(pin := PinInvalid);
      return Composed(Say(2, checks, [ExecutableInvalid], InspectOllamaService, taskAge, journalAge), 2);
    }
    if reading.code == 0 {
      return Composed(Say(0, checks, [], NoAction, taskAge, journalAge), 0);
    }
    var blocker := if reading.code == 1 then ReadinessActionRequired else ReadinessIndeterminate;
    return Composed(Say(reading.code, checks, [blocker], reading.action, taskAge, journalAge), reading.code);
  }

  /** What a result of one attempt tells is what that attempt found. */
  predicate AttemptTold(x: Expected, a: Attempt, p: Payload, code: int) {
    && a.task.Snapshot?
    && var task := a.task.task;
       if !TaskHealthy(x, task.(lastResult := Some(0)), a.now) then TaskTold(x, a, task, p, code)
       else if !Healthy(x, a) then JournalTold(x, a, task, p, code)
       else PinOrReadinessTold(a, p, code)
  }

  /** What a result of one attempt shows is what that attempt found. */
  predicate AttemptShown(x: Expected, a: Attempt, p: Payload) {
    && a.task.Snapshot?
    && ShowsTask(x, a, a.task.task, p.checks, p.taskAge)
    && ShowsJournal(x, a, a.task.task, p.checks, p.journalAge)
    && ShowsReadiness(x, a, p.checks)
  }

  /** The task cannot be queried where its answer is needed. */
  predicate TaskIsLost(x: Expected, a: Attempt) {
    || a.task.QueryFails?
    || (!Healthy(x, a) && a.second.QueryFails?)
    || (Healthy(x, a) && !a.pin.PinDiffers? && !a.pin.PinUnusable? && a.journalAfter.Reads? && a.taskAfter.QueryFails?)
  }

  /** One attempt never blames what only the whole check can see. */
  lemma AttemptBlames(x: Expected, a: Attempt, p: Payload, code: int)
    requires AttemptTold(x, a, p, code)
    ensures SnapshotChanged !in p.blockers && TaskQueryFailed !in p.blockers && ManifestInvalid !in p.blockers
    ensures p.blockers == [ResultMismatch] ==>
              a.journal.Reads? && a.task.task.lastResult != Some(JournalStatus(a.journal.journal, x.model).code)
  {
    assert |p.blockers| <= 1 && forall b :: b in p.blockers ==> p.blockers == [b];
  }

  method ComposeOnce(x: Expected, a: Attempt) returns (c: Composition)
    ensures c.Composed? ==> ResultFits(c.payload, c.code)
    ensures c.Composed? && c.code == 0 <==> ReadyEvidence(x, a)
    ensures c.Composed? && c.code == 0 ==> c.payload.checks == ALL_GOOD
    ensures c.Composed? && a.pin.PinHolds? ==> a.second == a.task || Bracketed(x, a)
    ensures c.Changed? <==> SeesChange(x, a)
    ensures c.TaskUnreadable? <==> TaskIsLost(x, a)
    ensures c.Composed? ==> AttemptTold(x, a, c.payload, c.code) && AttemptShown(x, a, c.payload)
  {
    if a.task.QueryFails? {
      return TaskUnreadable;
    }
    var early, checks, taskAge := CheckTask(x, a, a.task.task);
    if early.Some? {
      return early.value;
    }
    var journalAge;
    early, checks, journalAge := CheckJournal(x, a, a.task.task, checks, taskAge);
    if early.Some? {
      return early.value;
    }
    c := CheckReadiness(x, a, checks, taskAge, journalAge);
  }

  // ----- the whole check -----

  /** Two attempts at most: the second only when the first saw something change. Code 0 is exactly the
      full evidence of the attempt that counts. */
  method RunSupervisorCheck(manifest: Option<string>, model: string, identity: string,
                            parse: string -> Option<int>, first: Attempt, second: Attempt)
    returns (p: Payload, code: int)
    ensures ResultFits(p, code)
    ensures code == 0 ==> p.checks == ALL_GOOD
    ensures var x := Expected(model, identity, if manifest.Some? then manifest.value else "", parse);
            && (code == 0 <==> && manifest.Some?
                               && (ReadyEvidence(x, first) || (SeesChange(x, first) && ReadyEvidence(x, second))))
            && (p.blockers == [SnapshotChanged] <==> manifest.Some? && SeesChange(x, first) && SeesChange(x, second))
            && (p.blockers == [TaskQueryFailed] <==>
                  manifest.Some? && TaskIsLost(x, if SeesChange(x, first) then second else first))
            && (p.blockers == [ManifestInvalid] <==> manifest.None?)
            && (manifest.Some? && p.blockers !in [[SnapshotChanged], [TaskQueryFailed]] ==>
                  && AttemptTold(x, if SeesChange(x, first) then second else first, p, code)
                  && AttemptShown(x, if SeesChange(x, first) then second else first, p))
            && (p.blockers in [[SnapshotChanged], [TaskQueryFailed], [ManifestInvalid]] ==>
                  p.checks == EMPTY_CHECKS && p.taskAge.None? && p.journalAge.None?)
    ensures p.blockers == [SnapshotChanged] ==> code == 2 && p.action.RetryRuntimeSupervisor?
    ensures p.blockers == [TaskQueryFailed] ==> code == 2 && p.action.InspectRuntimeGuardTask?
    ensures p.blockers == [ManifestInvalid] ==> code == 2 && p.action.InspectBuildManifest?
  {
    if manifest.None? {
      return Say(2, EMPTY_CHECKS, [ManifestInvalid], InspectBuildManifest, None, None), 2;
    }
    var x := Expected(model, identity, manifest.value, parse);
    var attempt := 0;
    while attempt < 2
      invariant attempt <= 2
      invariant attempt > 0 ==> SeesChange(x, first)
      invariant attempt > 1 ==> SeesChange(x, second)
    {
      var c := ComposeOnce(x, if attempt == 0 then first else second);
      match c {
        case Composed(payload, result) =>
          AttemptBlames(x, if attempt == 0 then first else second, payload, result);
          return payload, result;
        case TaskUnreadable =>
          return Say(2, EMPTY_CHECKS, [TaskQueryFailed], InspectRuntimeGuardTask, None, None), 2;
        case Changed => attempt := attempt + 1;
      }
    }
    return Say(2, EMPTY_CHECKS, [SnapshotChanged], RetryRuntimeSupervisor, None, None), 2;
  }

  // ----- what `ready` means over time -----

  /** The evidence in plain numbers: the task ran successfully, from two seconds in the future to seven minutes
      ago, and runs again from two minutes ago to seven minutes ahead; the guard wrote its `ready` record within
      the same seven minutes, from two seconds before to three and a half minutes after that run; and everything
      read again reads the same. */
  lemma EvidenceInNumbers(x: Expected, a: Attempt)
    ensures ReadyEvidence(x, a) <==>
            && a.task.Snapshot? && a.journal.Reads?
            && var task, record := a.task.task, a.journal.journal;
               && task.found && task.configuration.Match? && task.enabled && task.state.TaskReady?
               && task.lastResult == Some(0) && task.lastRun.Some? && task.nextRun.Some?
               && var run, next := x.parse(task.lastRun.value), x.parse(task.nextRun.value);
                  && run.Some? && next.Some?
                  && -2_000_000_000 <= a.now - run.value <= 420_000_000_000
                  && -120_000_000_000 <= next.value - a.now <= 420_000_000_000
                  && -2_000_000_000 <= a.now - record.written <= 420_000_000_000
                  && -2_000_000_000 <= record.written - run.value <= 210_000_000_000
                  && record.model == x.model && record.result.ready && record.result.blockers == []
                  && record.result.action.NoAction?
                  && (record.result.status.ReadyStatus? || record.result.status.RecoveredStatus?)
                  && a.pin.PinHolds? && a.readiness == Report(ReadyStatus, true, false, NoAction, 0)
                  && a.taskAfter == a.task && a.journalAfter == a.journal
                  && a.identityAfter == Some(x.identity) && a.manifestAfter == Some(x.manifest)
  {
  }

  /** On `ready`, the guard's run that reported `ready` started at most 420 s before the check and at
      most 2 s after it, and its record was written from 2 s before to 210 s after that start. */
  lemma ReadyIsRecent(x: Expected, a: Attempt)
    requires ReadyEvidence(x, a)
    ensures var run := Time(x, a.task.task.lastRun);
            var written := a.journal.journal.written;
            && run.Some? && -2 * NS <= a.now - run.value <= 420 * NS
            && -2 * NS <= a.now - written <= 420 * NS
            && -2 * NS <= written - run.value <= 210 * NS
    ensures a.journal.journal.result.ready && a.journal.journal.result.blockers == []
  {
  }

  /** The record of the run whose exit code the task shows agrees with it, unless the directory could
      not be synced once the record was in place: then the run returned 2, and the two agree only if
      the guard's own result had code 2 as well. */
  lemma RecordedResultMatches(
    inner: G.Payload, code: int, unclear: seq<G.Reason>, s: GuardOnce.Surroundings, journal: Journal, model: string)
    requires RuntimeGuard.VerdictFits(inner, code, unclear) && G.Renders(inner)
    requires GuardOnce.Recorded(inner, code, unclear, s).journal == Some(journal.result) && journal.model == model
    ensures GuardOnce.Recorded(inner, code, unclear, s).code == JournalStatus(journal, model).code
            <==> s.journal.Written? || code == 2
  {
    GuardOnce.RecordingKeepsVerdict(inner, code, unclear, s);
    GuardVerdictIsUnderstood(inner, code, unclear, journal, model);
  }
}
