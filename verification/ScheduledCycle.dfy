/**
 One scheduled run: a cycle, at most one memory recovery with one more cycle, at most one experiment
 when nothing was due, and a journal of what happened.
 */
module ScheduledCycle {
  import opened Wrappers
  import opened CycleLaunch

  // ----- the children of one run -----

  datatype CycleReply = CycleTimesOut(effects: Effects) | CycleExits(launch: Launch)
  datatype ChildReply = ChildTimesOut(effects: Effects) | ChildExits(child: Child)

  /** Every child this run may start; `writeFails` says whether the journal can be written. */
  datatype Answers = Answers(
    first: CycleReply, recovery: bool, second: CycleReply, pending: ChildReply, experiment: ChildReply,
    writeFails: bool)

  function EffectsOfCycle(r: CycleReply): Effects {
    if r.CycleTimesOut? then r.effects else r.launch.effects
  }

  function EffectsOfChild(r: ChildReply): Effects {
    if r.ChildTimesOut? then r.effects else r.child.effects
  }

  /** A `cycle` that may be killed at any point. */
  ghost predicate CycleReplyFits(r: CycleReply) {
    if r.CycleTimesOut? then r.effects.models <= 1 && r.effects.recoveries == 0 else CycleFits(false, r.launch)
  }

  ghost predicate ExperimentReplyFits(recover: bool, r: ChildReply) {
    if r.ChildTimesOut? then r.effects.models <= 1 && r.effects.recoveries <= (if recover then 1 else 0)
    else ExperimentFits(recover, r.child)
  }

  /** The children behave as their own contracts say; listing pending experiments does nothing else. */
  ghost predicate Fits(a: Answers) {
    && CycleReplyFits(a.first) && CycleReplyFits(a.second)
    && EffectsOfChild(a.pending) == NOTHING
    && ExperimentReplyFits(!Retries(a.first), a.experiment)
  }

  // ----- what a run does next -----

  function CycleSays(l: Launch): Option<Receipt> {
    ReceiptOf(l.out, l.err, CycleSchema)
  }

  /** The run believes that the cycle stopped for lack of memory. */
  predicate AsksForMemory(l: Launch) {
    && l.code == 0 && CycleSays(l).Some?
    && CycleSays(l).value.CycleReceipt?
    && CycleSays(l).value.status.Blocked? && CycleSays(l).value.reason.InsufficientMemory?
  }

  /** The run believes that the cycle ran nothing because nothing was due. */
  predicate SaysNothingDue(l: Launch) {
    && l.code == 0 && CycleSays(l).Some?
    && CycleSays(l).value.CycleReceipt?
    && CycleSays(l).value.status.NoDueMission? && CycleSays(l).value.reason.NoDueReason?
    && CycleSays(l).value.missionsRun == Some(0) && CycleSays(l).value.modelCalled == Some(false)
  }

  predicate Retries(r: CycleReply) {
    r.CycleExits? && AsksForMemory(r.launch)
  }

  /** The last cycle of the run, if the run gets past recovery. */
  function Settled(a: Answers): Option<CycleReply> {
    if !Retries(a.first) then Some(a.first) else if a.recovery then Some(a.second) else None
  }

  predicate AsksPending(a: Answers) {
    Settled(a).Some? && Settled(a).value.CycleExits? && SaysNothingDue(Settled(a).value.launch)
  }

  predicate NoneIsPending(r: ChildReply) {
    && r.ChildExits? && r.child.code == 0
    && ReceiptOf(r.child.out, r.child.err, PendingSchema)
       == Some(PendingReceipt(true, Some(0), Some(false), Some(false), Some(false)))
  }

  predicate StartsExperiment(a: Answers) {
    AsksPending(a) && NoneIsPending(a.pending)
  }

  // ----- the run -----

  datatype JournalKind =
    | Recorded | CycleReceiptMissing | RecoveryInvalid | RetryReceiptMissing | ExperimentInvalid | CycleTimeout

  datatype ExperimentNote = NoExperiment | AwaitingReview(count: int) | Ran(receipt: Receipt)

  datatype Journal = Journal(
    kind: JournalKind, exit: int, recovered: bool, cycle: Option<Receipt>, experiment: ExperimentNote)

  datatype Step =
    | LaunchesCycle | TriesRecovery(ok: bool) | ListsPending | LaunchesExperiment(recover: bool)
    | WritesJournal(journal: Journal)

  function CycleSteps(a: Answers): seq<Step> {
    [LaunchesCycle]
    + if !Retries(a.first) then []
      else if a.recovery then [TriesRecovery(true), LaunchesCycle]
      else [TriesRecovery(false)]
  }

  function ExperimentSteps(a: Answers): seq<Step> {
    if !AsksPending(a) then []
    else if StartsExperiment(a) then [ListsPending, LaunchesExperiment(!Retries(a.first))] else [ListsPending]
  }

  function Plus(x: Effects, y: Effects): Effects {
    Effects(x.models + y.models, x.recoveries + y.recoveries)
  }

  /** What all steps of a run do together. */
  function EffectsOf(a: Answers): Effects {
    if !AsksPending(a) then EffectsOfCycles(a)
    else if !NoneIsPending(a.pending) then Plus(EffectsOfCycles(a), EffectsOfChild(a.pending))
    else Plus(EffectsOfCycles(a), Plus(EffectsOfChild(a.pending), EffectsOfChild(a.experiment)))
  }

  function EffectsOfCycles(a: Answers): Effects {
    if !Retries(a.first) then EffectsOfCycle(a.first)
    else if !a.recovery then Plus(EffectsOfCycle(a.first), Effects(0, 1))
    else Plus(Plus(EffectsOfCycle(a.first), Effects(0, 1)), EffectsOfCycle(a.second))
  }

  datatype ExperimentOutcome = Invalid | Note(code: int, note: ExperimentNote) | TimesOut

  /** A reply to the listing that can be used: it names how many experiments are pending. */
  predicate ListsSome(r: ChildReply, count: int) {
    && r.ChildExits? && r.child.code == 0 && 0 <= count <= 100
    && ReceiptOf(r.child.out, r.child.err, PendingSchema)
       == Some(PendingReceipt(true, Some(count), Some(false), Some(false), Some(false)))
  }

  /** A reply of an experiment that can be used. */
  predicate ExperimentReads(r: ChildReply) {
    && r.ChildExits?
    && var receipt := ReceiptOf(r.child.out, r.child.err, ExperimentSchema);
       && receipt.Some? && receipt.value.ExperimentReceipt? && receipt.value.texts
       && receipt.value.external == Some(false) && receipt.value.modelCalled.Some? && receipt.value.stateMutated.Some?
  }

  /** How the experiment's part of a run ends, from the replies alone. */
  ghost predicate ExperimentEnds(a: Answers, outcome: ExperimentOutcome) {
    match outcome
    case TimesOut => a.pending.ChildTimesOut? || (NoneIsPending(a.pending) && a.experiment.ChildTimesOut?)
    case Invalid =>
      || (a.pending.ChildExits? && !exists n :: ListsSome(a.pending, n))
      || (NoneIsPending(a.pending) && a.experiment.ChildExits? && !ExperimentReads(a.experiment))
    case Note(code, AwaitingReview(count)) => code == 0 && count != 0 && ListsSome(a.pending, count)
    case Note(code, Ran(receipt)) =>
      && NoneIsPending(a.pending) && ExperimentReads(a.experiment) && code == a.experiment.child.code
      && ReceiptOf(a.experiment.child.out, a.experiment.child.err, ExperimentSchema) == Some(receipt)
    case Note(_, NoExperiment) => false
  }

  /** _scheduled_experiment: only with no experiment pending, with recovery allowed only if unused. */
  method ScheduleExperiment(a: Answers, alreadyRecovered: bool)
    returns (outcome: ExperimentOutcome, log: seq<Step>, effects: Effects)
    ensures log == if NoneIsPending(a.pending) then [ListsPending, LaunchesExperiment(!alreadyRecovered)]
                   else [ListsPending]
    ensures effects == if NoneIsPending(a.pending) then Plus(EffectsOfChild(a.pending), EffectsOfChild(a.experiment))
                       else EffectsOfChild(a.pending)
    ensures outcome.Note? && outcome.note.Ran? <==>
              && NoneIsPending(a.pending) && a.experiment.ChildExits?
              && var r := ReceiptOf(a.experiment.child.out, a.experiment.child.err, ExperimentSchema);
                 && r.Some? && r.value.ExperimentReceipt? && r.value.texts && r.value.external == Some(false)
                 && r.value.modelCalled.Some? && r.value.stateMutated.Some?
    ensures outcome.Note? ==> !outcome.note.NoExperiment? && (outcome.note.AwaitingReview? ==> outcome.note.count > 0)
    ensures ExperimentEnds(a, outcome)
  {
    log, effects := [ListsPending], EffectsOfChild(a.pending);
    if a.pending.ChildTimesOut? {
      return TimesOut, log, effects;
    }
    var pending := JsonReceipt(a.pending.child.out, a.pending.child.err, PendingSchema);
    if a.pending.child.code != 0 || pending.None? || !pending.value.PendingReceipt? || !pending.value.ready
       || pending.value.count.None? || !(0 <= pending.value.count.value <= 100)
       || pending.value.modelCalled != Some(false) || pending.value.stateMutated != Some(false)
       || pending.value.external != Some(false)
    {
      return Invalid, log, effects;
    }
    if pending.value.count.value != 0 {
      return Note(0, AwaitingReview(pending.value.count.value)), log, effects;
    }
    log := log + [LaunchesExperiment(!alreadyRecovered)];
    effects := Plus(effects, EffectsOfChild(a.experiment));
    if a.experiment.ChildTimesOut? {
      return TimesOut, log, effects;
    }
    var child := a.experiment.child;
    var receipt := JsonReceipt(child.out, child.err, ExperimentSchema);
    if receipt.None? || !receipt.value.ExperimentReceipt? || receipt.value.external != Some(false)
       || receipt.value.modelCalled.None? || receipt.value.stateMutated.None? || !receipt.value.texts
    {
      return Invalid, log, effects;
    }
    return Note(child.code, Ran(receipt.value)), log, effects;
  }

  /** The exit code agrees with the journal, except that a missing first receipt after exit code 0 is
      journaled as 0 and returned as 2. */
  predicate CodeMatches(code: int, journal: Journal) {
    code == if journal.kind.CycleReceiptMissing? && journal.exit == 0 then 2 else journal.exit
  }

  /** The first cycle exits with 0 and its output holds no receipt that can be read. */
  predicate LosesFirstReceipt(a: Answers) {
    a.first.CycleExits? && a.first.launch.code == 0 && CycleSays(a.first.launch).None?
  }

  /** Such a cycle: one that found nothing due but whose captured output is over the limit. */
  lemma FirstReceiptCanBeLost(a: Answers)
    requires var own := Line(100, Some(NoMission(NoDueMission, NoDueReason)));
             var out := Stream([own], MAX_CAPTURE_CHARS + 1);
             a.first == CycleExits(Launch(0, out, Stream([], 0), own, SILENT, SILENT, NOTHING))
    ensures CycleReplyFits(a.first) && LosesFirstReceipt(a)
  {
  }

  const TIMED_OUT := Journal(CycleTimeout, 124, false, None, NoExperiment)

  function Steps(a: Answers): (r: seq<Step>)
    ensures forall x :: x in r ==> !x.WritesJournal?
  {
    CycleSteps(a) + ExperimentSteps(a)
  }

  lemma CyclesAtAGlance(a: Answers)
    ensures !Retries(a.first) ==> CycleSteps(a) == [LaunchesCycle]
    ensures Retries(a.first) && !a.recovery ==> CycleSteps(a) == [LaunchesCycle, TriesRecovery(false)]
    ensures Retries(a.first) && a.recovery ==> CycleSteps(a) == [LaunchesCycle, TriesRecovery(true), LaunchesCycle]
  {
    assert [LaunchesCycle] + [] == [LaunchesCycle];
    assert [LaunchesCycle] + [TriesRecovery(false)] == [LaunchesCycle, TriesRecovery(false)];
    assert [LaunchesCycle] + [TriesRecovery(true), LaunchesCycle]
           == [LaunchesCycle, TriesRecovery(true), LaunchesCycle];
  }

  /** All the runs there are: with recovery or without, and as far as the experiment or not. */
  lemma StepsAtAGlance(a: Answers)
    ensures var cycles := if !Retries(a.first) then [LaunchesCycle]
                          else if !a.recovery then [LaunchesCycle, TriesRecovery(false)]
                          else [LaunchesCycle, TriesRecovery(true), LaunchesCycle];
            && (!AsksPending(a) ==> Steps(a) == cycles)
            && (AsksPending(a) && !NoneIsPending(a.pending) ==> Steps(a) == cycles + [ListsPending])
            && (AsksPending(a) && NoneIsPending(a.pending) ==>
                  Steps(a) == cycles + [ListsPending, LaunchesExperiment(!Retries(a.first))])
  {
    CyclesAtAGlance(a);
    assert CycleSteps(a) + [] == CycleSteps(a);
  }

  /** What a cycle's own replies lead to: an early end, or a receipt to go on from. */
  datatype CyclesEnd = Ends(code: int, journal: Journal) | GoesOn(exit: int, cycle: Receipt, recovered: bool)

  /** The early end of a run, from the replies alone. */
  predicate EndsEarly(a: Answers, code: int, journal: Journal) {
    match Settled(a)
    case None => code == 2 && journal == Journal(RecoveryInvalid, 2, false, CycleSays(a.first.launch), NoExperiment)
    case Some(CycleTimesOut(_)) => code == 124 && journal == TIMED_OUT
    case Some(CycleExits(l)) =>
      && CycleSays(l).None? && code == (if l.code == 0 then 2 else l.code)
      && journal == if Retries(a.first) then Journal(RetryReceiptMissing, code, true, None, NoExperiment)
                    else Journal(CycleReceiptMissing, l.code, false, None, NoExperiment)
  }

  /** What a run returns and writes, from the replies alone: an early end, the last cycle's own exit code, or
      how the experiment's part ended. */
  ghost predicate RunEnds(a: Answers, code: int, journal: Journal) {
    match Settled(a)
    case Some(CycleExits(l)) =>
      if CycleSays(l).None? then EndsEarly(a, code, journal)
      else if !SaysNothingDue(l) then
        code == l.code && journal == Journal(Recorded, l.code, Retries(a.first), CycleSays(l), NoExperiment)
      else exists outcome :: ExperimentEnds(a, outcome) && FromExperiment(a, l, outcome, code, journal)
    case _ => EndsEarly(a, code, journal)
  }

  predicate FromExperiment(a: Answers, l: Launch, outcome: ExperimentOutcome, code: int, journal: Journal) {
    match outcome
    case TimesOut => code == 124 && journal == TIMED_OUT
    case Invalid => code == 2 && journal == Journal(ExperimentInvalid, 2, Retries(a.first), CycleSays(l), NoExperiment)
    case Note(result, note) =>
      code == result && journal == Journal(Recorded, result, Retries(a.first), CycleSays(l), note)
  }

  /** The replies leave only one outcome. */
  lemma OneExperimentEnd(a: Answers, x: ExperimentOutcome, y: ExperimentOutcome)
    requires ExperimentEnds(a, x) && ExperimentEnds(a, y)
    ensures x == y
  {
    assert NoneIsPending(a.pending) <==> ListsSome(a.pending, 0);
  }

  /** Exit codes at a glance. */
  lemma ExitCodes(a: Answers, code: int, journal: Journal)
    requires RunEnds(a, code, journal)
    ensures Settled(a).None? ==> code == 2
    ensures Settled(a).Some? && Settled(a).value.CycleTimesOut? ==> code == 124
    ensures Settled(a).Some? && Settled(a).value.CycleExits? && !SaysNothingDue(Settled(a).value.launch) ==>
              var l := Settled(a).value.launch;
              code == if CycleSays(l).Some? || l.code != 0 then l.code else 2
    ensures AsksPending(a) && a.pending.ChildTimesOut? ==> code == 124
    ensures AsksPending(a) && (exists n :: n != 0 && ListsSome(a.pending, n)) ==> code == 0
    ensures AsksPending(a) && a.pending.ChildExits? && !(exists n :: ListsSome(a.pending, n)) ==> code == 2
    ensures StartsExperiment(a) && a.experiment.ChildTimesOut? ==> code == 124
    ensures StartsExperiment(a) && a.experiment.ChildExits? ==>
              code == if ExperimentReads(a.experiment) then a.experiment.child.code else 2
  {
    assert NoneIsPending(a.pending) <==> ListsSome(a.pending, 0);
  }

  /** The first cycle, the recovery and the second cycle. */
  method RunCycles(a: Answers) returns (end: CyclesEnd, log: seq<Step>, effects: Effects)
    ensures log == CycleSteps(a)
    ensures effects == EffectsOfCycles(a)
    ensures end.GoesOn? <==>
              Settled(a).Some? && Settled(a).value.CycleExits? && CycleSays(Settled(a).value.launch).Some?
    ensures end.GoesOn? ==> end.exit == Settled(a).value.launch.code
                            && Some(end.cycle) == CycleSays(Settled(a).value.launch)
                            && end.recovered == Retries(a.first)
    ensures end.Ends? ==> (end.code != end.journal.exit <==> LosesFirstReceipt(a))
    ensures end.GoesOn? ==> !LosesFirstReceipt(a)
    ensures end.Ends? ==> EndsEarly(a, end.code, end.journal)
    ensures end.Ends? ==> CodeMatches(end.code, end.journal) && end.code != 0 && !end.journal.kind.Recorded?
                          && end.journal.experiment.NoExperiment?
  {
    log, effects := [LaunchesCycle], EffectsOfCycle(a.first);
    if a.first.CycleTimesOut? {
      return Ends(124, TIMED_OUT), log, effects;
    }
    var exit := a.first.launch.code;
    var cycle := JsonReceipt(a.first.launch.out, a.first.launch.err, CycleSchema);
    if cycle.None? {
      return Ends(OrTwo(exit), Journal(CycleReceiptMissing, exit, false, None, NoExperiment)), log, effects;
    }
    if !(exit == 0 && cycle.value.CycleReceipt?
         && cycle.value.status.Blocked? && cycle.value.reason.InsufficientMemory?)
    {
      return GoesOn(exit, cycle.value, false), log, effects;
    }
    log, effects := log + [TriesRecovery(a.recovery)], Plus(effects, Effects(0, 1));
    if !a.recovery {
      return Ends(2, Journal(RecoveryInvalid, 2, false, cycle, NoExperiment)), log, effects;
    }
    log, effects := log + [LaunchesCycle], Plus(effects, EffectsOfCycle(a.second));
    if a.second.CycleTimesOut? {
      return Ends(124, TIMED_OUT), log, effects;
    }
    exit := a.second.launch.code;
    cycle := JsonReceipt(a.second.launch.out, a.second.launch.err, CycleSchema);
    if cycle.None? {
      return Ends(OrTwo(exit), Journal(RetryReceiptMissing, OrTwo(exit), true, None, NoExperiment)), log, effects;
    }
    return GoesOn(exit, cycle.value, true), log, effects;
  }

  /** The whole run: every run that returns has written its journal once, as its last step. */
  method RunScheduledCycle(a: Answers) returns (result: Option<int>, log: seq<Step>, effects: Effects)
    ensures effects == EffectsOf(a)
    ensures result.None? <==> a.writeFails
    ensures result.None? ==> log == Steps(a)
    ensures result.Some? ==> log != [] && log[..|log| - 1] == Steps(a) && log[|log| - 1].WritesJournal?
                             && CodeMatches(result.value, log[|log| - 1].journal)
                             && JournalTells(a, log[|log| - 1].journal)
                             && RunEnds(a, result.value, log[|log| - 1].journal)
                             && (result.value != log[|log| - 1].journal.exit <==> LosesFirstReceipt(a))
  {
    var end;
    end, log, effects := RunCycles(a);
    var code, journal;
    if end.Ends? {
      code, journal := end.code, end.journal;
    } else {
      code, journal := end.exit, Journal(Recorded, end.exit, end.recovered, Some(end.cycle), NoExperiment);
      if end.exit == 0 && end.cycle.CycleReceipt? && end.cycle.status.NoDueMission? && end.cycle.reason.NoDueReason?
         && end.cycle.missionsRun == Some(0) && end.cycle.modelCalled == Some(false)
      {
        var outcome, more, added := ScheduleExperiment(a, end.recovered);
        log, effects := log + more, Plus(effects, added);
        match outcome {
          case TimesOut => code, journal := 124, TIMED_OUT;
          case Invalid =>
            code, journal := 2, Journal(ExperimentInvalid, 2, end.recovered, Some(end.cycle), NoExperiment);
          case Note(result, note) => code, journal := result, journal.(exit := result, experiment := note);
        }
      }
    }
    assert log == Steps(a);
    if a.writeFails {
      return None, log, effects;
    }
    log := log + [WritesJournal(journal)];
    return Some(code), log, effects;
  }

  /** A journal tells of an experiment only if one was started, and records the receipt of the last
      cycle whenever it says that the run was recorded. */
  predicate JournalTells(a: Answers, journal: Journal) {
    && (journal.experiment.Ran? ==> StartsExperiment(a))
    && (journal.kind.Recorded? ==>
          && Settled(a).Some? && Settled(a).value.CycleExits?
          && journal.cycle == CycleSays(Settled(a).value.launch) && journal.cycle.Some?
          && journal.recovered == Retries(a.first))
  }

  // ----- at most one of everything -----

  /** Memory recovery is tried at most once, counting the children's own recoveries. */
  lemma OneRecovery(a: Answers)
    requires Fits(a)
    ensures EffectsOf(a).recoveries <= 1
  {
    CyclesDoNotRecover(a.first);
    CyclesDoNotRecover(a.second);
    assert ExperimentReplyFits(!Retries(a.first), a.experiment);
  }

  lemma CyclesDoNotRecover(r: CycleReply)
    requires CycleReplyFits(r)
    ensures EffectsOfCycle(r).recoveries == 0 && EffectsOfCycle(r).models <= 1
  {
  }

  /** The mission's own output holds no line that reads as a cycle receipt. */
  ghost predicate SpeaksForItself(l: Launch) {
    && (forall x :: x in l.mission.lines ==> !Carries(x, CycleSchema))
    && (forall x :: x in l.missionErrors.lines ==> !Carries(x, CycleSchema))
  }

  /** From a successful cycle that ran a mission, the run reads the cycle's own receipt or none. */
  lemma OwnReceiptIsRead(l: Launch)
    requires CycleFits(false, l) && l.code == 0 && l.effects.models == 1 && SpeaksForItself(l)
    ensures CycleSays(l).None? || CycleSays(l) == l.own.receipt
    ensures !AsksForMemory(l) && !SaysNothingDue(l)
  {
    var r := CycleSays(l);
    assert Finds(l.out, l.err, CycleSchema, r);
    if r.Some? {
      var lines := l.out.lines + l.err.lines;
      var i :| 0 <= i < |lines| && Carries(lines[i], CycleSchema) && lines[i].receipt == r;
      var x := lines[i];
      assert x in lines;
    }
  }

  ghost predicate Honest(r: CycleReply) {
    r.CycleExits? && r.launch.effects.models == 1 ==> SpeaksForItself(r.launch)
  }

  /** A cycle that ran a mission ends the run's use of the model, unless the mission printed a line
      that reads as a cycle receipt. */
  lemma NothingFollowsAMission(r: CycleReply)
    requires CycleReplyFits(r) && Honest(r) && EffectsOfCycle(r).models == 1
    ensures !Retries(r) && !(r.CycleExits? && SaysNothingDue(r.launch))
  {
    if r.CycleExits? && r.launch.code == 0 {
      OwnReceiptIsRead(r.launch);
    }
  }

  // ----- exactly when at most one model runs -----

  function Models(r: CycleReply): nat {
    EffectsOfCycle(r).models
  }

  predicate ExitsWithNothingDue(r: CycleReply) {
    r.CycleExits? && SaysNothingDue(r.launch)
  }

  /** What the run reads from its cycles lets a second model run: a retry after a mission that runs
      another one, or an experiment after a mission. */
  predicate MayRunTwice(first: CycleReply, second: CycleReply) {
    if Retries(first) then
      Models(first) + Models(second) >= 2 || (Models(first) + Models(second) == 1 && ExitsWithNothingDue(second))
    else Models(first) == 1 && ExitsWithNothingDue(first)
  }

  /** Each child runs at most one model, and listing experiments runs none. */
  predicate OneEach(a: Answers) {
    && Models(a.first) <= 1 && Models(a.second) <= 1 && EffectsOfChild(a.pending) == NOTHING
    && EffectsOfChild(a.experiment).models <= 1
  }

  lemma FitsOneEach(a: Answers)
    requires Fits(a)
    ensures OneEach(a)
  {
    CyclesDoNotRecover(a.first);
    CyclesDoNotRecover(a.second);
  }

  lemma TwiceWithOneEach(a: Answers)
    requires OneEach(a) && EffectsOf(a).models >= 2
    ensures MayRunTwice(a.first, a.second)
  {
  }

  lemma OnlyThenTwice(a: Answers)
    requires Fits(a) && EffectsOf(a).models >= 2
    ensures MayRunTwice(a.first, a.second)
  {
    FitsOneEach(a);
    TwiceWithOneEach(a);
  }

  /** Over both cycles, the experiment and its inner retry, at most one step runs a model, whatever the
      rest of the run meets, exactly when the receipts read from the cycles do not lead on after a
      mission. */
  lemma OneModelRun(first: CycleReply, second: CycleReply)
    requires CycleReplyFits(first) && CycleReplyFits(second)
    ensures (forall a: Answers :: Fits(a) && a.first == first && a.second == second ==> EffectsOf(a).models <= 1)
            <==> !MayRunTwice(first, second)
  {
    if MayRunTwice(first, second) {
      SecondModelRun(first, second);
    } else {
      forall a: Answers | Fits(a) && a.first == first && a.second == second
        ensures EffectsOf(a).models <= 1
      {
        if EffectsOf(a).models >= 2 {
          OnlyThenTwice(a);
        }
      }
    }
  }

  /** If no mission printed a line that reads as a cycle receipt, the receipts never lead on. */
  lemma HonestCyclesDoNotLeadOn(first: CycleReply, second: CycleReply)
    requires CycleReplyFits(first) && Honest(first) && CycleReplyFits(second) && Honest(second)
    ensures !MayRunTwice(first, second)
  {
    CyclesDoNotRecover(first);
    CyclesDoNotRecover(second);
    if Models(first) == 1 {
      NothingFollowsAMission(first);
    }
    if Models(second) == 1 {
      NothingFollowsAMission(second);
    }
  }

  /** Then at most one step of the run uses a model. */
  lemma HonestMissionsRunOnce(a: Answers)
    requires Fits(a) && Honest(a.first) && Honest(a.second)
    ensures !MayRunTwice(a.first, a.second) && EffectsOf(a).models <= 1
  {
    HonestCyclesDoNotLeadOn(a.first, a.second);
    if EffectsOf(a).models >= 2 {
      OnlyThenTwice(a);
    }
  }

  function AnotherMission(): (l: Launch)
    ensures CycleFits(false, l) && l.effects == Effects(1, 0)
  {
    Launch(1, Stream([], 0), Stream([], 0), Line(0, Some(CycleReceipt(ExecutionFailed, OtherReason, None, None))),
           SILENT, SILENT, Effects(1, 0))
  }

  const NOTHING_PENDING := Child(
    0, Stream([Line(0, Some(PendingReceipt(true, Some(0), Some(false), Some(false), Some(false))))], 0), Stream([], 0),
    NOTHING)

  function AnotherPrompt(): Child {
    Child(1, Stream([], 0), Stream([], 0), Effects(1, 0))
  }

  /** The rest of a run that goes as far as it can: recovery succeeds, nothing is pending, and the
      experiment runs a model. */
  function FullRun(first: CycleReply, second: CycleReply): (a: Answers)
    ensures a.first == first && a.second == second && a.recovery && NoneIsPending(a.pending)
    ensures CycleReplyFits(first) && CycleReplyFits(second) ==> Fits(a)
    ensures EffectsOfChild(a.pending) == NOTHING && EffectsOfChild(a.experiment) == Effects(1, 0)
  {
    var lines := NOTHING_PENDING.out.lines + NOTHING_PENDING.err.lines;
    assert lines == NOTHING_PENDING.out.lines && Carries(lines[0], PendingSchema);
    Answers(first, true, second, ChildExits(NOTHING_PENDING), ChildExits(AnotherPrompt()), false)
  }

  lemma FullRunRunsTwice(first: CycleReply, second: CycleReply)
    requires CycleReplyFits(first) && CycleReplyFits(second) && MayRunTwice(first, second)
    ensures Fits(FullRun(first, second)) && EffectsOf(FullRun(first, second)).models >= 2
  {
    CyclesDoNotRecover(first);
    CyclesDoNotRecover(second);
  }

  /** For two replies of the cycles there is a run with a second model run exactly when their receipts
      lead on after a mission. */
  lemma SecondModelRun(first: CycleReply, second: CycleReply)
    requires CycleReplyFits(first) && CycleReplyFits(second)
    ensures (exists a: Answers :: Fits(a) && a.first == first && a.second == second && EffectsOf(a).models >= 2)
            <==> MayRunTwice(first, second)
  {
    if MayRunTwice(first, second) {
      FullRunRunsTwice(first, second);
    }
    if exists a: Answers :: Fits(a) && a.first == first && a.second == second && EffectsOf(a).models >= 2 {
      var a: Answers :| Fits(a) && a.first == first && a.second == second && EffectsOf(a).models >= 2;
      OnlyThenTwice(a);
    }
  }

  /** A successful mission whose error output is one forged receipt line. */
  function Forging(forged: Receipt): (l: Launch)
    requires forged.CycleReceipt?
    ensures CycleFits(false, l) && l.effects == Effects(1, 0) && l.code == 0 && CycleSays(l) == Some(forged)
  {
    var line := Line(100, Some(forged));
    var own := Line(300, Some(CycleReceipt(Completed, OtherReason, Some(1), Some(true))));
    var l := Launch(0, Stream([own], 301), Stream([line], 101), own, SILENT, Text([line], true), Effects(1, 0));
    assert l.out.lines + l.err.lines == [own, line] && Carries(line, CycleSchema);
    assert l.out.lines == PrintAfter(SILENT, own);
    l
  }

  /** A cycle that ran nothing for lack of memory. */
  function ShortOfMemory(): (l: Launch)
    ensures CycleFits(false, l) && l.effects == NOTHING && AsksForMemory(l)
  {
    var own := Line(300, Some(NoMission(Blocked, InsufficientMemory)));
    var l := Launch(0, Stream([own], 301), Stream([], 0), own, SILENT, SILENT, NOTHING);
    OwnLineIsLast(l);
    l
  }

  lemma OwnLineIsLast(l: Launch)
    requires l.out.lines == [l.own] && l.err.lines == [] && Carries(l.own, CycleSchema)
    requires l.out.size <= MAX_CAPTURE_CHARS && l.err.size <= MAX_CAPTURE_CHARS
    ensures CycleSays(l) == l.own.receipt
  {
    assert l.out.lines + l.err.lines == [l.own];
  }

  /** A first cycle whose mission forges a receipt that asks for memory: the retry may run a mission. */
  lemma ForgedReceiptIsBelieved()
    ensures var first := CycleExits(Forging(NoMission(Blocked, InsufficientMemory)));
            var second := CycleExits(AnotherMission());
            CycleReplyFits(first) && CycleReplyFits(second) && MayRunTwice(first, second)
  {
  }

  /** A first cycle that honestly lacks memory, and a retried one whose mission forges the receipt of a
      cycle with nothing due: an experiment follows the mission. */
  lemma ForgedRetryIsBelieved()
    ensures var first, second := CycleExits(ShortOfMemory()), CycleExits(Forging(NoMission(NoDueMission, NoDueReason)));
            && CycleReplyFits(first) && CycleReplyFits(second)
            && Models(first) == 0 && MayRunTwice(first, second)
  {
  }

  /** A retried mission that asks for memory leads nowhere: a run retries once. */
  lemma RetriesOnlyOnce(first: CycleReply, second: CycleReply)
    requires CycleReplyFits(first) && CycleReplyFits(second)
    requires Models(first) == 0 && second.CycleExits? && AsksForMemory(second.launch)
    ensures !MayRunTwice(first, second)
  {
    CyclesDoNotRecover(second);
  }

  // ----- when an experiment starts -----

  /** An experiment starts only after a last cycle that exited with 0 and whose receipt, as read, says
      that nothing was due, and only with no experiment pending; it may recover memory itself only when
      the run has not. That last cycle ran nothing exactly when the receipt read is the cycle's own. */
  lemma ExperimentGate(a: Answers, recover: bool)
    requires Fits(a)
    ensures LaunchesExperiment(recover) in Steps(a) <==>
              AsksPending(a) && NoneIsPending(a.pending) && recover == !Retries(a.first)
    ensures LaunchesExperiment(recover) in Steps(a) ==>
              var last := Settled(a).value.launch;
              && last.code == 0
              && (last.effects.models == 0 <==> CycleSays(last) == last.own.receipt)
              && (last.effects.models == 0 <==> last.out.lines == [last.own] && last.err.lines == [])
  {
    assert LaunchesExperiment(recover) !in CycleSteps(a);
    if AsksPending(a) {
      NothingDueIsOwn(Settled(a).value.launch);
    }
  }

  lemma OwnLineIsRead(l: Launch)
    requires l.out.lines == [l.own] && l.err.lines == [] && CycleSays(l).Some?
    ensures CycleSays(l) == l.own.receipt
  {
    var lines := l.out.lines + l.err.lines;
    assert Finds(l.out, l.err, CycleSchema, CycleSays(l));
    assert lines == [l.own];
  }

  /** A receipt that says that nothing was due is the cycle's own exactly when no mission ran. */
  lemma NothingDueIsOwn(l: Launch)
    requires CycleFits(false, l) && SaysNothingDue(l)
    ensures l.effects.models == 0 <==> CycleSays(l) == l.own.receipt
    ensures l.effects.models == 0 <==> l.out.lines == [l.own] && l.err.lines == []
  {
    if l.out.lines == [l.own] && l.err.lines == [] {
      OwnLineIsRead(l);
    }
  }
}
