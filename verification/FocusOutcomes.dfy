/**
 What each process of the focus protocol answers, and what a reader without the lock sees: at every
 moment of every schedule these are the answers of the whole operations.
 */
module FocusOutcomes {
  import opened Wrappers
  import opened ExecutionFocus
  import opened FocusProtocol
  import opened FocusSafety

  /** What an operation that was not carried out would have said. */
  function OutcomeOf(d: Decision): Outcome {
    match d
    case Write(next) => Committed(next)
    case Keep(current) => Unchanged(current)
    case Refuse(why) => Refused(why)
  }

  lemma PhaseOfRun(start: Option<File>, steps: seq<Step>, pid: nat)
    ensures var s := Run(Start(start), steps);
            PhaseFits(PhaseOf(s, pid), s.disk) && Bound(PhaseOf(s, pid))
  {
    RunKeepsInv(start, steps);
    HistoryPrechecked(start, steps);
  }

  lemma ReplaceMoves(s: System, pid: nat)
    requires PhaseOf(s, pid).Synced? && PhaseOf(s, pid).temporary.content.V2?
    ensures Next(s, Replace(pid)).disk == Some(PhaseOf(s, pid).temporary)
  {
  }

  /** Refusals and unchanged records are those of the whole operation too: at any moment from its
      read on, a process decides exactly what the operation would do to the file as it then stands,
      and a read that fails is the operation's own failure. */
  lemma DecisionIsPerforms(start: Option<File>, steps: seq<Step>, pid: nat, now: Timestamp)
    ensures var s := Run(Start(start), steps);
            match PhaseOf(s, pid)
            case Holding(op) =>
              ReadFocus(s.disk).Err? ==> Perform(s.disk, op, now).1 == Refused(ReadFocus(s.disk).error)
            case Loaded(op, current) =>
              && Valid(current) && Perform(s.disk, op, now).1 == OutcomeOf(Decide(op, current, now))
              && (Perform(s.disk, op, now).1.Committed? <==> PhaseOf(Next(s, Choose(pid, now)), pid).Staging?)
            case _ => true
  {
    PhaseOfRun(start, steps, pid);
  }

  lemma SyncedPerforms(disk: Option<File>, phase: Phase)
    requires phase.Synced? && PhaseFits(phase, disk) && Precheck(phase.op).None?
    ensures phase.temporary.content.V2?
    ensures Perform(disk, phase.op, phase.now) == (Some(phase.temporary), Committed(phase.temporary.content.focus))
  {
  }

  /** The replacement does to the file, in one step, what the operation does. */
  lemma ReplaceIsPerforms(start: Option<File>, steps: seq<Step>, pid: nat)
    requires PhaseOf(Run(Start(start), steps), pid).Synced?
    ensures var s := Run(Start(start), steps);
            var p := PhaseOf(s, pid);
            && p.temporary.content.V2?
            && Perform(s.disk, p.op, p.now) == (Next(s, Replace(pid)).disk, Committed(p.temporary.content.focus))
  {
    PhaseOfRun(start, steps, pid);
    var s := Run(Start(start), steps);
    SyncedPerforms(s.disk, PhaseOf(s, pid));
    ReplaceMoves(s, pid);
  }

  /** A reader that takes no lock sees, at any moment, the record of the last commit. */
  lemma ReadersSeeTheLastCommit(start: Option<File>, steps: seq<Step>)
    ensures var s := Run(Start(start), steps);
            ReadFocus(s.disk) == if ReadFocus(start).Err? then ReadFocus(start)
                                 else Ok(Nth(ReadFocus(start).value, s.history, |s.history|))
  {
    RunKeepsInv(start, steps);
  }
}
