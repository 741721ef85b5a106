/**
 What every schedule of the focus protocol keeps: one process inside the lock, a file that is whole,
 and the effect of the committed operations run one after another.
 */
module FocusSafety {
  import opened Wrappers
  import opened ExecutionFocus
  import opened FocusProtocol

  /** At no moment do two processes work between taking and releasing the lock. */
  lemma MutualExclusion(start: Option<File>, steps: seq<Step>, p: nat, q: nat)
    requires InCritical(PhaseOf(Run(Start(start), steps), p))
    requires InCritical(PhaseOf(Run(Start(start), steps), q))
    ensures p == q
  {
    RunKeepsInv(start, steps);
  }

  /** Whoever holds the lock works inside it, and can leave at any moment: giving up frees the lock, and
      the file is as it was. */
  lemma LockIsGivenBack(start: Option<File>, steps: seq<Step>, p: nat)
    requires Run(Start(start), steps).lock == Some(p)
    ensures var s := Run(Start(start), steps);
            && InCritical(PhaseOf(s, p))
            && var t := Next(Next(s, Fail(p)), ReleaseLock(p));
               t.lock.None? && PhaseOf(t, p).Idle? && t.disk == s.disk && t.history == s.history
  {
    RunKeepsInv(start, steps);
    var s := Run(Start(start), steps);
    assert PhaseOf(Next(s, Fail(p)), p).Leaving?;
  }

  /** The focus file is untouched, or it is one whole record in the current contract: never a
      partly written one. */
  lemma FileIsWhole(start: Option<File>, steps: seq<Step>)
    ensures var disk := Run(Start(start), steps).disk;
            || disk == start
            || (disk.Some? && disk.value.content.V2? && disk.value.written == disk.value.size <= MAX_BYTES
                && ReadFocus(disk) == Ok(disk.value.content.focus))
  {
    RunKeepsInv(start, steps);
    var s := Run(Start(start), steps);
    if s.history != [] {
      var last := s.history[|s.history| - 1];
      CommitFacts(last.op, last.before, last.now);
    }
  }

  /** A file that cannot be read as a focus is never overwritten. */
  lemma UnreadableFileSurvives(start: Option<File>, steps: seq<Step>)
    requires ReadFocus(start).Err?
    ensures Run(Start(start), steps).disk == start && Run(Start(start), steps).history == []
  {
    RunKeepsInv(start, steps);
  }

  function Replay(disk: Option<File>, history: seq<Commit>): Option<File> {
    if history == [] then disk
    else
      var last := history[|history| - 1];
      Perform(Replay(disk, history[..|history| - 1]), last.op, last.now).0
  }

  /** Every interleaved run, crashes included, leaves the file exactly as running the operations
      that committed one after another on the first file would. */
  lemma Linearizable(start: Option<File>, steps: seq<Step>)
    ensures var s := Run(Start(start), steps); s.disk == Replay(start, s.history)
  {
    RunKeepsInv(start, steps);
    HistoryPrechecked(start, steps);
    var s := Run(Start(start), steps);
    if ReadFocus(start).Ok? {
      ReplayFollows(start, ReadFocus(start).value, s.history);
    }
  }

  ghost predicate Bound(phase: Phase) {
    (phase.Waiting? || phase.Holding? || phase.Loaded? || phase.Staging? || phase.Synced?)
    ==> Precheck(phase.op).None?
  }

  ghost predicate AllBound(s: System) {
    && (forall p: nat :: Bound(PhaseOf(s, p)))
    && (forall i :: 0 <= i < |s.history| ==> Precheck(s.history[i].op).None?)
  }

  lemma NextKeepsBound(s: System, step: Step)
    requires AllBound(s)
    ensures AllBound(Next(s, step))
  {
    var next := Next(s, step);
    assert Bound(PhaseOf(s, step.pid));
    assert Bound(PhaseOf(next, step.pid));
    forall p: nat
      ensures Bound(PhaseOf(next, p))
    {
      assert Bound(PhaseOf(s, p));
      if p != step.pid {
        assert PhaseOf(next, p) == PhaseOf(s, p);
      }
    }
  }

  lemma {:induction false} HistoryPrechecked(start: Option<File>, steps: seq<Step>)
    ensures AllBound(Run(Start(start), steps))
  {
    if steps != [] {
      HistoryPrechecked(start, steps[..|steps| - 1]);
      NextKeepsBound(Run(Start(start), steps[..|steps| - 1]), steps[|steps| - 1]);
    }
  }

  lemma {:induction false} ReplayFollows(start: Option<File>, origin: Focus, history: seq<Commit>)
    requires ReadFocus(start) == Ok(origin) && Chained(origin, history)
    requires forall i :: 0 <= i < |history| ==> Precheck(history[i].op).None?
    ensures ReadFocus(Replay(start, history)) == Ok(Nth(origin, history, |history|))
    ensures history == [] ==> Replay(start, history) == start
    ensures history != [] ==>
              var f := history[|history| - 1].after;
              Replay(start, history) == Some(Whole(f))
  {
    if history != [] {
      var n := |history| - 1;
      var shorter := history[..n];
      ChainShortens(origin, history, n, Decided());
      ReplayFollows(start, origin, shorter);
      assert history[n] in Decided();
      CommitFacts(history[n].op, history[n].before, history[n].now);
    }
  }
}
