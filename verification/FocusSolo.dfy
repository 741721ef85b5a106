/**
 One process of the focus protocol running alone, step by step, does what the whole operation does.
 */
module FocusSolo {
  import opened Wrappers
  import opened ExecutionFocus
  import opened FocusProtocol

  /** Running is running a first part and then the rest. */
  lemma {:induction false} RunSplits(s: System, first: seq<Step>, rest: seq<Step>)
    ensures Run(s, first + rest) == Run(Run(s, first), rest)
  {
    if rest == [] {
      assert first + rest == first;
    } else {
      var n := |rest| - 1;
      assert (first + rest)[..|first| + n] == first + rest[..n];
      RunSplits(s, first, rest[..n]);
    }
  }

  lemma RunTwo(s: System, a: Step, b: Step)
    ensures Run(s, [a, b]) == Next(Next(s, a), b)
  {
    assert [a, b][..1] == [a];
    assert [a][..0] == [];
    assert Run(s, [a]) == Next(s, a);
  }

  lemma SoloEnters(s: System, pid: nat, op: Operation)
    requires PhaseOf(s, pid).Idle? && s.lock.None?
    ensures var t := Run(s, [Begin(pid, op), TakeLock(pid)]);
            && (Precheck(op).Some? ==> t == s)
            && (Precheck(op).None? ==> PhaseOf(t, pid) == Holding(op) && t.disk == s.disk && t.history == s.history)
  {
    RunTwo(s, Begin(pid, op), TakeLock(pid));
    var u := Next(s, Begin(pid, op));
    assert PhaseOf(u, pid) == if Precheck(op).None? then Waiting(op) else Idle;
  }

  lemma SoloDecides(s: System, pid: nat, op: Operation, now: Timestamp)
    requires if Precheck(op).None? then PhaseOf(s, pid) == Holding(op) else PhaseOf(s, pid).Idle?
    ensures var t, outcome := Run(s, [Load(pid), Choose(pid, now)]), Perform(s.disk, op, now).1;
            && t.disk == s.disk && t.history == s.history
            && (Precheck(op).Some? ==> t == s)
            && (Precheck(op).None? && !outcome.Committed? ==> PhaseOf(t, pid).Leaving?)
            && (outcome.Committed? ==>
                  && PhaseOf(t, pid).Staging?
                  && PhaseOf(t, pid).temporary == Whole(outcome.focus).(written := 0))
  {
    RunTwo(s, Load(pid), Choose(pid, now));
  }

  lemma SoloWrites(s: System, pid: nat, size: nat)
    ensures var t, phase := Run(s, [WriteBytes(pid, size), Sync(pid)]), PhaseOf(s, pid);
            && t.disk == s.disk && t.history == s.history
            && (phase.Leaving? || phase.Idle? ==> t == s)
            && (phase.Staging? && phase.temporary.size == size && phase.temporary.written == 0 ==>
                  PhaseOf(t, pid) == Synced(phase.op, phase.current, phase.now, phase.temporary.(written := size)))
  {
    RunTwo(s, WriteBytes(pid, size), Sync(pid));
    var u := Next(s, WriteBytes(pid, size));
    assert PhaseOf(s, pid).Staging? ==> PhaseOf(u, pid).Staging?;
  }

  lemma SoloPublishes(s: System, pid: nat)
    ensures var t, phase := Run(s, [Replace(pid), ReleaseLock(pid)]), PhaseOf(s, pid);
            && (phase.Idle? ==> t == s)
            && (phase.Leaving? ==> t.disk == s.disk && t.history == s.history)
            && (phase.Synced? && phase.temporary.content.V2? ==>
                  t.disk == Some(phase.temporary) && |t.history| == |s.history| + 1)
            && (phase.Leaving? || (phase.Synced? && phase.temporary.content.V2?) ==>
                  PhaseOf(t, pid).Idle? && t.lock.None?)
  {
    RunTwo(s, Replace(pid), ReleaseLock(pid));
    var u := Next(s, Replace(pid));
    assert PhaseOf(s, pid).Synced? && PhaseOf(s, pid).temporary.content.V2? ==> PhaseOf(u, pid).Leaving?;
  }

  /** A process that runs alone from a quiet state does exactly what the whole operation does. */
  lemma SoloRun(s: System, pid: nat, op: Operation, now: Timestamp)
    requires PhaseOf(s, pid).Idle? && s.lock.None?
    ensures var (disk, outcome) := Perform(s.disk, op, now);
            var size := if outcome.Committed? then EncodedSize(outcome.focus) else 0;
            var t := Run(s, [Begin(pid, op), TakeLock(pid)] + [Load(pid), Choose(pid, now)]
                            + [WriteBytes(pid, size), Sync(pid)] + [Replace(pid), ReleaseLock(pid)]);
            && t.disk == disk && PhaseOf(t, pid).Idle? && t.lock.None?
            && |t.history| == |s.history| + (if outcome.Committed? then 1 else 0)
  {
    var (disk, outcome) := Perform(s.disk, op, now);
    var size := if outcome.Committed? then EncodedSize(outcome.focus) else 0;
    var s1 := [Begin(pid, op), TakeLock(pid)];
    var s2 := [Load(pid), Choose(pid, now)];
    var s3 := [WriteBytes(pid, size), Sync(pid)];
    var s4 := [Replace(pid), ReleaseLock(pid)];
    RunSplits(s, s1 + s2 + s3, s4);
    RunSplits(s, s1 + s2, s3);
    RunSplits(s, s1, s2);
    SoloEnters(s, pid, op);
    SoloDecides(Run(s, s1), pid, op, now);
    SoloWrites(Run(s, s1 + s2), pid, size);
    SoloPublishes(Run(s, s1 + s2 + s3), pid);
    PerformShape(s.disk, op, now);
  }

  lemma PerformShape(disk: Option<File>, op: Operation, now: Timestamp)
    ensures var (after, outcome) := Perform(disk, op, now);
            && (Precheck(op).Some? ==> !outcome.Committed?)
            && after == if outcome.Committed? then Some(Whole(outcome.focus)) else disk
  {
  }
}
