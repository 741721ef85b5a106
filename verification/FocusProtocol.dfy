/**
 Many processes running the focus operations at once. Each operation is a series of small steps
 (take the lock, read, decide, write a temporary file piece by piece, sync it, replace the
 focus file, release) and any process may fail or crash between two steps. A schedule is any
 sequence of steps; a step that is not possible does nothing.
 */
module FocusProtocol {
  import opened Wrappers
  import opened ExecutionFocus

  datatype Phase =
    | Idle
    | Waiting(op: Operation)
    | Holding(op: Operation)
    | Loaded(op: Operation, current: Focus)
    | Staging(op: Operation, current: Focus, now: Timestamp, temporary: File)
    | Synced(op: Operation, current: Focus, now: Timestamp, temporary: File)
    | Leaving

  datatype Step =
    | Begin(pid: nat, op: Operation)
    | TakeLock(pid: nat)
    | Load(pid: nat)
    | Choose(pid: nat, now: Timestamp)
    | WriteBytes(pid: nat, count: nat)
    | Sync(pid: nat)
    | Replace(pid: nat)
    | Fail(pid: nat)
    | ReleaseLock(pid: nat)
    | Crash(pid: nat)

  /** One replacement of the focus file: who bound to what, the record before and the one after. */
  datatype Commit = Commit(op: Operation, now: Timestamp, before: Focus, after: Focus)

  datatype System = System(
    phases: map<nat, Phase>, lock: Option<nat>, disk: Option<File>, history: seq<Commit>)

  function PhaseOf(s: System, pid: nat): Phase {
    if pid in s.phases then s.phases[pid] else Idle
  }

  function Move(s: System, pid: nat, phase: Phase): System {
    s.(phases := s.phases[pid := phase])
  }

  function Start(disk: Option<File>): System {
    System(map[], None, disk, [])
  }

  function Next(s: System, step: Step): System {
    var pid := step.pid;
    match (step, PhaseOf(s, pid))
    case (Begin(_, op), Idle) => if Precheck(op).None? then Move(s, pid, Waiting(op)) else s
    case (TakeLock(_), Waiting(op)) =>
      if s.lock.None? then Move(s, pid, Holding(op)).(lock := Some(pid)) else Move(s, pid, Idle)
    case (Load(_), Holding(op)) =>
      (match ReadFocus(s.disk)
       case Ok(current) => Move(s, pid, Loaded(op, current))
       case Err(_) => Move(s, pid, Leaving))
    case (Choose(_, now), Loaded(op, current)) =>
      if Valid(current) && Decide(op, current, now).Write? then
        var next := Decide(op, current, now).next;
        Move(s, pid, Staging(op, current, now, File(V2(next), EncodedSize(next), 0)))
      else Move(s, pid, Leaving)
    case (WriteBytes(_, count), Staging(op, current, now, temporary)) =>
      var written := if temporary.written + count < temporary.size then temporary.written + count else temporary.size;
      Move(s, pid, Staging(op, current, now, temporary.(written := written)))
    case (Sync(_), Staging(op, current, now, temporary)) =>
      if temporary.written == temporary.size then Move(s, pid, Synced(op, current, now, temporary)) else s
    case (Replace(_), Synced(op, current, now, temporary)) =>
      if temporary.content.V2? then
        Move(s, pid, Leaving).(
          disk := Some(temporary),
          history := s.history + [Commit(op, now, current, temporary.content.focus)])
      else s
    case (Fail(_), Holding(_)) => Move(s, pid, Leaving)
    case (Fail(_), Loaded(_, _)) => Move(s, pid, Leaving)
    case (Fail(_), Staging(_, _, _, _)) => Move(s, pid, Leaving)
    case (Fail(_), Synced(_, _, _, _)) => Move(s, pid, Leaving)
    case (ReleaseLock(_), Leaving) => Move(s, pid, Idle).(lock := None)
    case (Crash(_), _) => Move(s, pid, Idle).(lock := if s.lock == Some(pid) then None else s.lock)
    case _ => s
  }

  function Run(s: System, steps: seq<Step>): System {
    if steps == [] then s else Next(Run(s, steps[..|steps| - 1]), steps[|steps| - 1])
  }

  // ----- the invariant -----

  predicate InCritical(phase: Phase) {
    !phase.Idle? && !phase.Waiting?
  }

  /** The record after the first `n` commits, counting from `origin`. */
  function Nth(origin: Focus, history: seq<Commit>, n: nat): Focus
    requires n <= |history|
  {
    if n == 0 then origin else history[n - 1].after
  }

  /** The commits that are what their operation decides on the record before. */
  ghost function Decided(): iset<Commit> {
    iset c: Commit | Valid(c.before) && Decide(c.op, c.before, c.now) == Write(c.after)
  }

  /** Each commit is one of `good` and starts from the record the commit before it left. */
  ghost predicate ChainedIn(origin: Focus, history: seq<Commit>, good: iset<Commit>) {
    forall i :: 0 <= i < |history| ==> history[i].before == Nth(origin, history, i) && history[i] in good
  }

  ghost predicate Chained(origin: Focus, history: seq<Commit>) {
    ChainedIn(origin, history, Decided())
  }

  /** What a process inside the critical section knows. */
  ghost predicate PhaseFits(phase: Phase, disk: Option<File>) {
    match phase
    case Loaded(op, current) => ReadFocus(disk) == Ok(current)
    case Staging(op, current, now, temporary) =>
      ReadFocus(disk) == Ok(current) && temporary.written <= temporary.size && Prepared(op, current, now, temporary)
    case Synced(op, current, now, temporary) =>
      ReadFocus(disk) == Ok(current) && temporary.written == temporary.size && Prepared(op, current, now, temporary)
    case _ => true
  }

  ghost predicate Prepared(op: Operation, current: Focus, now: Timestamp, temporary: File)
    requires Valid(current)
  {
    && temporary.content.V2?
    && Decide(op, current, now) == Write(temporary.content.focus)
    && temporary.size == EncodedSize(temporary.content.focus)
  }

  ghost predicate PhasesFit(s: System) {
    && (forall p: nat :: InCritical(PhaseOf(s, p)) <==> s.lock == Some(p))
    && (forall p: nat :: PhaseFits(PhaseOf(s, p), s.disk))
  }

  /** The file is the first one, or the record of the last commit, whole. */
  ghost predicate HistoryFits(disk: Option<File>, history: seq<Commit>, start: Option<File>) {
    match ReadFocus(start)
    case Err(_) => disk == start && history == []
    case Ok(origin) =>
      && Chained(origin, history)
      && ReadFocus(disk) == Ok(Nth(origin, history, |history|))
      && disk == if history == [] then start else Some(Whole(history[|history| - 1].after))
  }

  function Whole(f: Focus): File {
    File(V2(f), EncodedSize(f), EncodedSize(f))
  }

  ghost predicate Inv(s: System, start: Option<File>) {
    PhasesFit(s) && HistoryFits(s.disk, s.history, start)
  }

  /** Moving one process, and the lock with it, disturbs nobody else. */
  lemma MoveKeepsInv(s: System, start: Option<File>, pid: nat, phase: Phase, lock: Option<nat>)
    requires Inv(s, start)
    requires InCritical(phase) <==> lock == Some(pid)
    requires lock == s.lock || ((s.lock == None || s.lock == Some(pid)) && (lock == None || lock == Some(pid)))
    requires PhaseFits(phase, s.disk)
    ensures Inv(Move(s, pid, phase).(lock := lock), start)
  {
    var next := Move(s, pid, phase).(lock := lock);
    forall p: nat
      ensures InCritical(PhaseOf(next, p)) <==> next.lock == Some(p)
      ensures PhaseFits(PhaseOf(next, p), next.disk)
    {
      if p != pid {
        assert PhaseOf(next, p) == PhaseOf(s, p);
        assert InCritical(PhaseOf(s, p)) <==> s.lock == Some(p);
        assert PhaseFits(PhaseOf(s, p), s.disk);
      }
    }
  }

  lemma ChainExtends(origin: Focus, history: seq<Commit>, c: Commit, good: iset<Commit>)
    requires ChainedIn(origin, history, good)
    requires c.before == Nth(origin, history, |history|) && c in good
    ensures ChainedIn(origin, history + [c], good)
  {
    var longer := history + [c];
    forall i | 0 <= i < |longer|
      ensures longer[i].before == Nth(origin, longer, i) && longer[i] in good
    {
      assert longer[i] == if i < |history| then history[i] else c;
      assert Nth(origin, longer, i) == Nth(origin, history, i);
    }
  }

  lemma ChainShortens(origin: Focus, history: seq<Commit>, n: nat, good: iset<Commit>)
    requires ChainedIn(origin, history, good) && n <= |history|
    ensures ChainedIn(origin, history[..n], good)
    ensures Nth(origin, history[..n], n) == Nth(origin, history, n)
  {
    forall i | 0 <= i < n
      ensures history[..n][i].before == Nth(origin, history[..n], i) && history[..n][i] in good
    {
      assert Nth(origin, history[..n], i) == Nth(origin, history, i);
    }
  }

  lemma ReplaceKeepsPhases(s: System, pid: nat, disk: Option<File>, history: seq<Commit>)
    requires PhasesFit(s) && InCritical(PhaseOf(s, pid))
    ensures PhasesFit(Move(s, pid, Leaving).(disk := disk, history := history))
  {
    var next := Move(s, pid, Leaving).(disk := disk, history := history);
    forall p: nat
      ensures InCritical(PhaseOf(next, p)) <==> next.lock == Some(p)
      ensures PhaseFits(PhaseOf(next, p), next.disk)
    {
      assert InCritical(PhaseOf(s, p)) <==> s.lock == Some(p);
    }
  }

  lemma HistoryExtends(disk: Option<File>, history: seq<Commit>, start: Option<File>, c: Commit)
    requires HistoryFits(disk, history, start) && ReadFocus(disk) == Ok(c.before) && c in Decided()
    ensures HistoryFits(Some(Whole(c.after)), history + [c], start)
  {
    CommitFacts(c.op, c.before, c.now);
    assert ReadFocus(start).Ok?;
    ChainExtends(ReadFocus(start).value, history, c, Decided());
  }

  /** What replacing the file does, and that the new content is the decided record, whole. */
  lemma ReplaceEffect(s: System, pid: nat)
    requires PhaseOf(s, pid).Synced? && PhaseFits(PhaseOf(s, pid), s.disk)
    ensures var phase := PhaseOf(s, pid);
            && ReadFocus(s.disk) == Ok(phase.current)
            && phase.temporary.content.V2?
            && phase.temporary == Whole(phase.temporary.content.focus)
            && var c := Commit(phase.op, phase.now, phase.current, phase.temporary.content.focus);
            && c in Decided()
            && Next(s, Replace(pid)) ==
               Move(s, pid, Leaving).(disk := Some(Whole(c.after)), history := s.history + [c])
  {
  }

  lemma ReplaceKeepsInv(s: System, start: Option<File>, pid: nat)
    requires Inv(s, start) && PhaseOf(s, pid).Synced?
    ensures Inv(Next(s, Replace(pid)), start)
  {
    ReplaceEffect(s, pid);
    var phase := PhaseOf(s, pid);
    var c := Commit(phase.op, phase.now, phase.current, phase.temporary.content.focus);
    HistoryExtends(s.disk, s.history, start, c);
    ReplaceKeepsPhases(s, pid, Some(Whole(c.after)), s.history + [c]);
  }

  /** Any other step moves one process, with the lock, and leaves the file alone. */
  lemma OtherEffect(s: System, step: Step)
    requires !(step.Replace? && PhaseOf(s, step.pid).Synced?)
    requires PhaseFits(PhaseOf(s, step.pid), s.disk)
    requires InCritical(PhaseOf(s, step.pid)) <==> s.lock == Some(step.pid)
    ensures var next, phase := Next(s, step), PhaseOf(Next(s, step), step.pid);
            && (next == s || next == Move(s, step.pid, phase).(lock := next.lock))
            && (InCritical(phase) <==> next.lock == Some(step.pid))
            && (next.lock == s.lock
                || ((s.lock == None || s.lock == Some(step.pid)) && (next.lock == None || next.lock == Some(step.pid))))
            && PhaseFits(phase, s.disk)
  {
  }

  lemma NextKeepsInv(s: System, start: Option<File>, step: Step)
    requires Inv(s, start)
    ensures Inv(Next(s, step), start)
  {
    if step.Replace? && PhaseOf(s, step.pid).Synced? {
      ReplaceKeepsInv(s, start, step.pid);
    } else {
      OtherEffect(s, step);
      var next := Next(s, step);
      if next != s {
        MoveKeepsInv(s, start, step.pid, PhaseOf(next, step.pid), next.lock);
      }
    }
  }

  lemma {:induction false} RunKeepsInv(start: Option<File>, steps: seq<Step>)
    ensures Inv(Run(Start(start), steps), start)
  {
    if steps != [] {
      RunKeepsInv(start, steps[..|steps| - 1]);
      NextKeepsInv(Run(Start(start), steps[..|steps| - 1]), start, steps[|steps| - 1]);
    }
  }
}
