/**
 What the history of the focus file shows after any schedule: no commit is lost, no digest comes
 back, and leaving an enabled focus is always recorded.
 */
module FocusHistory {
  import opened Wrappers
  import opened ExecutionFocus
  import opened FocusProtocol

  /** The part of a chain the counting below needs. */
  ghost predicate CountsUp(origin: Focus, history: seq<Commit>) {
    forall i :: 0 <= i < |history| ==>
      && history[i].before == Nth(origin, history, i)
      && history[i].after.revision == history[i].before.revision + 1
  }

  lemma ChainCountsUp(origin: Focus, history: seq<Commit>)
    requires Chained(origin, history)
    ensures CountsUp(origin, history)
  {
    forall i | 0 <= i < |history|
      ensures history[i].after.revision == history[i].before.revision + 1
    {
      assert history[i] in Decided();
      CommitFacts(history[i].op, history[i].before, history[i].now);
    }
  }

  lemma {:induction false} RevisionCounts(origin: Focus, history: seq<Commit>, n: nat)
    requires CountsUp(origin, history) && n <= |history|
    ensures Nth(origin, history, n).revision == origin.revision + n
  {
    if n > 0 {
      RevisionCounts(origin, history, n - 1);
    }
  }

  /** Where a run has got to, as far as counting is concerned. */
  lemma Reached(start: Option<File>, steps: seq<Step>)
    requires ReadFocus(start).Ok?
    ensures var s, origin := Run(Start(start), steps), ReadFocus(start).value;
            CountsUp(origin, s.history) && ReadFocus(s.disk) == Ok(Nth(origin, s.history, |s.history|))
  {
    RunKeepsInv(start, steps);
    ChainCountsUp(ReadFocus(start).value, Run(Start(start), steps).history);
  }

  lemma CountsUpLinks(origin: Focus, history: seq<Commit>)
    requires CountsUp(origin, history)
    ensures forall i :: 0 < i < |history| ==> history[i].before == history[i - 1].after
    ensures forall i :: 0 <= i < |history| ==> history[i].after.revision == history[i].before.revision + 1
  {
  }

  /** No lost update: after any schedule the revision is the first one plus the number of commits,
      and every commit replaced exactly the record the previous one wrote. */
  lemma NoLostUpdate(start: Option<File>, steps: seq<Step>)
    requires ReadFocus(start).Ok?
    ensures var s := Run(Start(start), steps);
            && ReadFocus(s.disk).Ok?
            && ReadFocus(s.disk).value.revision == ReadFocus(start).value.revision + |s.history|
            && (forall i :: 0 < i < |s.history| ==> s.history[i].before == s.history[i - 1].after)
            && (forall i :: 0 <= i < |s.history| ==> s.history[i].after.revision == s.history[i].before.revision + 1)
  {
    Reached(start, steps);
    var s, origin := Run(Start(start), steps), ReadFocus(start).value;
    RevisionCounts(origin, s.history, |s.history|);
    CountsUpLinks(origin, s.history);
  }

  /** No record ever comes back: the digests along a run are all different. */
  lemma NoDigestReturns(start: Option<File>, steps: seq<Step>, i: nat, j: nat)
    requires ReadFocus(start).Ok?
    requires i < j <= |Run(Start(start), steps).history|
    ensures var s, origin := Run(Start(start), steps), ReadFocus(start).value;
            Sha256Of(Nth(origin, s.history, i)) != Sha256Of(Nth(origin, s.history, j))
  {
    Reached(start, steps);
    var s, origin := Run(Start(start), steps), ReadFocus(start).value;
    RevisionCounts(origin, s.history, i);
    RevisionCounts(origin, s.history, j);
  }

  /** At most one operation bound to a given digest ever commits, however many processes try,
      and it commits on the very record that digest names. */
  lemma OneCommitPerDigest(start: Option<File>, steps: seq<Step>, i: nat, j: nat)
    requires ReadFocus(start).Ok?
    requires i < |Run(Start(start), steps).history| && j < |Run(Start(start), steps).history|
    requires !Run(Start(start), steps).history[i].op.SetFocus? && !Run(Start(start), steps).history[j].op.SetFocus?
    requires Run(Start(start), steps).history[i].op.expected == Run(Start(start), steps).history[j].op.expected
    ensures i == j
    ensures var h := Run(Start(start), steps).history; h[i].op.expected == Sha256Of(h[i].before) && h[i].before.enabled
  {
    RunKeepsInv(start, steps);
    var h := Run(Start(start), steps).history;
    CommitFacts(h[i].op, h[i].before, h[i].now);
    CommitFacts(h[j].op, h[j].before, h[j].now);
    if i < j {
      NoDigestReturns(start, steps, i, j);
    } else if j < i {
      NoDigestReturns(start, steps, j, i);
    }
  }

  /** Once a commit has replaced the record a digest names, no later record answers to it. */
  lemma StaleDigestRefused(start: Option<File>, steps: seq<Step>, i: nat, op: Operation, now: Timestamp)
    requires ReadFocus(start).Ok? && i < |Run(Start(start), steps).history|
    requires !op.SetFocus? && op.expected == Sha256Of(Run(Start(start), steps).history[i].before)
    ensures Perform(Run(Start(start), steps).disk, op, now).1 ==
            Refused(if Precheck(op).Some? then Precheck(op).value else FocusChanged)
  {
    Reached(start, steps);
    NoDigestReturns(start, steps, i, |Run(Start(start), steps).history|);
    WrongDigestRefused(Run(Start(start), steps).disk, op, now);
  }

  lemma WrongDigestRefused(disk: Option<File>, op: Operation, now: Timestamp)
    requires ReadFocus(disk).Ok? && !op.SetFocus? && op.expected != Sha256Of(ReadFocus(disk).value)
    ensures Perform(disk, op, now) ==
            (disk, Refused(if Precheck(op).Some? then Precheck(op).value else FocusChanged))
  {
  }

  /** The departure record the most recent leaving of an enabled focus must have left behind. */
  function LastDeparture(origin: Focus, history: seq<Commit>): Option<Handoff> {
    if history == [] then origin.handoff
    else
      var last := history[|history| - 1];
      if last.before.enabled && !last.op.SetFocus? && last.before.projectId.Some? && last.before.projectName.Some? then
        Some(Departure(last.before, last.op.reason, last.now))
      else LastDeparture(origin, history[..|history| - 1])
  }

  lemma {:induction false} HandoffFollows(origin: Focus, history: seq<Commit>)
    requires Chained(origin, history)
    ensures Nth(origin, history, |history|).handoff == LastDeparture(origin, history)
  {
    if history != [] {
      var n := |history| - 1;
      var shorter := history[..n];
      ChainShortens(origin, history, n, Decided());
      HandoffFollows(origin, shorter);
      assert history[n] in Decided();
      CommitFacts(history[n].op, history[n].before, history[n].now);
    }
  }

  /** In every reachable state the handoff field is the record of the most recent departure from an
      enabled focus: its project, the digest of that very state, the reason and time given. Setting a
      new focus afterwards keeps it. */
  lemma HandoffIsLastDeparture(start: Option<File>, steps: seq<Step>)
    requires ReadFocus(start).Ok?
    ensures var s := Run(Start(start), steps);
            && ReadFocus(s.disk).Ok?
            && ReadFocus(s.disk).value.handoff == LastDeparture(ReadFocus(start).value, s.history)
  {
    RunKeepsInv(start, steps);
    HandoffFollows(ReadFocus(start).value, Run(Start(start), steps).history);
  }

  /** An enabled project gives way only to an operation bound to the digest of the state it leaves. */
  lemma NoSilentReplacement(start: Option<File>, steps: seq<Step>, i: nat)
    requires ReadFocus(start).Ok? && i < |Run(Start(start), steps).history|
    requires Run(Start(start), steps).history[i].before.enabled
    ensures var c := Run(Start(start), steps).history[i];
            && !c.op.SetFocus? && c.op.expected == Sha256Of(c.before)
            && (c.op.HandoffFocus? ==> c.before.projectId == Some(c.op.fromProjectId))
            && c.after.projectId != c.before.projectId
            && c.after.handoff.Some?
            && c.after.handoff.value.priorFocusDigest == Sha256Of(c.before)
            && Some(c.after.handoff.value.fromProjectId) == c.before.projectId
            && Some(c.after.handoff.value.fromProjectName) == c.before.projectName
  {
    RunKeepsInv(start, steps);
    var c := Run(Start(start), steps).history[i];
    CommitFacts(c.op, c.before, c.now);
  }
}
