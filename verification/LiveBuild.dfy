/**
 Comparing the checked disk build with what the running service reports, and why the verdict is
 sound when the service runs an earlier build of the same stamp history.
 */
module LiveBuild {
  import opened Wrappers
  import opened BuildId
  import opened SourceFraming
  import opened StampHistory

  datatype ServiceBuild = ServiceBuild(
    schema: string, packageVersion: string, buildId: string, hash: Sha256,
    gitCommit: Option<string>, sourceDirty: Option<bool>)

  /** A work counter as reported: left out, not a count, or a number. */
  datatype Counter = Missing | Malformed | Count(value: int)

  datatype Counters = Counters(
    activeJobs: Counter, queuedMissions: Counter, runningMissions: Counter,
    pendingApprovals: Counter, pendingFinalizations: Counter, pendingEvaluations: Counter)

  datatype WorkerStatus =
    | WorkerIdle | WorkerRunning | WorkerDisabled | WorkerComplete | WorkerQualityFailed
    | WorkerNeedsApproval | WorkerFailed | WorkerCompletionPending | WorkerUnknown

  /** A row of the older queue payload. */
  datatype QueueRow = Queued | Running | Finished | BadStatus | BadRow

  datatype Health = Health(
    ready: bool, pid: int, build: ServiceBuild, counters: Counters, worker: WorkerStatus,
    queue: Option<seq<QueueRow>>)

  datatype LiveError =
    | NotReady | BadPid | SchemaUnsupported | VersionMalformed | HashMalformed | CommitMalformed
    | CounterMalformed | QueueMalformed | WorkerMalformed | BuildIdMalformed

  datatype Verdict = Match | RestartRequired | DiskOlder | IdentityConflict

  datatype Field = PackageVersionField | BuildIdField | SourceHashField | GitCommitField | SourceDirtyField

  datatype Report = Report(verdict: Verdict, restartRequired: bool, restartSafeNow: bool, mismatched: seq<Field>)

  const SCHEMA := "local-company.runtime-build.v2"

  // ----- shapes -----

  predicate IsAlphanumeric(c: char) {
    '0' <= c <= '9' || 'a' <= c <= 'z' || 'A' <= c <= 'Z'
  }

  predicate IsVersion(s: string) {
    1 <= |s| <= 128 && IsAlphanumeric(s[0])
    && forall i :: 0 <= i < |s| ==> IsAlphanumeric(s[i]) || s[i] in ".!+_-"
  }

  predicate IsHexOf(s: string, length: nat) {
    |s| == length && forall i :: 0 <= i < |s| ==> '0' <= s[i] <= '9' || 'a' <= s[i] <= 'f'
  }

  predicate IsHash(h: Sha256) {
    h.ShaOf? || IsHexOf(h.text, 64)
  }

  // ----- work state -----

  /** How often a status occurs in the older queue payload. */
  function Occurrences(rows: seq<QueueRow>, row: QueueRow): nat {
    if rows == [] then 0
    else Occurrences(rows[..|rows| - 1], row) + (if rows[|rows| - 1] == row then 1 else 0)
  }

  predicate GoodRows(rows: seq<QueueRow>) {
    forall i :: 0 <= i < |rows| ==> !rows[i].BadRow? && !rows[i].BadStatus?
  }

  /** The counters used: as reported, or with the two mission counts taken from the older payload. */
  function EffectiveCounters(h: Health): Option<Counters> {
    if !h.counters.runningMissions.Missing? then Some(h.counters)
    else if h.queue.None? || !GoodRows(h.queue.value) then None
    else if !h.counters.queuedMissions.Count? || h.counters.queuedMissions.value < 0 then None
    else
      var counted := Occurrences(h.queue.value, Queued);
      var reported := h.counters.queuedMissions.value;
      Some(h.counters.(
        queuedMissions := Count(if reported >= counted then reported else counted),
        runningMissions := Count(Occurrences(h.queue.value, Running))))
  }

  predicate IsCount(c: Counter) {
    c.Count? && c.value >= 0
  }

  predicate AllCounts(c: Counters) {
    && IsCount(c.activeJobs) && IsCount(c.queuedMissions) && IsCount(c.runningMissions)
    && IsCount(c.pendingApprovals) && IsCount(c.pendingFinalizations) && IsCount(c.pendingEvaluations)
  }

  predicate AllZero(c: Counters) {
    && c.activeJobs == Count(0) && c.queuedMissions == Count(0) && c.runningMissions == Count(0)
    && c.pendingApprovals == Count(0) && c.pendingFinalizations == Count(0) && c.pendingEvaluations == Count(0)
  }

  predicate WorkKnown(h: Health) {
    && EffectiveCounters(h).Some? && AllCounts(EffectiveCounters(h).value) && !h.worker.WorkerUnknown?
  }

  /** Nothing queued, running or pending, and a worker that is doing nothing. */
  predicate IdleNow(h: Health) {
    EffectiveCounters(h).Some? && IsIdle(EffectiveCounters(h).value, h.worker)
  }

  predicate IsIdle(c: Counters, worker: WorkerStatus) {
    AllZero(c) && !worker.WorkerRunning? && !worker.WorkerCompletionPending? && !worker.WorkerNeedsApproval?
  }

  method CountLegacyQueue(rows: seq<QueueRow>) returns (r: Option<(nat, nat)>)
    ensures r == if GoodRows(rows) then Some((Occurrences(rows, Queued), Occurrences(rows, Running))) else None
  {
    var queued, running := 0, 0;
    for i := 0 to |rows|
      invariant GoodRows(rows[..i])
      invariant queued == Occurrences(rows[..i], Queued) && running == Occurrences(rows[..i], Running)
    {
      if rows[i].BadRow? || rows[i].BadStatus? {
        return None;
      }
      assert rows[..i + 1][..i] == rows[..i];
      queued := queued + if rows[i].Queued? then 1 else 0;
      running := running + if rows[i].Running? then 1 else 0;
    }
    assert rows[..|rows|] == rows;
    r := Some((queued, running));
  }

  lemma {:induction false} NoOccurrence(rows: seq<QueueRow>, row: QueueRow)
    ensures Occurrences(rows, row) == 0 <==> row !in rows
  {
    if rows != [] {
      var n := |rows| - 1;
      assert rows == rows[..n] + [rows[n]];
      NoOccurrence(rows[..n], row);
    }
  }

  /** Nothing is queued, running or waiting, read off the report itself. A report without the newer counter
      tells what runs by its rows. */
  ghost predicate Resting(h: Health) {
    && h.worker in {WorkerIdle, WorkerDisabled, WorkerComplete, WorkerQualityFailed, WorkerFailed}
    && h.counters.activeJobs == Count(0) && h.counters.queuedMissions == Count(0)
    && h.counters.pendingApprovals == Count(0) && h.counters.pendingFinalizations == Count(0)
    && h.counters.pendingEvaluations == Count(0)
    && (|| h.counters.runningMissions == Count(0)
        || (h.counters.runningMissions.Missing? && h.queue.Some?
            && Queued !in h.queue.value && Running !in h.queue.value))
  }

  lemma IdleMeansResting(h: Health)
    requires WorkKnown(h)
    ensures IdleNow(h) <==> Resting(h)
  {
    if h.queue.Some? {
      NoOccurrence(h.queue.value, Queued);
      NoOccurrence(h.queue.value, Running);
    }
  }

  // ----- the comparison -----

  predicate Differs(field: Field, disk: Checked, live: ServiceBuild) {
    match field
    case PackageVersionField => disk.packageVersion != live.packageVersion
    case BuildIdField => disk.buildId != live.buildId
    case SourceHashField => disk.hash != live.hash
    case GitCommitField => live.gitCommit.Some?
    case SourceDirtyField => live.sourceDirty.Some?
  }

  function VerdictFor(disk: BuildOrder, live: BuildOrder, mismatched: seq<Field>): Verdict {
    if mismatched == [] then Match
    else if Before(live, disk) then RestartRequired
    else if Before(disk, live) then DiskOlder
    else IdentityConflict
  }

  predicate IsOptionalCommit(commit: Option<string>) {
    commit.Some? ==> IsHexOf(commit.value, 40) || IsHexOf(commit.value, 64)
  }

  predicate WellFormed(h: Health) {
    && h.ready && h.pid > 0 && h.build.schema == SCHEMA && IsVersion(h.build.packageVersion)
    && IsHash(h.build.hash) && IsOptionalCommit(h.build.gitCommit)
    && WorkKnown(h) && ParseBuildId(h.build.buildId).Some?
  }

  // ----- the same, read off the fields of the report -----

  predicate AreHexDigits(s: string) {
    forall i :: 0 <= i < |s| ==> 48 <= s[i] as int <= 57 || 97 <= s[i] as int <= 102
  }

  predicate IsLetterOrDigit(c: char) {
    48 <= c as int <= 57 || 65 <= c as int <= 90 || 97 <= c as int <= 122
  }

  predicate NamesVersion(s: string) {
    && 1 <= |s| <= 128 && IsLetterOrDigit(s[0])
    && forall i :: 0 <= i < |s| ==> IsLetterOrDigit(s[i]) || s[i] in {'.', '!', '+', '_', '-'}
  }

  predicate IsNatural(c: Counter) {
    match c
    case Count(n) => 0 <= n
    case _ => false
  }

  /** The counters can be used: six numbers, or five and the rows of the older payload. */
  predicate CountersRead(c: Counters, rows: Option<seq<QueueRow>>) {
    && IsNatural(c.activeJobs) && IsNatural(c.queuedMissions) && IsNatural(c.pendingApprovals)
    && IsNatural(c.pendingFinalizations) && IsNatural(c.pendingEvaluations)
    && (if c.runningMissions.Missing? then rows.Some? && BadRow !in rows.value && BadStatus !in rows.value
        else IsNatural(c.runningMissions))
  }

  /** A report that can be compared. */
  predicate Sound(h: Health) {
    && h.ready && 1 <= h.pid && h.build.schema == "local-company.runtime-build.v2"
    && NamesVersion(h.build.packageVersion) && ParseBuildId(h.build.buildId).Some?
    && (h.build.hash.ShaOf? || (|h.build.hash.text| == 64 && AreHexDigits(h.build.hash.text)))
    && (h.build.gitCommit.None? || (|h.build.gitCommit.value| in {40, 64} && AreHexDigits(h.build.gitCommit.value)))
    && CountersRead(h.counters, h.queue) && !h.worker.WorkerUnknown?
  }

  lemma WellFormedExactly(h: Health)
    ensures WellFormed(h) <==> Sound(h)
  {
    assert IsVersion(h.build.packageVersion) <==> NamesVersion(h.build.packageVersion);
    CountersAreKnown(h);
  }

  lemma CountersAreKnown(h: Health)
    ensures EffectiveCounters(h).Some? && AllCounts(EffectiveCounters(h).value) <==> CountersRead(h.counters, h.queue)
  {
    if h.queue.Some? {
      assert GoodRows(h.queue.value) <==> BadRow !in h.queue.value && BadStatus !in h.queue.value;
    }
  }

  predicate VerdictFits(r: Report, disk: Checked, h: Health)
    requires ParseBuildId(disk.buildId).Some? && ParseBuildId(h.build.buildId).Some?
  {
    && r.verdict == VerdictFor(ParseBuildId(disk.buildId).value, ParseBuildId(h.build.buildId).value, r.mismatched)
    && r.restartRequired == r.verdict.RestartRequired?
    && r.restartSafeNow == IdleNow(h)
  }

  /** The fields, of those asked about, in which the two builds differ, in the order asked. */
  function Differing(fields: seq<Field>, disk: Checked, live: ServiceBuild): (r: seq<Field>)
    ensures forall f: Field :: f in r <==> f in fields && Differs(f, disk, live)
    ensures |r| <= |fields|
  {
    if fields == [] then []
    else
      var n := |fields| - 1;
      assert fields == fields[..n] + [fields[n]];
      Differing(fields[..n], disk, live) + if Differs(fields[n], disk, live) then [fields[n]] else []
  }

  method CollectMismatches(fields: seq<Field>, disk: Checked, live: ServiceBuild) returns (found: seq<Field>)
    ensures found == Differing(fields, disk, live)
  {
    found := [];
    for i := 0 to |fields|
      invariant found == Differing(fields[..i], disk, live)
    {
      assert fields[..i + 1][..i] == fields[..i];
      if Differs(fields[i], disk, live) {
        found := found + [fields[i]];
      }
    }
    assert fields[..|fields|] == fields;
  }

  /** What a refusal says is true of the report. */
  predicate Explains(e: LiveError, h: Health) {
    match e
    case NotReady => !h.ready
    case BadPid => h.pid <= 0
    case SchemaUnsupported => h.build.schema != SCHEMA
    case VersionMalformed => !IsVersion(h.build.packageVersion)
    case HashMalformed => !IsHash(h.build.hash)
    case CommitMalformed => !IsOptionalCommit(h.build.gitCommit)
    case CounterMalformed => EffectiveCounters(h).None? || !AllCounts(EffectiveCounters(h).value)
    case QueueMalformed =>
      h.counters.runningMissions.Missing? && h.queue.Some? && (BadRow in h.queue.value || BadStatus in h.queue.value)
    case WorkerMalformed => h.worker.WorkerUnknown?
    case BuildIdMalformed => ParseBuildId(h.build.buildId).None?
  }

  method ReadWorkState(h: Health) returns (r: Result<Counters, LiveError>)
    ensures r.Ok? <==> WorkKnown(h)
    ensures r.Ok? ==> EffectiveCounters(h) == Some(r.value)
    ensures r.Err? ==> Explains(r.error, h) && r.error in {CounterMalformed, QueueMalformed, WorkerMalformed}
  {
    var counters := h.counters;
    if counters.runningMissions.Missing? {
      if h.queue.None? {
        return Err(CounterMalformed);
      }
      var counted := CountLegacyQueue(h.queue.value);
      if counted.None? {
        return Err(QueueMalformed);
      }
      if !counters.queuedMissions.Count? || counters.queuedMissions.value < 0 {
        return Err(CounterMalformed);
      }
      var reported := counters.queuedMissions.value;
      counters := counters.(
        queuedMissions := Count(if reported >= counted.value.0 then reported else counted.value.0),
        runningMissions := Count(counted.value.1));
    }
    if !AllCounts(counters) {
      return Err(CounterMalformed);
    }
    if h.worker.WorkerUnknown? {
      return Err(WorkerMalformed);
    }
    r := Ok(counters);
  }

  const BUILD_FIELDS := [PackageVersionField, BuildIdField, SourceHashField]
  const NULLABLE_BUILD_FIELDS := [GitCommitField, SourceDirtyField]

  /** Fails exactly on a health report that is not well formed; otherwise the mismatches are exactly
      the differing fields, and the verdict and the idleness are read off them and the work state. */
  method CompareLiveBuild(disk: Checked, h: Health) returns (r: Result<Report, LiveError>)
    requires ParseBuildId(disk.buildId).Some?
    ensures r.Ok? <==> Sound(h)
    ensures r.Ok? <==> WellFormed(h)
    ensures r.Ok? ==> forall f: Field :: f in r.value.mismatched <==> Differs(f, disk, h.build)
    ensures r.Ok? ==> r.value.mismatched ==
                      Differing(BUILD_FIELDS, disk, h.build) + Differing(NULLABLE_BUILD_FIELDS, disk, h.build)
    ensures r.Ok? ==> VerdictFits(r.value, disk, h)
    ensures r.Err? ==> Explains(r.error, h)
    ensures r.Ok? ==> (r.value.restartSafeNow <==> Resting(h))
    ensures r.Ok? ==>
              var mine, live := ParseBuildId(disk.buildId).value, ParseBuildId(h.build.buildId).value;
              var differs := exists f: Field :: Differs(f, disk, h.build);
              && (r.value.verdict.Match? <==> !differs)
              && (r.value.verdict.RestartRequired? <==> differs && Before(live, mine))
              && (r.value.verdict.DiskOlder? <==> differs && Before(mine, live))
              && (r.value.verdict.IdentityConflict? <==> differs && mine == live)
              && (r.value.restartRequired <==> r.value.verdict.RestartRequired?)
  {
    WellFormedExactly(h);
    if !h.ready {
      return Err(NotReady);
    }
    if h.pid <= 0 {
      return Err(BadPid);
    }
    var live := h.build;
    var first := CollectMismatches(BUILD_FIELDS, disk, live);
    if live.schema != SCHEMA {
      return Err(SchemaUnsupported);
    }
    if !IsVersion(live.packageVersion) {
      return Err(VersionMalformed);
    }
    if !IsHash(live.hash) {
      return Err(HashMalformed);
    }
    if !IsOptionalCommit(live.gitCommit) {
      return Err(CommitMalformed);
    }
    var second := CollectMismatches(NULLABLE_BUILD_FIELDS, disk, live);
    var work := ReadWorkState(h);
    if work.Err? {
      return Err(work.error);
    }
    var idle := IsIdle(work.value, h.worker);
    var liveOrder := ParseBuildId(live.buildId);
    if liveOrder.None? {
      return Err(BuildIdMalformed);
    }
    var mismatched := first + second;
    var verdict := VerdictFor(ParseBuildId(disk.buildId).value, liveOrder.value, mismatched);
    forall f: Field
      ensures f in mismatched <==> Differs(f, disk, live)
    {
      assert f in BUILD_FIELDS || f in NULLABLE_BUILD_FIELDS by {
        AllFields(f);
      }
    }
    assert mismatched != [] ==> mismatched[0] in mismatched;
    IdleMeansResting(h);
    r := Ok(Report(verdict, verdict.RestartRequired?, idle, mismatched));
  }

  lemma AllFields(f: Field)
    ensures f in BUILD_FIELDS || f in NULLABLE_BUILD_FIELDS
  {
    assert BUILD_FIELDS[0] == PackageVersionField && BUILD_FIELDS[1] == BuildIdField;
    assert BUILD_FIELDS[2] == SourceHashField;
    assert NULLABLE_BUILD_FIELDS[0] == GitCommitField && NULLABLE_BUILD_FIELDS[1] == SourceDirtyField;
  }

  // ----- soundness over a stamp history -----

  /** The service runs build `m`: it reports that manifest's identity, and a manifest with the
      current digest coverage was checked against the sources the service was started from. */
  predicate Runs(live: ServiceBuild, m: Manifest, sources: Project, reader: VersionReader) {
    && live.buildId == m.buildId && live.hash == m.hash
    && (m.docstring.Current? ==>
          && CheckProject(Some(m), sources, reader).Some?
          && live.packageVersion == CheckProject(Some(m), sources, reader).value.packageVersion)
  }

  /** The service runs the manifest as it stood after the first `i` stamps, and the disk manifest,
      after all of them, passes its own check. Then the verdict is never `disk_older`; it is
      `match` exactly when both are the same build and the service reports no Git fields,
      `identity_conflict` exactly when they are the same build and it does, and
      `restart_required` otherwise. */
  lemma VerdictOverHistory(
    first: Option<Manifest>, calls: seq<Call>, reader: VersionReader, i: nat,
    now: Project, started: Project, live: ServiceBuild, mismatched: seq<Field>)
    requires i <= |calls| && RunStamps(first, calls[..i], reader).Some?
    requires CheckProject(RunStamps(first, calls, reader), now, reader).Some?
    requires Runs(live, RunStamps(first, calls[..i], reader).value, started, reader)
    requires var disk := CheckProject(RunStamps(first, calls, reader), now, reader).value;
             forall f: Field :: f in mismatched <==> Differs(f, disk, live)
    requires ParseBuildId(live.buildId).Some?
    ensures var disk := CheckProject(RunStamps(first, calls, reader), now, reader).value;
            var verdict := VerdictFor(ParseBuildId(disk.buildId).value, ParseBuildId(live.buildId).value, mismatched);
            var same := disk.buildId == live.buildId;
            var git := live.gitCommit.Some? || live.sourceDirty.Some?;
            verdict == if !same then RestartRequired else if git then IdentityConflict else Match
  {
    EarlierManifest(first, calls, reader, i);
    var m, n := RunStamps(first, calls[..i], reader).value, RunStamps(first, calls, reader).value;
    var disk := CheckProject(Some(n), now, reader).value;
    assert MayFollow(m, n);
    if disk.buildId == live.buildId {
      assert m.hash == n.hash && m.docstring.Current?;
      SameHashSameVersion(Some(n), now, Some(m), started, reader);
      assert !Differs(PackageVersionField, disk, live) && !Differs(BuildIdField, disk, live)
             && !Differs(SourceHashField, disk, live);
      assert mismatched != [] ==> mismatched[0] in mismatched;
      assert live.gitCommit.Some? ==> GitCommitField in mismatched;
      assert live.sourceDirty.Some? ==> SourceDirtyField in mismatched;
    } else {
      assert Differs(BuildIdField, disk, live) && BuildIdField in mismatched;
      if !Before(ParseBuildId(live.buildId).value, ParseBuildId(disk.buildId).value) {
        assert ParseBuildId(live.buildId) == ParseBuildId(disk.buildId);
        ParseInjective(live.buildId, disk.buildId);
      }
    }
  }

  /** The identity the service itself reports: it knows no Git state. */
  predicate Reported(live: ServiceBuild) {
    live.gitCommit.None? && live.sourceDirty.None?
  }

  /** The comparison against any earlier manifest of a stamp history. For the identity the service
      itself reports it answers `match` for the same build and `restart_required` for every other; a
      reply for the same build that does name a Git state is called a conflict. */
  method CompareOverHistory(
    first: Option<Manifest>, calls: seq<Call>, reader: VersionReader, i: nat,
    now: Project, started: Project, h: Health)
    returns (r: Result<Report, LiveError>)
    requires i <= |calls| && RunStamps(first, calls[..i], reader).Some?
    requires CheckProject(RunStamps(first, calls, reader), now, reader).Some?
    requires Runs(h.build, RunStamps(first, calls[..i], reader).value, started, reader)
    ensures r.Ok? <==> WellFormed(h)
    ensures r.Ok? && Reported(h.build) ==>
              var disk := CheckProject(RunStamps(first, calls, reader), now, reader).value;
              && r.value.verdict == (if disk.buildId == h.build.buildId then Match else RestartRequired)
              && r.value.restartRequired == (disk.buildId != h.build.buildId)
    ensures r.Ok? ==> (r.value.verdict.IdentityConflict? <==>
                         && CheckProject(RunStamps(first, calls, reader), now, reader).value.buildId == h.build.buildId
                         && !Reported(h.build))
  {
    var disk := CheckProject(RunStamps(first, calls, reader), now, reader).value;
    r := CompareLiveBuild(disk, h);
    if r.Ok? {
      VerdictOverHistory(first, calls, reader, i, now, started, h.build, r.value.mismatched);
    }
  }
}
