/**
 The runtime guard: confirm what is missing, start it, look again, and give one verdict. Every
 probe, service read, store and manifest look, process start and termination answers with an
 arbitrary value, so the contracts hold over every behaviour of the environment.
 */
module RuntimeGuard {
  import opened Wrappers
  import opened Verdicts
  import opened GuardTypes

  /** What the guard did or saw around the model runtime, in order. */
  datatype Event =
    | StoreLooked(same: bool) | ManifestLooked(valid: bool) | Probed(probe: Probe) | PortLooked(port: PortState)
    | ChildStarted | ChildConfirmed | ChildTerminated(ok: bool)

  datatype Configuration = Configuration(pinGiven: bool, allowInheritance: bool)

  // ----- starting the child -----

  datatype Verification = DigestMatches | DigestDiffers | NotVerifiable
  datatype Launch = Launched | LaunchDenied(breakaway: bool) | SignatureChanged | LaunchRaises
  datatype Lease = LeaseKept | LeaseBroken | LeaseRaises
  datatype Termination = Answers(ok: bool) | TerminationRaises

  datatype SpawnAnswers = SpawnAnswers(
    verification: Verification, first: Launch, second: Launch, lease: Lease, termination: Termination)

  datatype SpawnResult = Child | HashMismatch | ExecutableError | CleanupError | OsError | OtherError

  /** The child a spawn leaves behind: handed over, terminated, or reported as not cleaned up. */
  predicate SpawnFits(result: SpawnResult, log: seq<Event>) {
    match result
    case Child => log == [ChildStarted]
    case CleanupError => log == [ChildStarted, ChildTerminated(false)]
    case ExecutableError => log == [] || log == [ChildStarted, ChildTerminated(true)]
    case _ => log == []
  }

  /** The process is created, at the second try without its own group if the first one is denied that. */
  predicate Launches(a: SpawnAnswers, allowInheritance: bool) {
    && a.verification.DigestMatches?
    && (a.first.Launched? || (a.first.LaunchDenied? && allowInheritance && a.first.breakaway && a.second.Launched?))
  }

  /** The system refuses to create it. */
  predicate LaunchRefused(a: SpawnAnswers, allowInheritance: bool) {
    && a.verification.DigestMatches? && a.first.LaunchDenied?
    && (allowInheritance && a.first.breakaway ==> a.second.LaunchDenied?)
  }

  /** The first launch is denied for its own group, and a second one without it is tried. */
  predicate Relaunches(a: SpawnAnswers, allowInheritance: bool) {
    a.verification.DigestMatches? && a.first.LaunchDenied? && allowInheritance && a.first.breakaway
  }

  /** The executable cannot be verified, or is another one by the time it is launched. */
  predicate ExecutableMoves(a: SpawnAnswers, allowInheritance: bool) {
    || a.verification.NotVerifiable?
    || (a.verification.DigestMatches? && a.first.SignatureChanged?)
    || (Relaunches(a, allowInheritance) && a.second.SignatureChanged?)
  }

  predicate LaunchBreaks(a: SpawnAnswers, allowInheritance: bool) {
    || (a.verification.DigestMatches? && a.first.LaunchRaises?)
    || (Relaunches(a, allowInheritance) && a.second.LaunchRaises?)
  }

  predicate CleansUp(a: SpawnAnswers) {
    a.termination.Answers? && a.termination.ok
  }

  method SpawnOllama(a: SpawnAnswers, allowInheritance: bool) returns (result: SpawnResult, log: seq<Event>)
    ensures SpawnFits(result, log)
    ensures result.Child? <==> Launches(a, allowInheritance) && a.lease.LeaseKept?
    ensures result.CleanupError? <==> Launches(a, allowInheritance) && !a.lease.LeaseKept? && !CleansUp(a)
    ensures result.OsError? <==> LaunchRefused(a, allowInheritance)
    ensures result.HashMismatch? <==> a.verification.DigestDiffers?
    ensures result.OtherError? <==> LaunchBreaks(a, allowInheritance)
    ensures result.ExecutableError? <==>
              || ExecutableMoves(a, allowInheritance)
              || (Launches(a, allowInheritance) && !a.lease.LeaseKept? && CleansUp(a))
  {
    log := [];
    if a.verification.DigestDiffers? {
      return HashMismatch, log;
    }
    if a.verification.NotVerifiable? || a.first.SignatureChanged? {
      return ExecutableError, log;
    }
    if a.first.LaunchRaises? {
      return OtherError, log;
    }
    if a.first.LaunchDenied? {
      if !(allowInheritance && a.first.breakaway) {
        return OsError, log;
      }
      match a.second {
        case SignatureChanged => return ExecutableError, log;
        case LaunchDenied(_) => return OsError, log;
        case LaunchRaises => return OtherError, log;
        case Launched =>
      }
    }
    log := log + [ChildStarted];
    if a.lease.LeaseKept? {
      return Child, log;
    }
    var cleaned := CleansUp(a);
    log := log + [ChildTerminated(cleaned)];
    result := if cleaned then ExecutableError else CleanupError;
  }

  // ----- waiting for it -----

  datatype Look = Sees(probe: Probe) | LookRaisesOs | LookRaisesOther
  datatype Poll = Alive | Exited | PollFails

  datatype Tick = Tick(look: Look, poll: Poll)

  datatype WaitResult = Waited(probe: Probe) | WaitRaisesOs | WaitRaisesOther

  predicate StillStarting(t: Tick) {
    t.look.Sees? && IsDown(t.look.probe) && t.poll.Alive?
  }

  /** The look that ends the waiting: the first that does not find the child still starting, or the last. */
  function Ending(ticks: seq<Tick>, last: Tick): (t: Tick)
    ensures t in ticks || t == last
  {
    if ticks == [] then last
    else if StillStarting(ticks[0]) then Ending(ticks[1..], last)
    else ticks[0]
  }

  /** What that look means. */
  function Settled(t: Tick): WaitResult {
    match t.look
    case LookRaisesOs => WaitRaisesOs
    case LookRaisesOther => WaitRaisesOther
    case Sees(probe) =>
      if t.poll.PollFails? || probe.Invalid? || (probe.Reachable? && t.poll.Exited?) then Waited(Invalid)
      else Waited(probe)
  }

  /** The looks before `k` find the child still starting, and that look, the first one that does not or the
      last one, gives the result: a child counts as reachable only while it is alive. */
  predicate EndsAt(ticks: seq<Tick>, last: Tick, k: nat, r: WaitResult) {
    && k <= |ticks| && (forall i :: 0 <= i < k ==> StillStarting(ticks[i]))
    && (k < |ticks| ==> !StillStarting(ticks[k]))
    && var t := if k < |ticks| then ticks[k] else last;
       match r
       case WaitRaisesOs => t.look.LookRaisesOs?
       case WaitRaisesOther => t.look.LookRaisesOther?
       case Waited(probe) =>
         && t.look.Sees?
         && match probe
            case Reachable(_) => t.look.probe == probe && t.poll.Alive?
            case Invalid => t.poll.PollFails? || t.look.probe.Invalid? || (t.look.probe.Reachable? && t.poll.Exited?)
            case _ => t.look.probe == probe && !t.poll.PollFails?
  }

  /** Looks until the child answers, exits, or the deadline has passed: `ticks` are the looks before
      the deadline and `last` is the first one at or after it. */
  method WaitForOllama(ticks: seq<Tick>, last: Tick) returns (r: WaitResult)
    ensures r == Settled(Ending(ticks, last))
    ensures r.Waited? && r.probe.Reachable? ==>
              Tick(Sees(r.probe), Alive) in ticks || last == Tick(Sees(r.probe), Alive)
    ensures exists k :: EndsAt(ticks, last, k, r)
  {
    var i := 0;
    while true
      invariant i <= |ticks|
      invariant forall k :: 0 <= k < i ==> StillStarting(ticks[k])
      invariant Ending(ticks, last) == Ending(ticks[i..], last)
      decreases |ticks| - i
    {
      var t := if i < |ticks| then ticks[i] else last;
      assert i < |ticks| ==> ticks[i..][0] == t && ticks[i..][1..] == ticks[i + 1..];
      if t.look.LookRaisesOs? {
        assert EndsAt(ticks, last, i, WaitRaisesOs);
        return WaitRaisesOs;
      }
      if t.look.LookRaisesOther? {
        assert EndsAt(ticks, last, i, WaitRaisesOther);
        return WaitRaisesOther;
      }
      if t.poll.PollFails? {
        assert EndsAt(ticks, last, i, Waited(Invalid));
        return Waited(Invalid);
      }
      var state := t.look.probe;
      if !IsDown(state) {
        if !state.Reachable? || t.poll.Exited? {
          assert EndsAt(ticks, last, i, Waited(Invalid));
          return Waited(Invalid);
        }
        assert EndsAt(ticks, last, i, Waited(state));
        return Waited(state);
      }
      if t.poll.Exited? || i == |ticks| {
        assert EndsAt(ticks, last, i, Waited(state));
        return Waited(state);
      }
      i := i + 1;
    }
  }

  // ----- bringing the model runtime up -----

  datatype Executable = Trusted | NotFound | Untrusted | LookupRaisesOs | LookupRaisesOther

  datatype OllamaAnswers = OllamaAnswers(
    first: Probe, second: Probe, port: PortState, storeSame: bool, manifestSame: bool,
    executable: Executable, spawn: SpawnAnswers, ticks: seq<Tick>, last: Tick, terminated: bool)

  datatype Attempt = PinRequired | ExecutableMissing | StartFailed | ServiceStartAttemptFailed

  /** What is known after the attempt to bring the runtime up. `stop` is set when the guard gives up
      on the spot because the store or the manifest changed. */
  datatype Bringup = Bringup(
    stop: Option<Reason>, state: Probe, indeterminate: seq<Reason>, started: bool, attempts: set<Attempt>)

  /** No child was started, or it was confirmed and is a listed change, or it was terminated, or
      its cleanup failure is a recorded reason. */
  predicate Accounted(log: seq<Event>, started: bool, indeterminate: seq<Reason>) {
    || ChildStarted !in log
    || (started && ChildConfirmed in log)
    || ChildTerminated(true) in log
    || OllamaCleanupFailed in indeterminate
  }

  /** A child is started at most once, and only after two failed probes, a refused port, and a fresh
      look at the store and the manifest. */
  predicate Justified(log: seq<Event>) {
    ChildStarted in log ==>
      && |log| >= 6
      && log[0].Probed? && IsDown(log[0].probe)
      && log[1].Probed? && IsDown(log[1].probe)
      && log[2] == PortLooked(PortRefused)
      && log[3] == StoreLooked(true)
      && log[4] == ManifestLooked(true)
      && ChildStarted !in log[..5]
      && log[5] == ChildStarted
      && ChildStarted !in log[6..]
  }

  /** Store and manifest are unchanged, and there is a trusted executable to start. */
  predicate MayStart(cfg: Configuration, a: OllamaAnswers) {
    a.storeSame && a.manifestSame && cfg.pinGiven && a.executable.Trusted?
  }

  predicate HandsOver(cfg: Configuration, a: OllamaAnswers) {
    MayStart(cfg, a) && Launches(a.spawn, cfg.allowInheritance) && a.spawn.lease.LeaseKept?
  }

  function WaitsFor(a: OllamaAnswers): WaitResult {
    Settled(Ending(a.ticks, a.last))
  }

  /** A child is handed over and answers in time. */
  predicate StartsChild(cfg: Configuration, a: OllamaAnswers) {
    HandsOver(cfg, a) && WaitsFor(a).Waited? && WaitsFor(a).probe.Reachable?
  }

  /** A child is created and cannot be terminated again when it has to be. */
  predicate LeavesChild(cfg: Configuration, a: OllamaAnswers) {
    || (MayStart(cfg, a) && Launches(a.spawn, cfg.allowInheritance) && !a.spawn.lease.LeaseKept? && !CleansUp(a.spawn))
    || (HandsOver(cfg, a) && !StartsChild(cfg, a) && !a.terminated)
  }

  /** The reasons an attempt to start leaves, from its own answers. */
  predicate StartNames(cfg: Configuration, a: OllamaAnswers, r: Reason) {
    && a.storeSame && a.manifestSame && cfg.pinGiven
    && match r
       case OllamaExecutableHashMismatch => a.executable.Trusted? && a.spawn.verification.DigestDiffers?
       case OllamaExecutableInvalid =>
         || a.executable.Untrusted?
         || (a.executable.Trusted? && ExecutableMoves(a.spawn, cfg.allowInheritance))
         || (a.executable.Trusted? && Launches(a.spawn, cfg.allowInheritance) && !a.spawn.lease.LeaseKept?)
       case OllamaCleanupFailed => LeavesChild(cfg, a)
       case OllamaStartFailed =>
         || a.executable.LookupRaisesOther?
         || (a.executable.Trusted? && LaunchBreaks(a.spawn, cfg.allowInheritance))
         || (HandsOver(cfg, a) && WaitsFor(a).WaitRaisesOther?)
       case OllamaResponseInvalid => HandsOver(cfg, a) && WaitsFor(a) == Waited(Invalid)
       case OllamaStartUnconfirmed => HandsOver(cfg, a) && WaitsFor(a).Waited? && IsDown(WaitsFor(a).probe)
       case _ => false
  }

  /** The system itself says that the start failed. */
  predicate StartIsRefused(cfg: Configuration, a: OllamaAnswers) {
    && a.storeSame && a.manifestSame && cfg.pinGiven
    && (|| a.executable.LookupRaisesOs?
        || (a.executable.Trusted? && LaunchRefused(a.spawn, cfg.allowInheritance))
        || (HandsOver(cfg, a) && WaitsFor(a).WaitRaisesOs?))
  }

  /** The attempt leaves nothing unclear: a child answers, or the attempt ends where the guard knows why. */
  predicate StartsClearly(cfg: Configuration, a: OllamaAnswers) {
    && a.storeSame && a.manifestSame
    && (|| !cfg.pinGiven || a.executable.NotFound? || a.executable.LookupRaisesOs?
        || StartsChild(cfg, a)
        || (a.executable.Trusted? && LaunchRefused(a.spawn, cfg.allowInheritance))
        || (HandsOver(cfg, a) && WaitsFor(a).WaitRaisesOs? && a.terminated))
  }

  /** From the child's handing over to its confirmation or termination. */
  method WatchChild(a: OllamaAnswers) returns (b: Bringup, last: Event)
    ensures b.stop.None? && PinRequired !in b.attempts && ExecutableMissing !in b.attempts
    ensures ServiceStartAttemptFailed !in b.attempts
    ensures b.started <==> WaitsFor(a).Waited? && WaitsFor(a).probe.Reachable?
    ensures last == if b.started then ChildConfirmed else ChildTerminated(a.terminated)
    ensures b.started ==> Waited(b.state) == WaitsFor(a) && b.indeterminate == []
    ensures !b.started ==> !b.state.Reachable?
    ensures b.indeterminate == [] <==> b.started || (WaitsFor(a).WaitRaisesOs? && a.terminated)
    ensures OllamaCleanupFailed in b.indeterminate <==> !b.started && !a.terminated
    ensures OllamaResponseInvalid in b.indeterminate <==> WaitsFor(a) == Waited(Invalid)
    ensures OllamaStartUnconfirmed in b.indeterminate <==> WaitsFor(a).Waited? && IsDown(WaitsFor(a).probe)
    ensures OllamaStartFailed in b.indeterminate <==> WaitsFor(a).WaitRaisesOther?
    ensures StartFailed in b.attempts <==> WaitsFor(a).WaitRaisesOs?
    ensures |b.indeterminate| <= 2 && (b.started || b.indeterminate != [] || b.attempts != {})
    ensures b.state.Invalid? ==> b.indeterminate != []
    ensures forall r :: r in b.indeterminate ==>
              r in [OllamaCleanupFailed, OllamaResponseInvalid, OllamaStartUnconfirmed, OllamaStartFailed]
  {
    var waited := WaitForOllama(a.ticks, a.last);
    if waited.Waited? && waited.probe.Reachable? {
      return Bringup(None, waited.probe, [], true, {}), ChildConfirmed;
    }
    last := ChildTerminated(a.terminated);
    var cleanup := if a.terminated then [] else [OllamaCleanupFailed];
    match waited {
      case WaitRaisesOs => return Bringup(None, Refused, cleanup, false, {StartFailed}), last;
      case WaitRaisesOther => return Bringup(None, Refused, cleanup + [OllamaStartFailed], false, {}), last;
      case Waited(state) =>
        var why := if state.Invalid? then OllamaResponseInvalid else OllamaStartUnconfirmed;
        return Bringup(None, state, cleanup + [why], false, {}), last;
    }
  }

  /** What happens between a confirmed-refused port and the end of the start attempt. */
  method StartOllama(cfg: Configuration, a: OllamaAnswers) returns (b: Bringup, log: seq<Event>)
    requires IsDown(a.first)
    ensures Accounted(log, b.started, b.indeterminate)
    ensures b.stop.None? ==> |log| >= 2 && log[0] == StoreLooked(true) && log[1] == ManifestLooked(true)
    ensures b.stop.Some? ==> ChildStarted !in log && b.stop.value in [CompanyStoreChanged, DiskManifestChanged]
    ensures b.stop.Some? ==> b.indeterminate == []
    ensures ChildStarted in log ==> log[2] == ChildStarted && ChildStarted !in log[3..]
    ensures ChildStarted in log ==> cfg.pinGiven && a.executable.Trusted?
    ensures b.started <==> ChildConfirmed in log
    ensures b.started <==> StartsChild(cfg, a)
    ensures b.started ==> Waited(b.state) == WaitsFor(a) && b.indeterminate == []
    ensures b.stop.None? && b.indeterminate == [] <==> StartsClearly(cfg, a)
    ensures forall r :: r in b.indeterminate <==> StartNames(cfg, a, r)
    ensures StartFailed in b.attempts <==> StartIsRefused(cfg, a)
    ensures |b.indeterminate| <= 2 && (b.started || b.indeterminate != [] || b.attempts != {} || b.stop.Some?)
    ensures !b.started && b.stop.None? ==> !b.state.Reachable?
    ensures b.state.Invalid? ==> b.indeterminate != []
    ensures PinRequired in b.attempts <==> b.stop.None? && !cfg.pinGiven
    ensures ExecutableMissing in b.attempts <==> b.stop.None? && cfg.pinGiven && a.executable.NotFound?
    ensures ServiceStartAttemptFailed !in b.attempts
    ensures b.stop == if !a.storeSame then Some(CompanyStoreChanged)
                      else if !a.manifestSame then Some(DiskManifestChanged) else None
  {
    log := [StoreLooked(a.storeSame)];
    if !a.storeSame {
      return Bringup(Some(CompanyStoreChanged), Refused, [], false, {}), log;
    }
    log := log + [ManifestLooked(a.manifestSame)];
    if !a.manifestSame {
      return Bringup(Some(DiskManifestChanged), Refused, [], false, {}), log;
    }
    if !cfg.pinGiven {
      return Bringup(None, a.first, [], false, {PinRequired}), log;
    }
    match a.executable {
      case NotFound => return Bringup(None, a.first, [], false, {ExecutableMissing}), log;
      case Untrusted => return Bringup(None, Refused, [OllamaExecutableInvalid], false, {}), log;
      case LookupRaisesOs => return Bringup(None, Refused, [], false, {StartFailed}), log;
      case LookupRaisesOther => return Bringup(None, Refused, [OllamaStartFailed], false, {}), log;
      case Trusted =>
    }
    var result, spawnLog := SpawnOllama(a.spawn, cfg.allowInheritance);
    log := log + spawnLog;
    match result {
      case HashMismatch => return Bringup(None, Refused, [OllamaExecutableHashMismatch], false, {}), log;
      case CleanupError =>
        return Bringup(None, Refused, [OllamaExecutableInvalid, OllamaCleanupFailed], false, {}), log;
      case ExecutableError => return Bringup(None, Refused, [OllamaExecutableInvalid], false, {}), log;
      case OsError => return Bringup(None, Refused, [], false, {StartFailed}), log;
      case OtherError => return Bringup(None, Refused, [OllamaStartFailed], false, {}), log;
      case Child =>
    }
    var last;
    b, last := WatchChild(a);
    log := log + [last];
  }

  lemma DropAcross(before: seq<Event>, after: seq<Event>, n: nat)
    requires n <= |after|
    ensures (before + after)[|before| + n..] == after[n..]
  {
  }

  /** Two looks find no runtime, and nothing listens on its port. */
  predicate ConfirmedGone(a: OllamaAnswers) {
    IsDown(a.first) && IsDown(a.second) && a.port.PortRefused?
  }

  predicate ComesUpClearly(cfg: Configuration, a: OllamaAnswers) {
    a.first.Reachable? || (IsDown(a.first) && a.second.Reachable?) || (ConfirmedGone(a) && StartsClearly(cfg, a))
  }

  /** The runtime is found or started with its model. */
  predicate ComesUpReady(cfg: Configuration, a: OllamaAnswers) {
    || a.first == Reachable(true) || (IsDown(a.first) && a.second == Reachable(true))
    || (ConfirmedGone(a) && StartsChild(cfg, a) && WaitsFor(a) == Waited(Reachable(true)))
  }

  /** The reasons the runtime's part of the run leaves. */
  predicate BringUpNames(cfg: Configuration, a: OllamaAnswers, r: Reason) {
    || (r.OllamaResponseInvalid? && (a.first.Invalid? || (IsDown(a.first) && a.second.Invalid?)))
    || (r.OllamaPresenceIndeterminate? && IsDown(a.first) && IsDown(a.second) && !a.port.PortRefused?)
    || (ConfirmedGone(a) && StartNames(cfg, a, r))
  }

  /** What it remembers of a start that did not come about. */
  predicate BringUpTries(cfg: Configuration, a: OllamaAnswers, t: Attempt) {
    && ConfirmedGone(a) && a.storeSame && a.manifestSame
    && match t
       case PinRequired => !cfg.pinGiven
       case ExecutableMissing => cfg.pinGiven && a.executable.NotFound?
       case StartFailed => StartIsRefused(cfg, a)
       case ServiceStartAttemptFailed => false
  }

  method BringUpOllama(cfg: Configuration, a: OllamaAnswers) returns (b: Bringup, log: seq<Event>)
    ensures Accounted(log, b.started, b.indeterminate)
    ensures Justified(log)
    ensures ChildStarted in log ==> cfg.pinGiven && a.executable.Trusted?
    ensures b.stop.Some? ==> ChildStarted !in log && b.stop.value in [CompanyStoreChanged, DiskManifestChanged]
    ensures b.stop.Some? ==> b.indeterminate == []
    ensures b.stop.Some? <==> ConfirmedGone(a) && !(a.storeSame && a.manifestSame)
    ensures b.stop.Some? ==> b.stop.value == if !a.storeSame then CompanyStoreChanged else DiskManifestChanged
    ensures |b.indeterminate| <= 2
    ensures b.started ==> b.state.Reachable?
    ensures b.state.Invalid? && b.stop.None? ==> b.indeterminate != []
    ensures a.first.Reachable? ==> b == Bringup(None, a.first, [], false, {}) && log == [Probed(a.first)]
    ensures b.stop.None? && b.indeterminate == [] <==> ComesUpClearly(cfg, a)
    ensures b.stop.None? ==> (b.state == Reachable(true) <==> ComesUpReady(cfg, a))
    ensures forall r :: r in b.indeterminate <==> BringUpNames(cfg, a, r)
    ensures forall t :: t in b.attempts <==> BringUpTries(cfg, a, t)
    ensures b.started <==> ConfirmedGone(a) && StartsChild(cfg, a)
  {
    log := [Probed(a.first)];
    if a.first.Invalid? {
      return Bringup(None, Invalid, [OllamaResponseInvalid], false, {}), log;
    }
    if a.first.Reachable? {
      return Bringup(None, a.first, [], false, {}), log;
    }
    log := log + [Probed(a.second)];
    if a.second.Reachable? {
      return Bringup(None, a.second, [], false, {}), log;
    }
    if a.second.Invalid? {
      return Bringup(None, Invalid, [OllamaResponseInvalid], false, {}), log;
    }
    log := log + [PortLooked(a.port)];
    if !a.port.PortRefused? {
      return Bringup(None, Invalid, [OllamaPresenceIndeterminate], false, {}), log;
    }
    var startLog;
    b, startLog := StartOllama(cfg, a);
    log := log + startLog;
    if ChildStarted in startLog {
      DropAcross(log[..3], startLog, 2);
      DropAcross(log[..3], startLog, 3);
      assert log[..3] + startLog == log;
    }
    forall t ensures t in b.attempts <==> BringUpTries(cfg, a, t) {
      match t
      case PinRequired =>
      case ExecutableMissing =>
      case StartFailed =>
      case ServiceStartAttemptFailed =>
    }
  }

  // ----- bringing the service up -----

  datatype ServiceAnswers = ServiceAnswers(
    read: ServiceReply, storeSame: bool, manifestSame: bool, start: ServiceReply, reread: ServiceReply)

  datatype ServiceAttempt = ServiceAttempt(reason: Option<Reason>, tried: bool, live: bool)

  /** Starts the service only over a service confirmed gone, with the runtime ready and the store and
      the manifest seen unchanged just before. */
  method BringUpService(backendReady: bool, a: ServiceAnswers) returns (r: ServiceAttempt)
    ensures r.tried <==> SafelyGone(a.read) && backendReady && a.storeSame && a.manifestSame
    ensures r.reason == if !(SafelyGone(a.read) && backendReady) then None
                        else if !a.storeSame then Some(CompanyStoreChanged)
                        else if !a.manifestSame then Some(DiskManifestChanged) else None
    ensures r.live <==> r.tried && a.start == RUNNING
  {
    var view := ViewOf(a.read);
    if !(SafeStart(view) && backendReady) {
      return ServiceAttempt(None, false, false);
    }
    if !a.storeSame {
      return ServiceAttempt(Some(CompanyStoreChanged), false, false);
    }
    if !a.manifestSame {
      return ServiceAttempt(Some(DiskManifestChanged), false, false);
    }
    if !a.start.ServiceRaises? {
      return ServiceAttempt(None, true, ViewOf(a.start).live);
    }
    return ServiceAttempt(None, true, false);
  }

  /** No change is found when the service is to be started. */
  predicate StartIsClear(backendReady: bool, a: ServiceAnswers) {
    SafelyGone(a.read) && backendReady ==> a.storeSame && a.manifestSame
  }

  /** Whether the start attempt is remembered as failed. */
  function StartAttemptFailed(r: ServiceAttempt, a: ServiceAnswers): (failed: bool)
    ensures failed <==> r.tried && (if a.start.ServiceRaises? then a.reread != RUNNING else !r.live)
  {
    r.tried && (if a.start.ServiceRaises? then !ViewOf(a.reread).live else !r.live)
  }

  // ----- the full readiness report -----

  datatype ReadinessReply =
    | ReadinessRaises | ReadinessMalformed
    | ReadinessAnswer(code: int, status: Status, ready: bool, blocked: bool, action: Action)

  function FullReadiness(r: ReadinessReply): (v: (ReadinessComponent, Action))
    ensures v.0.ReadinessReady? || v.0.ReadinessActionRequired? || v.0.ReadinessIndeterminate?
    ensures v.0.ReadinessReady? <==> r == ReadinessAnswer(0, ReadyStatus, true, false, NoAction)
    ensures v.0.ReadinessActionRequired? <==>
              r.ReadinessAnswer? && r.code == 1 && r.status.ActionRequiredStatus? && !r.ready && r.blocked
    ensures v.0.ReadinessActionRequired? && MapReadiness(r.action).Some? ==> Some(v.1) == MapReadiness(r.action)
    ensures !v.0.ReadinessReady? ==> !v.1.NoAction?
    ensures v.0.ReadinessReady? ==> v.1.NoAction?
    ensures v.0.ReadinessIndeterminate? || (v.0.ReadinessActionRequired? && MapReadiness(r.action).None?) ==>
              v.1.InspectLocalRuntime?
  {
    if !r.ReadinessAnswer? then (ReadinessIndeterminate, InspectLocalRuntime)
    else if r.code == 0 && r.status.ReadyStatus? && r.ready && !r.blocked && r.action.NoAction? then
      (ReadinessReady, NoAction)
    else if r.code == 1 && r.status.ActionRequiredStatus? && !r.ready && r.blocked then
      (ReadinessActionRequired,
       if MapReadiness(r.action).Some? then MapReadiness(r.action).value else InspectLocalRuntime)
    else (ReadinessIndeterminate, InspectLocalRuntime)
  }

  // ----- the verdict -----

  /** The two closing looks at everything, around the readiness report. */
  datatype FinalAnswers = FinalAnswers(
    preProbe: Probe, preService: ServiceReply, preStore: bool, preManifest: bool, readiness: ReadinessReply,
    probe: Probe, service: ServiceReply, storeSame: bool, manifestSame: bool)

  /** Runtime, model, service, store and manifest all as they should be in one look. */
  predicate Snapshot(probe: Probe, service: ServiceReply, storeSame: bool, manifestSame: bool) {
    probe == Reachable(true) && service == RUNNING && storeSame && manifestSame
  }

  function ServiceReason(view: ServiceView, backendReady: bool, manifestValid: bool, startFailed: bool)
    : (r: (Reason, bool))
    ensures r.0.LegacyServiceRequiresMigration? <==> view.state.LegacyUnverified?
    ensures r.0.ServiceConfigurationMismatch? <==> view.state.ConfigurationMismatch?
    ensures r.1 <==> r.0.ServiceIdentityOrEndpointIndeterminate?
    ensures r.0.ServiceIdentityOrEndpointIndeterminate? <==>
              LeavesOpen(view) && !view.state.LegacyUnverified? && !view.state.ConfigurationMismatch?
    ensures r.0.ServiceWaitingForReadyRuntime? <==> SafeStart(view) && !LeavesOpen(view) && !backendReady
    ensures r.0.ServiceWaitingForValidBuild? <==> SafeStart(view) && !LeavesOpen(view) && backendReady && !manifestValid
    ensures r.0.ServiceStartFailed? || r.0.ServiceNotLive? <==>
              && !view.state.LegacyUnverified? && !view.state.ConfigurationMismatch? && !LeavesOpen(view)
              && !(SafeStart(view) && !(backendReady && manifestValid))
    ensures r.0.ServiceStartFailed? ==> startFailed
    ensures r.0.ServiceNotLive? ==> !startFailed
  {
    if view.state.LegacyUnverified? then (LegacyServiceRequiresMigration, false)
    else if view.state.ConfigurationMismatch? then (ServiceConfigurationMismatch, false)
    else if LeavesOpen(view) then (ServiceIdentityOrEndpointIndeterminate, true)
    else if SafeStart(view) && !backendReady then (ServiceWaitingForReadyRuntime, false)
    else if SafeStart(view) && !manifestValid then (ServiceWaitingForValidBuild, false)
    else if startFailed then (ServiceStartFailed, false)
    else (ServiceNotLive, false)
  }

  /** What an unclear reason asks to look at, and how urgent that is. */
  function Concern(r: Reason): Action {
    match r
    case CompanyStoreChanged => InspectCompanyStore
    case DiskManifestInvalid => InspectBuildManifest
    case DiskManifestChanged => InspectBuildManifest
    case ServiceIdentityOrEndpointIndeterminate => InspectLocalService
    case OllamaResponseInvalid => InspectOllamaService
    case OllamaExecutableInvalid => InspectOllamaService
    case OllamaExecutableHashMismatch => InspectOllamaService
    case OllamaCleanupFailed => InspectOllamaService
    case OllamaPresenceIndeterminate => InspectOllamaService
    case OllamaStartUnconfirmed => InspectOllamaService
    case OllamaStartFailed => InspectOllamaService
    case _ => InspectLocalRuntime
  }

  function Urgency(a: Action): nat {
    match a
    case InspectCompanyStore => 4
    case InspectBuildManifest => 3
    case InspectLocalService => 2
    case InspectOllamaService => 1
    case _ => 0
  }

  /** The action is the concern of one of the reasons, and none has a more urgent one. */
  predicate Addresses(a: Action, reasons: seq<Reason>) {
    && (exists r :: r in reasons && a == Concern(r))
    && (forall r :: r in reasons ==> Urgency(Concern(r)) <= Urgency(a))
  }

  function IndeterminateAction(reasons: seq<Reason>): (a: Action)
    ensures !a.NoAction?
    ensures reasons != [] ==> Addresses(a, reasons)
  {
    assert reasons != [] ==> reasons[0] in reasons;
    if CompanyStoreChanged in reasons then InspectCompanyStore
    else if DiskManifestInvalid in reasons || DiskManifestChanged in reasons then InspectBuildManifest
    else if ServiceIdentityOrEndpointIndeterminate in reasons then InspectLocalService
    else if OllamaResponseInvalid in reasons || OllamaExecutableInvalid in reasons
            || OllamaExecutableHashMismatch in reasons || OllamaCleanupFailed in reasons
            || OllamaPresenceIndeterminate in reasons || OllamaStartUnconfirmed in reasons
            || OllamaStartFailed in reasons
    then InspectOllamaService
    else InspectLocalRuntime
  }

  /** Which blocker comes first. */
  function Rank(r: Reason): nat {
    match r
    case LegacyServiceRequiresMigration => 7
    case ServiceConfigurationMismatch => 6
    case FullReadinessActionRequired => 5
    case OllamaExecutablePinRequired => 4
    case OllamaExecutableMissing => 3
    case OllamaStartFailed => 3
    case OllamaUnavailable => 3
    case ModelNotInstalled => 2
    case ServiceStartFailed => 1
    case ServiceNotLive => 1
    case _ => 0
  }

  /** The remedy for the blockers of a rank. */
  function RemedyAt(rank: nat, readinessAction: Action): Action {
    match rank
    case 7 => MigrateLegacyService
    case 6 => RelaunchServiceManually
    case 5 => readinessAction
    case 4 => ConfigureOllamaExecutablePin
    case 3 => StartOllamaManually
    case 2 => InstallConfiguredModel
    case 1 => StartLocalServiceManually
    case _ => InspectLocalRuntime
  }

  /** The action is the remedy of one of the blockers, and none comes before it. */
  predicate Removes(a: Action, blockers: seq<Reason>, readinessAction: Action) {
    exists r :: r in blockers && a == RemedyAt(Rank(r), readinessAction)
                && forall q :: q in blockers ==> Rank(q) <= Rank(r)
  }

  function Together(reasons: seq<Reason>): (all: set<Reason>)
    ensures forall r :: r in all <==> r in reasons
  {
    set r | r in reasons
  }

  function BlockedAction(blockers: seq<Reason>, readinessAction: Action): (a: Action)
    ensures (FullReadinessActionRequired in blockers ==> !readinessAction.NoAction?) ==> !a.NoAction?
  {
    ActionOver(Together(blockers), readinessAction)
  }

  function ActionOver(blockers: set<Reason>, readinessAction: Action): (a: Action)
    ensures (FullReadinessActionRequired in blockers ==> !readinessAction.NoAction?) ==> !a.NoAction?
  {
    if LegacyServiceRequiresMigration in blockers then MigrateLegacyService
    else if ServiceConfigurationMismatch in blockers then RelaunchServiceManually
    else if FullReadinessActionRequired in blockers then readinessAction
    else if OllamaExecutablePinRequired in blockers then ConfigureOllamaExecutablePin
    else if OllamaExecutableMissing in blockers || OllamaStartFailed in blockers || OllamaUnavailable in blockers
    then StartOllamaManually
    else if ModelNotInstalled in blockers then InstallConfiguredModel
    else if ServiceStartFailed in blockers || ServiceNotLive in blockers then StartLocalServiceManually
    else InspectLocalRuntime
  }

  /** One of the blockers of the highest rank. */
  lemma FirstBlocker(blockers: seq<Reason>) returns (r: Reason)
    requires blockers != []
    ensures r in blockers && forall q :: q in blockers ==> Rank(q) <= Rank(r)
  {
    r := blockers[0];
    if |blockers| > 1 {
      var q := FirstBlocker(blockers[1..]);
      assert blockers == [blockers[0]] + blockers[1..];
      if Rank(q) > Rank(r) {
        r := q;
      }
    }
  }

  /** Which of the ranked blockers are there, up to the highest rank. */
  predicate UpTo(blockers: set<Reason>, rank: nat) {
    && (LegacyServiceRequiresMigration in blockers <==> rank == 7)
    && (rank <= 6 ==> (ServiceConfigurationMismatch in blockers <==> rank == 6))
    && (rank <= 5 ==> (FullReadinessActionRequired in blockers <==> rank == 5))
    && (rank <= 4 ==> (OllamaExecutablePinRequired in blockers <==> rank == 4))
    && (rank <= 3 ==> (rank == 3 <==> OllamaExecutableMissing in blockers || OllamaStartFailed in blockers
                                      || OllamaUnavailable in blockers))
    && (rank <= 2 ==> (ModelNotInstalled in blockers <==> rank == 2))
    && (rank <= 1 ==> (rank == 1 <==> ServiceStartFailed in blockers || ServiceNotLive in blockers))
  }

  lemma ActionUpTo(blockers: set<Reason>, readinessAction: Action, rank: nat)
    requires rank <= 7 && UpTo(blockers, rank)
    ensures ActionOver(blockers, readinessAction) == RemedyAt(rank, readinessAction)
  {
  }

  lemma FirstIsUpTo(blockers: set<Reason>, r: Reason)
    requires r in blockers && forall q :: q in blockers ==> Rank(q) <= Rank(r)
    ensures UpTo(blockers, Rank(r))
  {
  }

  lemma RemedyOfFirst(blockers: set<Reason>, readinessAction: Action, r: Reason)
    requires r in blockers && forall q :: q in blockers ==> Rank(q) <= Rank(r)
    ensures ActionOver(blockers, readinessAction) == RemedyAt(Rank(r), readinessAction)
  {
    FirstIsUpTo(blockers, r);
    ActionUpTo(blockers, readinessAction, Rank(r));
  }

  lemma BlockedActionRemoves(blockers: seq<Reason>, readinessAction: Action)
    requires blockers != []
    ensures Removes(BlockedAction(blockers, readinessAction), blockers, readinessAction)
  {
    var r := FirstBlocker(blockers);
    RemedyOfFirst(Together(blockers), readinessAction, r);
  }

  /** What a verdict promises: code 0, ready and no blocker are the same thing; code 2 is the same as
      a recorded indeterminate reason; code 1 names a blocker and an action. */
  predicate VerdictFits(p: Payload, code: int, indeterminate: seq<Reason>) {
    && (code == 0 <==> p.ready) && (p.ready <==> p.blockers == []) && (p.ready <==> p.action.NoAction?)
    && (code == 2 <==> indeterminate != [])
    && (code == 0 || code == 1 || code == 2)
    && (p.status.ReadyStatus? || p.status.RecoveredStatus? <==> code == 0)
    && (p.status.RecoveredStatus? ==> p.changes != [])
    && (p.status.ReadyStatus? ==> p.changes == [])
    && (p.status.ActionRequiredStatus? <==> code == 1)
    && (forall r :: r in indeterminate ==> r in p.blockers)
  }

  function Early(store: StoreComponent, manifest: ManifestComponent, why: Reason, action: Action): Payload {
    Payload(IndeterminateStatus, false, EMPTY.(store := store, manifest := manifest), [why], action, [])
  }

  /** Reasons gathered at one point: those that leave the state unclear and those that block. */
  datatype Reasons = Reasons(unclear: seq<Reason>, blocking: seq<Reason>) {
    predicate Empty() { unclear == [] && blocking == [] }

    predicate Has(r: Reason) { r in unclear || r in blocking }

    function Plus(other: Reasons): (r: Reasons)
      ensures r.Empty() <==> Empty() && other.Empty()
      ensures |r.unclear| == |unclear| + |other.unclear| && |r.blocking| == |blocking| + |other.blocking|
      ensures forall q :: q in r.blocking <==> q in blocking || q in other.blocking
      ensures forall q :: q in r.unclear <==> q in unclear || q in other.unclear
      ensures forall q :: r.Has(q) <==> Has(q) || other.Has(q)
    {
      Reasons(unclear + other.unclear, blocking + other.blocking)
    }
  }

  // ----- which reasons the closing looks leave, from their own answers -----

  predicate RuntimeFault(probe: Probe, attempts: set<Attempt>, r: Reason) {
    match r
    case OllamaResponseInvalid => probe.Invalid?
    case OllamaUnavailable => IsDown(probe)
    case OllamaExecutablePinRequired => IsDown(probe) && PinRequired in attempts
    case OllamaExecutableMissing => IsDown(probe) && ExecutableMissing in attempts
    case OllamaStartFailed => IsDown(probe) && StartFailed in attempts
    case ModelNotInstalled => probe == Reachable(false)
    case _ => false
  }

  predicate LookFault(storeSame: bool, manifestSame: bool, r: Reason) {
    (r.CompanyStoreChanged? && !storeSame) || (r.DiskManifestChanged? && !manifestSame)
  }

  predicate ServiceFault(reply: ServiceReply, backendReady: bool, manifestValid: bool, startFailed: bool, r: Reason) {
    var waits := SafelyGone(reply) && !(backendReady && manifestValid);
    match r
    case LegacyServiceRequiresMigration => IsDownAs(reply, LegacyUnverified)
    case ServiceConfigurationMismatch => reply == MISCONFIGURED
    case ServiceIdentityOrEndpointIndeterminate => IsUnclear(reply)
    case ServiceWaitingForReadyRuntime => waits && !backendReady
    case ServiceWaitingForValidBuild => waits && backendReady
    case ServiceStartFailed => (SafelyGone(reply) || LingersOn(reply)) && !waits && startFailed
    case ServiceNotLive => (SafelyGone(reply) || LingersOn(reply)) && !waits && !startFailed
    case _ => false
  }

  predicate ReportFault(readiness: ReadinessComponent, postSnapshot: bool, r: Reason) {
    match r
    case FullReadinessActionRequired => readiness.ReadinessActionRequired?
    case FullReadinessIndeterminate => readiness.ReadinessIndeterminate?
    case FullReadinessNotConfirmed => (readiness.ReadinessUnknown? || readiness.ReadinessNotRun?) && postSnapshot
    case _ => false
  }

  function DownBlockers(attempts: set<Attempt>): (r: seq<Reason>)
    ensures |r| <= 4 && forall q :: q in r <==> RuntimeFault(Refused, attempts, q)
  {
    [OllamaUnavailable]
    + (if PinRequired in attempts then [OllamaExecutablePinRequired] else [])
    + (if ExecutableMissing in attempts then [OllamaExecutableMissing] else [])
    + (if StartFailed in attempts then [OllamaStartFailed] else [])
  }

  /** The last look at the runtime and its model. */
  method ClosingRuntime(probe: Probe, attempts: set<Attempt>)
    returns (ollama: OllamaComponent, model: ModelComponent, r: Reasons)
    ensures r.Empty() <==> probe == Reachable(true)
    ensures ollama.OllamaReachable? && model.ModelInstalled? <==> probe == Reachable(true)
    ensures (ollama.OllamaReachable? <==> probe.Reachable?) && !ollama.OllamaUnknown?
    ensures r.unclear == if probe.Invalid? then [OllamaResponseInvalid] else []
    ensures OllamaUnavailable in r.blocking <==> IsDown(probe)
    ensures ModelNotInstalled in r.blocking <==> probe == Reachable(false)
    ensures |r.blocking| <= 4 && FullReadinessActionRequired !in r.blocking
    ensures LegacyServiceRequiresMigration !in r.blocking && ServiceConfigurationMismatch !in r.blocking
    ensures forall q :: r.Has(q) <==> RuntimeFault(probe, attempts, q)
    ensures ollama == if probe.Reachable? then OllamaReachable else if probe.Invalid? then OllamaInvalid else OllamaDown
    ensures RuntimeShown(probe, ollama, model)
  {
    match probe {
      case Reachable(installed) =>
        ollama, model := OllamaReachable, if installed then ModelInstalled else ModelMissing;
        r := Reasons([], if installed then [] else [ModelNotInstalled]);
      case Invalid =>
        ollama, model, r := OllamaInvalid, ModelUnknown, Reasons([OllamaResponseInvalid], []);
      case _ =>
        ollama, model, r := OllamaDown, ModelUnknown, Reasons([], DownBlockers(attempts));
    }
  }

  function ClosingLooks(storeSame: bool, manifestSame: bool): (r: Reasons)
    ensures r.Empty() <==> storeSame && manifestSame
    ensures |r.unclear| <= 2 && r.blocking == []
    ensures forall q :: r.Has(q) <==> LookFault(storeSame, manifestSame, q)
  {
    var store := if storeSame then [] else [CompanyStoreChanged];
    Reasons(store + (if manifestSame then [] else [DiskManifestChanged]), [])
  }

  function ClosingService(view: ServiceView, backendReady: bool, manifestValid: bool, startFailed: bool): (r: Reasons)
    ensures r.Empty() <==> view.live
    ensures |r.unclear| + |r.blocking| <= 1 && FullReadinessActionRequired !in r.blocking
    ensures forall q :: r.Has(q) <==> !view.live && q == ServiceReason(view, backendReady, manifestValid, startFailed).0
  {
    if view.live then Reasons([], [])
    else
      var (why, unclear) := ServiceReason(view, backendReady, manifestValid, startFailed);
      assert forall q :: Reasons([why], []).Has(q) <==> q == why;
      if unclear then Reasons([why], []) else Reasons([], [why])
  }

  function ClosingReadiness(readiness: ReadinessComponent, postSnapshot: bool): (r: Reasons)
    ensures readiness.ReadinessReady? ==> r.Empty()
    ensures postSnapshot && !readiness.ReadinessReady? ==> !r.Empty()
    ensures |r.unclear| + |r.blocking| <= 1
    ensures FullReadinessActionRequired in r.blocking <==> readiness.ReadinessActionRequired?
    ensures forall q :: r.Has(q) <==> ReportFault(readiness, postSnapshot, q)
  {
    match readiness
    case ReadinessActionRequired => Reasons([], [FullReadinessActionRequired])
    case ReadinessIndeterminate => Reasons([FullReadinessIndeterminate], [])
    case ReadinessReady => Reasons([], [])
    case _ => if postSnapshot then Reasons([FullReadinessNotConfirmed], []) else Reasons([], [])
  }

  const ALL_PRESENT := Components(
    StoreValid, ManifestValid, ServiceLive, Match, OllamaReachable, ModelInstalled, ReadinessReady)

  /** What a result tells is what the last looks saw. */
  predicate ClosingTold(a: FinalAnswers, p: Payload) {
    && (IsDown(a.probe) ==> OllamaUnavailable in p.blockers)
    && (a.probe == Reachable(false) ==> ModelNotInstalled in p.blockers)
    && (a.probe.Invalid? ==> OllamaResponseInvalid in p.blockers)
    && (!a.storeSame ==> CompanyStoreChanged in p.blockers && p.components.store.StoreChanged?)
    && (!a.manifestSame ==> DiskManifestChanged in p.blockers && p.components.manifest.ManifestInvalid?)
    && (p.components.service.ServiceLive? <==> ViewOf(a.service).live)
    && (p.components.ollama.OllamaReachable? <==> a.probe.Reachable?)
    && (ViewOf(a.service).state.LegacyUnverified? ==> LegacyServiceRequiresMigration in p.blockers)
    && (ViewOf(a.service).state.ConfigurationMismatch? ==> ServiceConfigurationMismatch in p.blockers)
  }

  /** The components shown for the runtime and its model. */
  predicate RuntimeShown(probe: Probe, ollama: OllamaComponent, model: ModelComponent) {
    match probe
    case Reachable(installed) =>
      ollama.OllamaReachable? && (if installed then model.ModelInstalled? else model.ModelMissing?)
    case Invalid => ollama.OllamaInvalid? && model.ModelUnknown?
    case _ => ollama.OllamaDown? && model.ModelUnknown?
  }

  /** The readiness report of a run: it is made only after a first complete look with nothing unclear. */
  function ReportOf(a: FinalAnswers, clear: bool): (ReadinessComponent, Action) {
    if clear && Snapshot(a.preProbe, a.preService, a.preStore, a.preManifest) then FullReadiness(a.readiness)
    else (ReadinessNotRun, InspectLocalRuntime)
  }

  /** The reasons the closing looks leave, from their own answers and what was known of store and manifest. */
  predicate ClosingFault(a: FinalAnswers, clear: bool, storeWas: bool, manifestWas: bool, attempts: set<Attempt>,
                         r: Reason) {
    var store, manifest := storeWas && a.storeSame, manifestWas && a.manifestSame;
    || RuntimeFault(a.probe, attempts, r)
    || LookFault(a.storeSame, a.manifestSame, r)
    || ServiceFault(a.service, a.probe == Reachable(true), manifest, ServiceStartAttemptFailed in attempts, r)
    || ReportFault(ReportOf(a, clear).0, Snapshot(a.probe, a.service, store, manifest), r)
  }

  /** Some of them leave the state unclear. */
  predicate ClosesUnclear(a: FinalAnswers, clear: bool, storeWas: bool, manifestWas: bool) {
    || a.probe.Invalid? || !a.storeSame || !a.manifestSame || IsUnclear(a.service)
    || ReportOf(a, clear).0.ReadinessIndeterminate?
    || (ReportOf(a, clear).0.ReadinessNotRun? && Snapshot(a.probe, a.service, storeWas, manifestWas))
  }

  lemma ViewUnclear(reply: ServiceReply, backendReady: bool, manifestValid: bool, startFailed: bool)
    ensures !ViewOf(reply).live && ServiceReason(ViewOf(reply), backendReady, manifestValid, startFailed).1
            <==> IsUnclear(reply)
  {
  }

  lemma ViewFault(reply: ServiceReply, backendReady: bool, manifestValid: bool, startFailed: bool, q: Reason)
    ensures ServiceFault(reply, backendReady, manifestValid, startFailed, q) <==>
            !ViewOf(reply).live && q == ServiceReason(ViewOf(reply), backendReady, manifestValid, startFailed).0
  {
    var v := ViewOf(reply);
    assert SafelyGone(reply) || LingersOn(reply) ==> !LeavesOpen(v);
  }

  /** The last look at the runtime, the store and the manifest. */
  method CloseRuntime(a: FinalAnswers, earlier: seq<Reason>, attempts: set<Attempt>)
    returns (ollama: OllamaComponent, model: ModelComponent, r: Reasons)
    ensures r.Empty() <==> earlier == [] && a.probe == Reachable(true) && a.storeSame && a.manifestSame
    ensures ollama.OllamaReachable? && model.ModelInstalled? <==> a.probe == Reachable(true)
    ensures earlier <= r.unclear && |r.unclear| <= |earlier| + 3 && |r.blocking| <= 4
    ensures FullReadinessActionRequired !in r.blocking
    ensures LegacyServiceRequiresMigration !in r.blocking && ServiceConfigurationMismatch !in r.blocking
    ensures forall q :: r.Has(q) <==>
              q in earlier || RuntimeFault(a.probe, attempts, q) || LookFault(a.storeSame, a.manifestSame, q)
    ensures r.unclear != [] <==> earlier != [] || a.probe.Invalid? || !a.storeSame || !a.manifestSame
    ensures RuntimeShown(a.probe, ollama, model)
  {
    var reasons;
    ollama, model, reasons := ClosingRuntime(a.probe, attempts);
    r := Reasons(earlier, []).Plus(reasons).Plus(ClosingLooks(a.storeSame, a.manifestSame));
  }

  /** The last look at the service, and what the readiness report adds. */
  method CloseService(view: ServiceView, backendReady: bool, manifestValid: bool, startFailed: bool,
                      readiness: ReadinessComponent, postSnapshot: bool)
    returns (r: Reasons)
    requires (postSnapshot ==> view.live) && (view.live ==> view.state.ServiceRunning?)
    ensures readiness.ReadinessReady? ==> (r.Empty() <==> view.live)
    ensures !readiness.ReadinessReady? && (postSnapshot || !view.live) ==> !r.Empty()
    ensures |r.unclear| <= 2 && |r.blocking| <= 2
    ensures FullReadinessActionRequired in r.blocking <==> readiness.ReadinessActionRequired?
    ensures OllamaUnavailable !in r.blocking && ModelNotInstalled !in r.blocking
    ensures forall q :: r.Has(q) <==>
              || (!view.live && q == ServiceReason(view, backendReady, manifestValid, startFailed).0)
              || ReportFault(readiness, postSnapshot, q)
    ensures r.unclear != [] <==>
              || (!view.live && ServiceReason(view, backendReady, manifestValid, startFailed).1)
              || readiness.ReadinessIndeterminate?
              || (postSnapshot && (readiness.ReadinessUnknown? || readiness.ReadinessNotRun?))
  {
    r := ClosingService(view, backendReady, manifestValid, startFailed).Plus(ClosingReadiness(readiness, postSnapshot));
  }

  lemma ClosingAdds(a: FinalAnswers, earlier: seq<Reason>, storeWas: bool, manifestWas: bool, attempts: set<Attempt>,
                    x: Reasons, y: Reasons)
    requires forall q :: x.Has(q) <==>
               q in earlier || RuntimeFault(a.probe, attempts, q) || LookFault(a.storeSame, a.manifestSame, q)
    requires var backendReady, manifest := a.probe == Reachable(true), manifestWas && a.manifestSame;
             var post := Snapshot(a.probe, a.service, storeWas && a.storeSame, manifest);
             var failed := ServiceStartAttemptFailed in attempts;
             var view := ViewOf(a.service);
             forall q :: y.Has(q) <==>
               || (!view.live && q == ServiceReason(view, backendReady, manifest, failed).0)
               || ReportFault(ReportOf(a, earlier == []).0, post, q)
    ensures forall q :: x.Plus(y).Has(q) <==>
              q in earlier || ClosingFault(a, earlier == [], storeWas, manifestWas, attempts, q)
  {
    forall q
      ensures x.Plus(y).Has(q) <==> q in earlier || ClosingFault(a, earlier == [], storeWas, manifestWas, attempts, q)
    {
      ViewFault(a.service, a.probe == Reachable(true), manifestWas && a.manifestSame,
                ServiceStartAttemptFailed in attempts, q);
    }
  }

  /** The closing looks: which reasons stand in the way after everything that could be started was. */
  method CloseReasons(a: FinalAnswers, earlier: seq<Reason>, storeWas: StoreComponent, manifestWas: ManifestComponent,
                      attempts: set<Attempt>)
    returns (components: Components, postSnapshot: bool, reasons: Reasons, readinessAction: Action)
    requires |earlier| <= 3
    requires storeWas.StoreValid? || (storeWas.StoreChanged? && earlier != [])
    requires manifestWas.ManifestValid? || (manifestWas.ManifestInvalid? && earlier != [])
    ensures FullReadinessActionRequired in reasons.blocking ==> !readinessAction.NoAction?
    ensures earlier <= reasons.unclear
    ensures |reasons.unclear| <= 8 && |reasons.blocking| <= 6
    ensures reasons.Empty() <==> Settles(a, earlier)
    ensures reasons.Empty() ==> components == ALL_PRESENT && postSnapshot
    ensures components.store == (if a.storeSame then storeWas else StoreChanged)
    ensures components.manifest == if a.manifestSame then manifestWas else ManifestInvalid
    ensures ComponentsShown(a, ReportOf(a, earlier == []).0, components)
    ensures readinessAction == ReportOf(a, earlier == []).1
    ensures forall q :: reasons.Has(q) <==>
              || q in earlier
              || ClosingFault(a, earlier == [], storeWas.StoreValid?, manifestWas.ManifestValid?, attempts, q)
    ensures reasons.unclear != [] <==>
              earlier != [] || ClosesUnclear(a, earlier == [], storeWas.StoreValid?, manifestWas.ManifestValid?)
  {
    var report := ReportOf(a, earlier == []);
    var readiness := report.0;
    readinessAction := report.1;
    var ollama, model, runtimeReasons := CloseRuntime(a, earlier, attempts);
    var view := ViewOf(a.service);
    var store := if a.storeSame then storeWas else StoreChanged;
    var manifest := if a.manifestSame then manifestWas else ManifestInvalid;
    var backendReady := ollama.OllamaReachable? && model.ModelInstalled?;
    postSnapshot := view.live && manifest.ManifestValid? && backendReady && store.StoreValid?;
    var serviceReasons := CloseService(
      view, backendReady, manifest.ManifestValid?, ServiceStartAttemptFailed in attempts, readiness, postSnapshot);
    reasons := runtimeReasons.Plus(serviceReasons);
    components := Components(store, manifest, if view.live then ServiceLive else ServiceIs(view.state), view.relation,
                             ollama, model, readiness);
    ViewUnclear(a.service, backendReady, manifest.ManifestValid?, ServiceStartAttemptFailed in attempts);
    ClosingAdds(a, earlier, storeWas.StoreValid?, manifestWas.ManifestValid?, attempts, runtimeReasons, serviceReasons);
  }

  /** What is shown of everything but store and manifest. */
  predicate ComponentsShown(a: FinalAnswers, report: ReadinessComponent, c: Components) {
    && RuntimeShown(a.probe, c.ollama, c.model)
    && c.service == (if a.service == RUNNING then ServiceLive else ServiceIs(ViewOf(a.service).state))
    && c.identity == ViewOf(a.service).relation && c.readiness == report
  }

  /** Nothing stands in the way: no earlier reason, and two complete looks with a ready report between. */
  predicate Settles(a: FinalAnswers, earlier: seq<Reason>) {
    && earlier == []
    && Snapshot(a.preProbe, a.preService, a.preStore, a.preManifest)
    && FullReadiness(a.readiness).0.ReadinessReady?
    && Snapshot(a.probe, a.service, a.storeSame, a.manifestSame)
  }

  // ----- the whole guard -----

  datatype GuardAnswers = GuardAnswers(
    storeSame: bool, manifestValid: bool, ollama: OllamaAnswers, service: ServiceAnswers, final: FinalAnswers)

  lemma FaultsAreTold(a: FinalAnswers, earlier: seq<Reason>, storeWas: bool, manifestWas: bool, attempts: set<Attempt>,
                      p: Payload)
    requires forall q :: q in p.blockers <==>
               q in earlier || ClosingFault(a, earlier == [], storeWas, manifestWas, attempts, q)
    requires ComponentsShown(a, ReportOf(a, earlier == []).0, p.components)
    requires !a.storeSame ==> p.components.store.StoreChanged?
    requires !a.manifestSame ==> p.components.manifest.ManifestInvalid?
    ensures ClosingTold(a, p)
  {
  }

  /** From everything that was started to the verdict. */
  method CloseGuard(a: FinalAnswers, earlier: seq<Reason>, storeWas: StoreComponent, manifestWas: ManifestComponent,
                    attempts: set<Attempt>, changes: seq<Change>)
    returns (p: Payload, code: int, unclear: seq<Reason>)
    requires |earlier| <= 3 && |changes| <= 2
    requires storeWas.StoreValid? || (storeWas.StoreChanged? && earlier != [])
    requires manifestWas.ManifestValid? || (manifestWas.ManifestInvalid? && earlier != [])
    requires forall i, j :: 0 <= i < j < |changes| ==> changes[i] != changes[j]
    ensures VerdictFits(p, code, unclear) && Renders(p) && p.changes == changes
    ensures forall r :: r in earlier ==> r in p.blockers
    ensures code == 0 <==> Settles(a, earlier)
    ensures code == 0 ==> p.components == ALL_PRESENT
    ensures p.components.store == if a.storeSame then storeWas else StoreChanged
    ensures ClosingTold(a, p)
    ensures p.components.manifest == if a.manifestSame then manifestWas else ManifestInvalid
    ensures ComponentsShown(a, ReportOf(a, earlier == []).0, p.components)
    ensures forall q :: q in p.blockers <==>
              || q in earlier
              || ClosingFault(a, earlier == [], storeWas.StoreValid?, manifestWas.ManifestValid?, attempts, q)
    ensures code == 2 <==>
              earlier != [] || ClosesUnclear(a, earlier == [], storeWas.StoreValid?, manifestWas.ManifestValid?)
    ensures code == 1 ==> Removes(p.action, p.blockers, ReportOf(a, earlier == []).1)
    ensures code == 2 ==> Addresses(p.action, unclear)
  {
    var components, postSnapshot, reasons, readinessAction := CloseReasons(a, earlier, storeWas, manifestWas, attempts);
    unclear := reasons.unclear;
    p, code := Conclude(components, postSnapshot, reasons, readinessAction, changes);
    FaultsAreTold(a, earlier, storeWas.StoreValid?, manifestWas.ManifestValid?, attempts, p);
  }

  // ----- what the whole run leaves, from its answers -----

  /** Store or manifest are found changed when the service is to be started; the store is looked at first. */
  predicate StopsService(ready: bool, a: ServiceAnswers, r: Reason) {
    && SafelyGone(a.read) && ready
    && ((r.CompanyStoreChanged? && !a.storeSame) || (r.DiskManifestChanged? && a.storeSame && !a.manifestSame))
  }

  /** The store is found as it was, when the service is to be started and at the end. */
  predicate StoreHolds(ready: bool, service: ServiceAnswers, final: FinalAnswers) {
    final.storeSame && !StopsService(ready, service, CompanyStoreChanged)
  }

  predicate ManifestHolds(ready: bool, service: ServiceAnswers, final: FinalAnswers) {
    final.manifestSame && !StopsService(ready, service, DiskManifestChanged)
  }

  predicate ServiceStarts(ready: bool, a: ServiceAnswers) {
    SafelyGone(a.read) && ready && a.storeSame && a.manifestSame
  }

  /** The service is started and is not seen to run. */
  predicate ServiceStartFails(ready: bool, a: ServiceAnswers) {
    ServiceStarts(ready, a) && (if a.start.ServiceRaises? then a.reread != RUNNING else a.start != RUNNING)
  }

  /** All attempts that did not come about. */
  function AllAttempts(attempts: set<Attempt>, ready: bool, a: ServiceAnswers): set<Attempt> {
    if ServiceStartFails(ready, a) then attempts + {ServiceStartAttemptFailed} else attempts
  }

  /** What the service and the closing looks put in the way, after the runtime was brought up, `ready` or not,
      with nothing unclear or not, and with `attempts`. */
  predicate EndFault(clear: bool, attempts: set<Attempt>, ready: bool, service: ServiceAnswers, final: FinalAnswers,
                     r: Reason) {
    || StopsService(ready, service, r)
    || ClosingFault(final, clear && StartIsClear(ready, service), !StopsService(ready, service, CompanyStoreChanged),
                    !StopsService(ready, service, DiskManifestChanged), AllAttempts(attempts, ready, service), r)
  }

  /** The service's part of the run: what is known before the closing looks. */
  method StartService(b: Bringup, service: ServiceAnswers)
    returns (earlier: seq<Reason>, attempts: set<Attempt>, changes: seq<Change>,
             storeWas: StoreComponent, manifestWas: ManifestComponent)
    requires |b.indeterminate| <= 2
    ensures var ready := b.state == Reachable(true);
            && (forall r :: r in earlier <==> r in b.indeterminate || StopsService(ready, service, r))
            && (earlier == [] <==> b.indeterminate == [] && StartIsClear(ready, service))
            && attempts == AllAttempts(b.attempts, ready, service)
            && storeWas == (if StopsService(ready, service, CompanyStoreChanged) then StoreChanged else StoreValid)
            && manifestWas ==
               (if StopsService(ready, service, DiskManifestChanged) then ManifestInvalid else ManifestValid)
            && changes == (if b.started then [OllamaStarted] else [])
                          + (if ServiceStarts(ready, service) && service.start == RUNNING then [ServiceStarted] else [])
    ensures |earlier| <= 3
    ensures (storeWas.StoreChanged? || manifestWas.ManifestInvalid?) ==> earlier != []
  {
    var started := BringUpService(b.state == Reachable(true), service);
    earlier := b.indeterminate + if started.reason.Some? then [started.reason.value] else [];
    attempts := b.attempts + if StartAttemptFailed(started, service) then {ServiceStartAttemptFailed} else {};
    changes := if b.started then [OllamaStarted] else [];
    changes := changes + if started.live then [ServiceStarted] else [];
    storeWas := if started.reason == Some(CompanyStoreChanged) then StoreChanged else StoreValid;
    manifestWas := if started.reason == Some(DiskManifestChanged) then ManifestInvalid else ManifestValid;
    assert forall r :: r in earlier <==> r in b.indeterminate || started.reason == Some(r);
  }

  /** From the runtime as it was brought up to the verdict: the service, the closing looks, the reasons. */
  method FinishGuard(b: Bringup, service: ServiceAnswers, final: FinalAnswers)
    returns (p: Payload, code: int, indeterminate: seq<Reason>)
    requires b.stop.None? && |b.indeterminate| <= 2
    ensures VerdictFits(p, code, indeterminate) && Renders(p)
    ensures OllamaStarted in p.changes <==> b.started
    ensures forall r :: r in b.indeterminate ==> r in p.blockers
    ensures code == 0 <==>
              b.indeterminate == [] && StartIsClear(b.state == Reachable(true), service) && Settles(final, [])
    ensures code == 0 ==> p.components == ALL_PRESENT
    ensures code == 0 && !b.started && ViewOf(service.read).live ==> p.changes == []
    ensures b.state != Reachable(true) ==> (p.components.store.StoreValid? <==> final.storeSame)
    ensures ClosingTold(final, p)
    ensures forall q :: q in p.blockers <==>
              || q in b.indeterminate
              || EndFault(b.indeterminate == [], b.attempts, b.state == Reachable(true), service, final, q)
    ensures ServiceStarted in p.changes <==>
              ServiceStarts(b.state == Reachable(true), service) && service.start == RUNNING
    ensures var clear := b.indeterminate == [] && StartIsClear(b.state == Reachable(true), service);
            && ComponentsShown(final, ReportOf(final, clear).0, p.components)
            && (code == 1 ==> Removes(p.action, p.blockers, ReportOf(final, clear).1))
    ensures code == 2 ==> Addresses(p.action, indeterminate)
    ensures p.components.store ==
            if StoreHolds(b.state == Reachable(true), service, final) then StoreValid else StoreChanged
    ensures p.components.manifest ==
            if ManifestHolds(b.state == Reachable(true), service, final) then ManifestValid else ManifestInvalid
  {
    var earlier, attempts, changes, storeWas, manifestWas := StartService(b, service);
    p, code, indeterminate := CloseGuard(final, earlier, storeWas, manifestWas, attempts, changes);
  }

  /** Exactly what a clean verdict rests on: nothing unclear on the way, and two complete closing looks with
      a ready report between them. */
  predicate GuardSettles(cfg: Configuration, a: GuardAnswers) {
    && a.storeSame && a.manifestValid && ComesUpClearly(cfg, a.ollama)
    && StartIsClear(ComesUpReady(cfg, a.ollama), a.service) && Settles(a.final, [])
  }

  /** Both closing looks find everything, and the report between them is clean. */
  predicate LooksComplete(a: FinalAnswers) {
    && a.preProbe == Reachable(true) && a.preStore && a.preManifest
    && a.probe == Reachable(true) && a.storeSame && a.manifestSame
    && a.readiness == ReadinessAnswer(0, ReadyStatus, true, false, NoAction)
  }

  /** The guard starts a child that it cannot terminate again. */
  predicate CleanupFails(cfg: Configuration, a: GuardAnswers) {
    a.storeSame && a.manifestValid && ConfirmedGone(a.ollama) && LeavesChild(cfg, a.ollama)
  }

  /** The run ends before the closing looks: store or manifest are not as they should be at first, or not as
      they were when the runtime is to be started. */
  predicate StopsEarly(a: GuardAnswers) {
    !a.storeSame || !a.manifestValid || (ConfirmedGone(a.ollama) && !(a.ollama.storeSame && a.ollama.manifestSame))
  }

  function EarlyReason(a: GuardAnswers): Reason {
    if !a.storeSame then CompanyStoreChanged
    else if !a.manifestValid then DiskManifestInvalid
    else if !a.ollama.storeSame then CompanyStoreChanged
    else DiskManifestChanged
  }

  /** Whether a reason stands in the way at the end of a run, from all the answers of its environment. */
  predicate GuardFault(cfg: Configuration, a: GuardAnswers, r: Reason) {
    if StopsEarly(a) then r == EarlyReason(a)
    else
      || BringUpNames(cfg, a.ollama, r)
      || EndFault(ComesUpClearly(cfg, a.ollama), TriedBy(cfg, a.ollama), ComesUpReady(cfg, a.ollama), a.service,
                  a.final, r)
  }

  /** The components and changes of a result, from all the answers. */
  predicate GuardShows(cfg: Configuration, a: GuardAnswers, p: Payload) {
    if StopsEarly(a) then
      && p.changes == []
      && p.components == EMPTY.(
           store := if EarlyReason(a).CompanyStoreChanged? then StoreChanged else StoreValid,
           manifest := if !a.storeSame then ManifestUnknown
                       else if EarlyReason(a).CompanyStoreChanged? then ManifestValid else ManifestInvalid)
    else
      var ready := ComesUpReady(cfg, a.ollama);
      var clear := ComesUpClearly(cfg, a.ollama) && StartIsClear(ready, a.service);
      && ComponentsShown(a.final, ReportOf(a.final, clear).0, p.components)
      && p.components.store == (if StoreHolds(ready, a.service, a.final) then StoreValid else StoreChanged)
      && p.components.manifest == (if ManifestHolds(ready, a.service, a.final) then ManifestValid else ManifestInvalid)
      && (ServiceStarted in p.changes <==> ServiceStarts(ready, a.service) && a.service.start == RUNNING)
  }

  function TriedBy(cfg: Configuration, a: OllamaAnswers): (r: set<Attempt>)
    ensures forall t :: t in r <==> BringUpTries(cfg, a, t)
  {
    (if BringUpTries(cfg, a, PinRequired) then {PinRequired} else {})
    + (if BringUpTries(cfg, a, ExecutableMissing) then {ExecutableMissing} else {})
    + (if BringUpTries(cfg, a, StartFailed) then {StartFailed} else {})
  }

  /** A child that leaves nothing ready either. */
  lemma LeftIsNotReady(cfg: Configuration, a: OllamaAnswers)
    requires ConfirmedGone(a) && LeavesChild(cfg, a)
    ensures !ComesUpReady(cfg, a)
  {
  }

  lemma FailedCleanupShows(cfg: Configuration, a: GuardAnswers, p: Payload)
    requires !StopsEarly(a) && GuardShows(cfg, a, p)
    requires GuardFault(cfg, a, OllamaCleanupFailed) ==> OllamaCleanupFailed in p.blockers
    ensures CleanupFails(cfg, a) ==>
              OllamaCleanupFailed in p.blockers && (p.components.store.StoreValid? <==> a.final.storeSame)
  {
    if CleanupFails(cfg, a) {
      LeftIsNotReady(cfg, a.ollama);
      assert BringUpNames(cfg, a.ollama, OllamaCleanupFailed);
    }
  }

  lemma OneConcern(why: Reason)
    ensures Addresses(Concern(why), [why])
  {
    assert why in [why];
  }

  /** The first looks and the runtime's part of the run; `early` is a result that ends it there. */
  method BringUpOrStop(cfg: Configuration, a: GuardAnswers)
    returns (early: Option<Payload>, b: Bringup, log: seq<Event>)
    ensures early.Some? <==> StopsEarly(a)
    ensures early.Some? ==>
              var p := early.value;
              && p.status.IndeterminateStatus? && !p.ready && p.changes == [] && p.components.ollama.OllamaUnknown?
              && p.blockers == [EarlyReason(a)] && p.action == Concern(EarlyReason(a))
              && GuardShows(cfg, a, p)
    ensures Justified(log) && (ChildStarted in log ==> StartsOver(cfg, a))
    ensures early.Some? ==> ChildStarted !in log
    ensures early.None? ==>
              && a.storeSame && a.manifestValid && b.stop.None? && |b.indeterminate| <= 2
              && Accounted(log, b.started, b.indeterminate)
              && (forall r :: r in b.indeterminate <==> BringUpNames(cfg, a.ollama, r))
              && (b.indeterminate == [] <==> ComesUpClearly(cfg, a.ollama))
              && b.attempts == TriedBy(cfg, a.ollama)
              && (b.started <==> ConfirmedGone(a.ollama) && StartsChild(cfg, a.ollama))
              && (b.state == Reachable(true) <==> ComesUpReady(cfg, a.ollama))
    ensures early.None? && a.ollama.first.Reachable? ==> log == [Probed(a.ollama.first)] && !b.started
  {
    log, b := [], Bringup(None, Refused, [], false, {});
    if !a.storeSame {
      return Some(Early(StoreChanged, ManifestUnknown, CompanyStoreChanged, InspectCompanyStore)), b, log;
    }
    if !a.manifestValid {
      return Some(Early(StoreValid, ManifestInvalid, DiskManifestInvalid, InspectBuildManifest)), b, log;
    }
    b, log := BringUpOllama(cfg, a.ollama);
    assert b.attempts == TriedBy(cfg, a.ollama);
    early := None;
    if b.stop.Some? {
      var why := b.stop.value;
      if why.CompanyStoreChanged? {
        return Some(Early(StoreChanged, ManifestValid, why, InspectCompanyStore)), b, log;
      }
      return Some(Early(StoreValid, ManifestInvalid, why, InspectBuildManifest)), b, log;
    }
  }

  predicate StartsOver(cfg: Configuration, a: GuardAnswers) {
    cfg.pinGiven && a.ollama.executable.Trusted? && a.storeSame && a.manifestValid
  }

  method GuardLocked(cfg: Configuration, a: GuardAnswers)
    returns (p: Payload, code: int, indeterminate: seq<Reason>, log: seq<Event>)
    ensures VerdictFits(p, code, indeterminate)
    ensures Renders(p)
    ensures Accounted(log, OllamaStarted in p.changes, p.blockers)
    ensures Justified(log)
    ensures ChildStarted in log ==> StartsOver(cfg, a)
    ensures code == 0 <==> GuardSettles(cfg, a)
    ensures CleanupFails(cfg, a) ==>
              OllamaCleanupFailed in p.blockers && (p.components.store.StoreValid? <==> a.final.storeSame)
    ensures Undisturbed(a) ==> code == 0 && p.changes == [] && log == [Probed(Reachable(true))]
    ensures p.components.store.StoreValid? ==> a.storeSame
    ensures code == 0 ==> p.components == ALL_PRESENT
    ensures !p.components.ollama.OllamaUnknown? ==> ClosingTold(a.final, p)
    ensures forall r :: r in p.blockers <==> GuardFault(cfg, a, r)
    ensures code == 0 <==>
              && a.storeSame && a.manifestValid && ComesUpClearly(cfg, a.ollama)
              && StartIsClear(ComesUpReady(cfg, a.ollama), a.service)
              && a.final.preService == RUNNING && a.final.service == RUNNING && LooksComplete(a.final)
    ensures OllamaStarted in p.changes <==>
              a.storeSame && a.manifestValid && ConfirmedGone(a.ollama) && StartsChild(cfg, a.ollama)
    ensures GuardShows(cfg, a, p)
    ensures code == 2 ==> Addresses(p.action, indeterminate)
    ensures code == 1 ==>
              var clear := ComesUpClearly(cfg, a.ollama) && StartIsClear(ComesUpReady(cfg, a.ollama), a.service);
              Removes(p.action, p.blockers, ReportOf(a.final, clear).1)
  {
    var early, b;
    early, b, log := BringUpOrStop(cfg, a);
    if early.Some? {
      OneConcern(early.value.blockers[0]);
      return early.value, 2, early.value.blockers, log;
    }
    p, code, indeterminate := FinishGuard(b, a.service, a.final);
    FailedCleanupShows(cfg, a, p);
  }

  /** Everything is found running, ready and unchanged at every look. */
  predicate Undisturbed(a: GuardAnswers) {
    && a.storeSame && a.manifestValid && a.ollama.first == Reachable(true)
    && ViewOf(a.service.read).live && Settles(a.final, [])
  }

  /** The verdict. Without reasons the last looks were complete and the report ready, so `ready`, which
      asks for all of it, is the same as no reason. */
  method Conclude(components: Components, postSnapshot: bool, reasons: Reasons, readinessAction: Action,
                  changes: seq<Change>)
    returns (p: Payload, code: int)
    requires reasons.Empty() ==> postSnapshot && components.readiness.ReadinessReady?
    requires FullReadinessActionRequired in reasons.blocking ==> !readinessAction.NoAction?
    requires |reasons.unclear| <= 8 && |reasons.blocking| <= 6 && |changes| <= 2
    requires forall i, j :: 0 <= i < j < |changes| ==> changes[i] != changes[j]
    ensures VerdictFits(p, code, reasons.unclear)
    ensures Renders(p) && p.components == components
    ensures p.ready <==> reasons.Empty()
    ensures p.changes == changes
    ensures forall r :: r in p.blockers <==> reasons.Has(r)
    ensures code == 1 ==> Removes(p.action, p.blockers, readinessAction)
    ensures code == 2 ==> Addresses(p.action, reasons.unclear)
  {
    var all := reasons.unclear + reasons.blocking;
    var blockers := Unique(all);
    assert all != [] ==> all[0] in all && all[0] in blockers;
    assert blockers != [] ==> blockers[0] in all;
    var ready := postSnapshot && components.readiness.ReadinessReady?
                 && reasons.unclear == [] && reasons.blocking == [];
    if ready {
      var status := if changes == [] then ReadyStatus else RecoveredStatus;
      p := Payload(status, true, components, blockers, NoAction, changes);
      code := 0;
    } else if reasons.unclear != [] {
      p := Payload(IndeterminateStatus, false, components, blockers, IndeterminateAction(reasons.unclear), changes);
      code := 2;
    } else {
      var action := BlockedAction(reasons.blocking, readinessAction);
      BlockedActionRemoves(reasons.blocking, readinessAction);
      p := Payload(ActionRequiredStatus, false, components, blockers, action, changes);
      code := 1;
    }
  }
}
