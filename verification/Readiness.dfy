/**
 The readiness report: a read-only sweep over the disk manifest, the company store, the live
 service and the model runtime. Every answer of the environment is an arbitrary value.
 */
module Readiness {
  import opened Wrappers
  import opened Verdicts
  import LiveBuild

  datatype ModelName = BadName | Unsupported | Supported

  datatype LiveAnswer =
    | LiveFails
    | Live(verdict: Option<LiveBuild.Verdict>, restartSafe: Option<bool>, worker: LiveBuild.WorkerStatus)

  /** The company identity the service reports. */
  datatype CompanyAnswer = NoIdentity | BadIdentity | Identity(instance: string)

  datatype Provider = Ollama | Mock | UnknownProvider | BadProvider

  datatype Endpoint = LoopbackDefault | Nonlocal | NoEndpoint | BadEndpoint

  /** The model the service reports: none, not usable as a model name, or a supported name. */
  datatype ReportedModel = NoModel | BadModel | Model(required: bool)

  datatype RuntimeAnswer =
    | NoRuntime | BadRuntime | Runtime(provider: Provider, model: ReportedModel, endpoint: Endpoint)

  datatype ModelProbe = ProbeUnavailable | ProbeInvalid | ProbeNotBoolean | Installed(yes: bool)

  datatype Environment = Environment(
    model: ModelName, manifestValid: bool, identityBefore: Option<string>, live: LiveAnswer,
    company: CompanyAnswer, runtime: RuntimeAnswer, probe: ModelProbe, identityAfter: Option<string>)

  datatype Blocker =
    | InvalidModelName | UnsupportedModel | DiskManifestInvalid | CompanyStoreIndeterminate
    | LiveStatusIndeterminate | CompanyStoreMismatch | CompanyStoreUnverified | ServiceRuntimeInvalid
    | OllamaStatusIndeterminate | ServiceRestartRequired | ServiceBusyBeforeRestart | DiskOlderThanService
    | BuildIdentityConflict | LocalWorkActive | WorkerDisabled | ServiceRuntimeMismatch
    | OllamaUnavailable | ModelNotInstalled | CompanyStoreChangedDuringCheck

  datatype Payload = Payload(status: Status, ready: bool, blockers: seq<Blocker>, action: Action)

  datatype RuntimeStatus = RuntimeMatch | RuntimeInvalid | RuntimeDiffers

  function RuntimeStatusOf(runtime: RuntimeAnswer): RuntimeStatus {
    match runtime
    case NoRuntime => RuntimeDiffers
    case BadRuntime => RuntimeInvalid
    case Runtime(provider, model, endpoint) =>
      if provider.BadProvider? then RuntimeInvalid
      else if provider.Ollama? then
        if !model.Model? then RuntimeInvalid
        else if endpoint.NoEndpoint? || endpoint.BadEndpoint? then RuntimeInvalid
        else if endpoint.Nonlocal? then RuntimeDiffers
        else if !model.required then RuntimeDiffers
        else RuntimeMatch
      else if !model.NoModel? || !endpoint.NoEndpoint? then RuntimeInvalid
      else RuntimeDiffers
  }

  datatype StoreStatus = StoreMatch | StoreMismatch | StoreUnverified | StoreInvalid

  function StoreStatusOf(company: CompanyAnswer, local: string): StoreStatus {
    match company
    case NoIdentity => StoreUnverified
    case BadIdentity => StoreInvalid
    case Identity(instance) => if instance == local then StoreMatch else StoreMismatch
  }

  function Indeterminate(blocker: Blocker, action: Action): Payload {
    Payload(IndeterminateStatus, false, [blocker], action)
  }

  predicate WorkerBusy(w: LiveBuild.WorkerStatus) {
    w.WorkerRunning? || w.WorkerNeedsApproval? || w.WorkerCompletionPending?
  }

  /** Everything a new mission needs is in place, seen before and after. */
  predicate AllInPlace(e: Environment) {
    && e.model.Supported? && e.manifestValid && e.identityBefore.Some? && e.identityAfter == e.identityBefore
    && e.live.Live? && e.live.verdict == Some(LiveBuild.Match) && e.live.restartSafe == Some(true)
    && (|| e.live.worker.WorkerIdle? || e.live.worker.WorkerComplete? || e.live.worker.WorkerQualityFailed?
        || e.live.worker.WorkerFailed?)
    && e.company == Identity(e.identityBefore.value)
    && e.runtime == Runtime(Ollama, Model(true), LoopbackDefault)
    && e.probe == Installed(true)
  }

  /** What each exit code promises its readers. */
  predicate CodeFits(p: Payload, code: int) {
    && p.ready == p.status.ReadyStatus?
    && !p.status.RecoveredStatus?
    && (code == 0 <==> p.status.ReadyStatus?)
    && (code == 1 <==> p.status.ActionRequiredStatus?)
    && (code == 2 || code == 3 <==> p.status.IndeterminateStatus?)
    && (p.blockers == [] <==> code == 0)
    && (p.action.NoAction? <==> code == 0)
    && (code == 1 ==> MapReadiness(p.action).Some?)
  }

  // ----- what stands in the way, from the answers themselves -----

  /** The service's runtime report contradicts itself or names what is no model. */
  predicate RuntimeUnusable(r: RuntimeAnswer) {
    || r.BadRuntime?
    || (r.Runtime? && r.provider.BadProvider?)
    || (r.Runtime? && r.provider.Ollama? && (!r.model.Model? || r.endpoint.NoEndpoint? || r.endpoint.BadEndpoint?))
    || (r.Runtime? && (r.provider.Mock? || r.provider.UnknownProvider?)
        && (!r.model.NoModel? || !r.endpoint.NoEndpoint?))
  }

  /** The answers could be read up to this blocker's own. */
  predicate KnownLive(e: Environment) {
    && e.model.Supported? && e.manifestValid && e.identityBefore.Some?
    && e.live.Live? && e.live.verdict.Some? && e.live.restartSafe.Some? && !e.live.worker.WorkerUnknown?
    && (e.live.restartSafe.value ==>
          && !e.live.worker.WorkerRunning? && !e.live.worker.WorkerNeedsApproval?
          && !e.live.worker.WorkerCompletionPending?)
  }

  /** Why a run without a list of blockers stopped: its one blocker, the action and the code. */
  predicate StopsFor(e: Environment, b: Blocker, action: Action, code: int) {
    match b
    case InvalidModelName => e.model.BadName? && action.FixModelName? && code == 2
    case UnsupportedModel => e.model.Unsupported? && action.UseSupportedLlamaModel? && code == 2
    case DiskManifestInvalid => e.model.Supported? && !e.manifestValid && action.InspectDiskManifest? && code == 3
    case LiveStatusIndeterminate =>
      && e.model.Supported? && e.manifestValid && e.identityBefore.Some? && !KnownLive(e)
      && action.InspectLocalService? && code == 2
    case CompanyStoreIndeterminate =>
      && code == 2
      && (if e.identityBefore.None? then
            e.model.Supported? && e.manifestValid && action.InspectCompanyHomeSelection?
          else
            && KnownLive(e)
            && (|| (e.company.BadIdentity? && action.InspectLocalService?)
                || (e.identityAfter.None? && action.InspectCompanyHomeSelection?)))
    case CompanyStoreMismatch =>
      && KnownLive(e) && e.company.Identity? && Some(e.company.instance) != e.identityBefore
      && action.AlignCompanyHome? && code == 1
    case CompanyStoreUnverified =>
      && KnownLive(e) && e.company.NoIdentity? && action.InspectLocalService? && code == 2
      && !(e.live.verdict == Some(LiveBuild.RestartRequired) && e.live.restartSafe == Some(true))
    case ServiceRuntimeInvalid =>
      KnownLive(e) && RuntimeUnusable(e.runtime) && action.InspectLocalService? && code == 2
    case OllamaStatusIndeterminate =>
      && KnownLive(e) && (e.probe.ProbeInvalid? || e.probe.ProbeNotBoolean?)
      && action.InspectOllamaService? && code == 2
    case CompanyStoreChangedDuringCheck =>
      && KnownLive(e) && e.identityAfter.Some? && e.identityAfter != e.identityBefore
      && action.RetryReadiness? && code == 2
    case _ => false
  }

  /** Whether a blocker applies once every answer could be read. */
  predicate Applies(
    b: Blocker, verdict: LiveBuild.Verdict, restartSafe: bool, worker: LiveBuild.WorkerStatus,
    verified: bool, runtimeMatches: bool, probe: ModelProbe)
  {
    match b
    case LocalWorkActive => verdict.Match? && !restartSafe
    case ServiceRestartRequired => verdict.RestartRequired? && restartSafe
    case ServiceBusyBeforeRestart => verdict.RestartRequired? && !restartSafe
    case DiskOlderThanService => verdict.DiskOlder?
    case BuildIdentityConflict => verdict.IdentityConflict?
    case WorkerDisabled => worker.WorkerDisabled?
    case CompanyStoreUnverified => !verified
    case ServiceRuntimeMismatch => !runtimeMatches
    case OllamaUnavailable => probe.ProbeUnavailable?
    case ModelNotInstalled => probe == Installed(false)
    case _ => false
  }

  /** What removes a blocker, and which blocker's remedy comes first. */
  function Remedy(b: Blocker): Action {
    match b
    case LocalWorkActive => InspectLocalWork
    case ServiceBusyBeforeRestart => InspectLocalWork
    case ServiceRestartRequired => RestartLocalService
    case DiskOlderThanService => InspectBuildProvenance
    case BuildIdentityConflict => InspectBuildProvenance
    case WorkerDisabled => StartWorkerEnabledService
    case ServiceRuntimeMismatch => RelaunchServiceWithOllamaModel
    case OllamaUnavailable => StartOllamaLocally
    case ModelNotInstalled => InstallConfiguredModel
    case _ => NoAction
  }

  function Rank(b: Blocker): nat {
    match b
    case OllamaUnavailable => 4
    case ModelNotInstalled => 4
    case WorkerDisabled => 2
    case ServiceRuntimeMismatch => 1
    case CompanyStoreUnverified => 0
    case _ => 3
  }

  /** The action is the remedy of `b`, one of the blockers, and none of them comes before it. */
  predicate HeadedBy(blockers: seq<Blocker>, action: Action, b: Blocker) {
    b in blockers && action == Remedy(b) && forall c :: c in blockers ==> Rank(c) <= Rank(b)
  }

  predicate Removes(action: Action, blockers: seq<Blocker>) {
    exists b :: HeadedBy(blockers, action, b)
  }

  /** What the comparison of builds asks for, if anything. */
  function BuildBlocker(verdict: LiveBuild.Verdict, restartSafe: bool): (r: Option<(Blocker, Action)>)
    ensures r.None? <==> verdict.Match? && restartSafe
    ensures r.Some? ==> MapReadiness(r.value.1).Some? && !r.value.0.WorkerDisabled?
                        && !r.value.0.OllamaUnavailable? && !r.value.0.ModelNotInstalled?
                        && !r.value.0.ServiceRuntimeMismatch? && !r.value.0.CompanyStoreUnverified?
  {
    match verdict
    case Match => if restartSafe then None else Some((LocalWorkActive, InspectLocalWork))
    case RestartRequired =>
      if restartSafe then Some((ServiceRestartRequired, RestartLocalService))
      else Some((ServiceBusyBeforeRestart, InspectLocalWork))
    case DiskOlder => Some((DiskOlderThanService, InspectBuildProvenance))
    case IdentityConflict => Some((BuildIdentityConflict, InspectBuildProvenance))
  }

  function With(list: seq<Blocker>, stands: bool, b: Blocker): (r: seq<Blocker>)
    ensures forall c :: c in r <==> c in list || (stands && c == b)
  {
    if stands then list + [b] else list
  }

  function BuildBlockers(verdict: LiveBuild.Verdict, restartSafe: bool): seq<Blocker> {
    var build := BuildBlocker(verdict, restartSafe);
    if build.None? then [] else [build.value.0]
  }

  lemma BuildBlockersMean(verdict: LiveBuild.Verdict, restartSafe: bool, b: Blocker)
    ensures b in BuildBlockers(verdict, restartSafe)
            <==> Applies(b, verdict, restartSafe, LiveBuild.WorkerIdle, true, true, Installed(true))
  {
  }

  /** What build, worker, store and runtime put in the way, in the order they are looked at. */
  function ServiceBlockers(
    verdict: LiveBuild.Verdict, restartSafe: bool, worker: LiveBuild.WorkerStatus,
    verified: bool, runtimeMatches: bool): seq<Blocker>
  {
    var build := With(BuildBlockers(verdict, restartSafe), worker.WorkerDisabled?, WorkerDisabled);
    With(With(build, !verified, CompanyStoreUnverified), !runtimeMatches, ServiceRuntimeMismatch)
  }

  lemma ServiceBlockersMean(
    verdict: LiveBuild.Verdict, restartSafe: bool, worker: LiveBuild.WorkerStatus,
    verified: bool, runtimeMatches: bool, b: Blocker)
    ensures b in ServiceBlockers(verdict, restartSafe, worker, verified, runtimeMatches)
            <==> Applies(b, verdict, restartSafe, worker, verified, runtimeMatches, Installed(true))
  {
    BuildBlockersMean(verdict, restartSafe, b);
  }

  /** The service blocker whose remedy is given. */
  function ServiceLeader(
    verdict: LiveBuild.Verdict, restartSafe: bool, worker: LiveBuild.WorkerStatus,
    runtimeMatches: bool): Option<Blocker>
  {
    if BuildBlocker(verdict, restartSafe).Some? then Some(BuildBlocker(verdict, restartSafe).value.0)
    else if worker.WorkerDisabled? then Some(WorkerDisabled)
    else if !runtimeMatches then Some(ServiceRuntimeMismatch)
    else None
  }

  function RemedyOf(leader: Option<Blocker>): Action {
    if leader.None? then NoAction else Remedy(leader.value)
  }

  lemma ServiceLeads(
    verdict: LiveBuild.Verdict, restartSafe: bool, worker: LiveBuild.WorkerStatus,
    verified: bool, runtimeMatches: bool)
    requires verified || (verdict.RestartRequired? && restartSafe)
    ensures var list := ServiceBlockers(verdict, restartSafe, worker, verified, runtimeMatches);
            var first := ServiceLeader(verdict, restartSafe, worker, runtimeMatches);
            && (first.None? <==> list == [])
            && (first.Some? ==> first.value in list && forall c :: c in list ==> Rank(c) <= Rank(first.value))
            && (forall c :: c in list ==> Rank(c) <= 3)
  {
    var list := ServiceBlockers(verdict, restartSafe, worker, verified, runtimeMatches);
    var first := ServiceLeader(verdict, restartSafe, worker, runtimeMatches);
    forall c | c in list ensures first.Some? && Rank(c) <= Rank(first.value) <= 3 {
      ServiceBlockersMean(verdict, restartSafe, worker, verified, runtimeMatches, c);
    }
    if first.Some? {
      ServiceBlockersMean(verdict, restartSafe, worker, verified, runtimeMatches, first.value);
    }
    assert list != [] ==> list[0] in list;
  }

  /** The first part of the list as it is built up, with the action to give. */
  method ListServiceBlockers(
    verdict: LiveBuild.Verdict, restartSafe: bool, worker: LiveBuild.WorkerStatus,
    unverified: bool, runtimeMatches: bool)
    returns (blockers: seq<Blocker>, action: Action)
    requires unverified ==> verdict.RestartRequired? && restartSafe
    ensures blockers == ServiceBlockers(verdict, restartSafe, worker, !unverified, runtimeMatches)
    ensures action == RemedyOf(ServiceLeader(verdict, restartSafe, worker, runtimeMatches))
  {
    var build := BuildBlocker(verdict, restartSafe);
    blockers := if build.None? then [] else [build.value.0];
    action := if build.None? then NoAction else build.value.1;
    if worker.WorkerDisabled? {
      blockers := blockers + [WorkerDisabled];
      if action == NoAction { action := StartWorkerEnabledService; }
    }
    if unverified {
      blockers := blockers + [CompanyStoreUnverified];
    }
    if !runtimeMatches {
      blockers := blockers + [ServiceRuntimeMismatch];
      if action == NoAction { action := RelaunchServiceWithOllamaModel; }
    }
  }

  /** The whole list, with what the probe adds. */
  function Blockers(
    verdict: LiveBuild.Verdict, restartSafe: bool, worker: LiveBuild.WorkerStatus,
    verified: bool, runtimeMatches: bool, probe: ModelProbe): seq<Blocker>
  {
    var service := ServiceBlockers(verdict, restartSafe, worker, verified, runtimeMatches);
    if probe.ProbeUnavailable? then service + [OllamaUnavailable]
    else if probe == Installed(false) then service + [ModelNotInstalled]
    else service
  }

  lemma OthersIgnoreProbe(
    verdict: LiveBuild.Verdict, restartSafe: bool, worker: LiveBuild.WorkerStatus,
    verified: bool, runtimeMatches: bool, probe: ModelProbe, b: Blocker)
    requires !b.OllamaUnavailable? && !b.ModelNotInstalled?
    ensures Applies(b, verdict, restartSafe, worker, verified, runtimeMatches, probe)
            <==> Applies(b, verdict, restartSafe, worker, verified, runtimeMatches, Installed(true))
  {
  }

  lemma ProbeAdds(
    verdict: LiveBuild.Verdict, restartSafe: bool, worker: LiveBuild.WorkerStatus,
    verified: bool, runtimeMatches: bool, probe: ModelProbe, b: Blocker)
    ensures Applies(b, verdict, restartSafe, worker, verified, runtimeMatches, probe)
            <==> || Applies(b, verdict, restartSafe, worker, verified, runtimeMatches, Installed(true))
                 || (b == OllamaUnavailable && probe.ProbeUnavailable?)
                 || (b == ModelNotInstalled && probe == Installed(false))
  {
    if !b.OllamaUnavailable? && !b.ModelNotInstalled? {
      OthersIgnoreProbe(verdict, restartSafe, worker, verified, runtimeMatches, probe, b);
    }
  }

  lemma EachApplies(
    verdict: LiveBuild.Verdict, restartSafe: bool, worker: LiveBuild.WorkerStatus,
    verified: bool, runtimeMatches: bool, probe: ModelProbe, b: Blocker)
    ensures b in Blockers(verdict, restartSafe, worker, verified, runtimeMatches, probe)
            <==> Applies(b, verdict, restartSafe, worker, verified, runtimeMatches, probe)
  {
    ServiceBlockersMean(verdict, restartSafe, worker, verified, runtimeMatches, b);
    ProbeAdds(verdict, restartSafe, worker, verified, runtimeMatches, probe, b);
  }

  /** The blocker whose remedy is given. */
  function Leader(
    verdict: LiveBuild.Verdict, restartSafe: bool, worker: LiveBuild.WorkerStatus,
    runtimeMatches: bool, probe: ModelProbe): Option<Blocker>
  {
    if probe.ProbeUnavailable? then Some(OllamaUnavailable)
    else if probe == Installed(false) then Some(ModelNotInstalled)
    else ServiceLeader(verdict, restartSafe, worker, runtimeMatches)
  }

  lemma LeaderHeads(
    verdict: LiveBuild.Verdict, restartSafe: bool, worker: LiveBuild.WorkerStatus,
    verified: bool, runtimeMatches: bool, probe: ModelProbe)
    requires verified || (verdict.RestartRequired? && restartSafe)
    ensures var list := Blockers(verdict, restartSafe, worker, verified, runtimeMatches, probe);
            var first := Leader(verdict, restartSafe, worker, runtimeMatches, probe);
            && (first.None? <==> list == [])
            && (first.Some? ==> HeadedBy(list, RemedyOf(first), first.value))
  {
    ServiceLeads(verdict, restartSafe, worker, verified, runtimeMatches);
  }

  method ListBlockers(
    verdict: LiveBuild.Verdict, restartSafe: bool, worker: LiveBuild.WorkerStatus,
    unverified: bool, runtimeMatches: bool, probe: ModelProbe)
    returns (blockers: seq<Blocker>, action: Action)
    requires unverified ==> verdict.RestartRequired? && restartSafe
    requires probe.ProbeUnavailable? || probe.Installed?
    ensures blockers == Blockers(verdict, restartSafe, worker, !unverified, runtimeMatches, probe)
    ensures action == RemedyOf(Leader(verdict, restartSafe, worker, runtimeMatches, probe))
  {
    blockers, action := ListServiceBlockers(verdict, restartSafe, worker, unverified, runtimeMatches);
    if probe.ProbeUnavailable? {
      blockers, action := blockers + [OllamaUnavailable], StartOllamaLocally;
    } else if !probe.yes {
      blockers, action := blockers + [ModelNotInstalled], InstallConfiguredModel;
    }
  }

  lemma NoLeader(
    verdict: LiveBuild.Verdict, restartSafe: bool, worker: LiveBuild.WorkerStatus,
    runtimeMatches: bool, probe: ModelProbe)
    requires probe.ProbeUnavailable? || probe.Installed?
    ensures var first := Leader(verdict, restartSafe, worker, runtimeMatches, probe);
            && (first.None? <==> verdict.Match? && restartSafe && !worker.WorkerDisabled? && runtimeMatches
                                 && probe == Installed(true))
            && (if first.None? then RemedyOf(first).NoAction? else MapReadiness(RemedyOf(first)).Some?)
  {
    var first := Leader(verdict, restartSafe, worker, runtimeMatches, probe);
    if first.Some? {
      RemedyIsMapped(first.value);
    }
  }

  /** What the guard can translate. */
  lemma RemedyIsMapped(b: Blocker)
    ensures Remedy(b).NoAction? || MapReadiness(Remedy(b)).Some?
  {
  }

  lemma BlockersTell(
    verdict: LiveBuild.Verdict, restartSafe: bool, worker: LiveBuild.WorkerStatus,
    verified: bool, runtimeMatches: bool, probe: ModelProbe)
    requires verified || (verdict.RestartRequired? && restartSafe)
    requires probe.ProbeUnavailable? || probe.Installed?
    ensures var list := Blockers(verdict, restartSafe, worker, verified, runtimeMatches, probe);
            var action := RemedyOf(Leader(verdict, restartSafe, worker, runtimeMatches, probe));
            && (list == [] <==> verdict.Match? && restartSafe && !worker.WorkerDisabled? && verified && runtimeMatches
                                && probe == Installed(true))
            && (if list == [] then action.NoAction? else MapReadiness(action).Some? && Removes(action, list))
  {
    LeaderHeads(verdict, restartSafe, worker, verified, runtimeMatches, probe);
    NoLeader(verdict, restartSafe, worker, runtimeMatches, probe);
  }

  /** The last part of the sweep: what stands in the way once every answer could be read. */
  method CollectBlockers(
    verdict: LiveBuild.Verdict, restartSafe: bool, worker: LiveBuild.WorkerStatus,
    store: StoreStatus, runtime: RuntimeStatus, probe: ModelProbe)
    returns (blockers: seq<Blocker>, action: Action)
    requires store.StoreMatch? || (store.StoreUnverified? && verdict.RestartRequired? && restartSafe)
    requires !runtime.RuntimeInvalid? && (probe.ProbeUnavailable? || probe.Installed?)
    ensures blockers == [] <==> verdict.Match? && restartSafe && !worker.WorkerDisabled? && store.StoreMatch?
                                && runtime.RuntimeMatch? && probe == Installed(true)
    ensures if blockers == [] then action.NoAction? else MapReadiness(action).Some?
    ensures forall b :: b in blockers <==>
              Applies(b, verdict, restartSafe, worker, store.StoreMatch?, runtime.RuntimeMatch?, probe)
    ensures blockers != [] ==> Removes(action, blockers)
  {
    var verified, matches := store.StoreMatch?, runtime.RuntimeMatch?;
    blockers, action := ListBlockers(verdict, restartSafe, worker, store.StoreUnverified?, matches, probe);
    BlockersTell(verdict, restartSafe, worker, verified, matches, probe);
    forall b
      ensures b in blockers <==> Applies(b, verdict, restartSafe, worker, verified, matches, probe)
    {
      EachApplies(verdict, restartSafe, worker, verified, matches, probe, b);
    }
  }

  /** Every answer up to the probe could be read, and the service serves this company or is about to restart. */
  predicate Readable(e: Environment) {
    && KnownLive(e) && !RuntimeUnusable(e.runtime) && (e.probe.ProbeUnavailable? || e.probe.Installed?)
    && (|| (e.company.Identity? && Some(e.company.instance) == e.identityBefore)
        || (e.company.NoIdentity? && e.live.verdict == Some(LiveBuild.RestartRequired)
            && e.live.restartSafe == Some(true)))
  }

  predicate Stands(e: Environment, b: Blocker)
    requires KnownLive(e)
  {
    Applies(b, e.live.verdict.value, e.live.restartSafe.value, e.live.worker, e.company.Identity?,
            e.runtime == Runtime(Ollama, Model(true), LoopbackDefault), e.probe)
  }

  /** The whole sweep. It answers `ready` exactly when everything is in place, and a code-1 answer
      always names a blocker and an action the other scripts can translate. */
  method RunReadiness(e: Environment) returns (p: Payload, code: int)
    ensures CodeFits(p, code)
    ensures code == 0 <==> AllInPlace(e)
    ensures code == 3 <==> e.model.Supported? && !e.manifestValid
    ensures code != 0 && !Readable(e) ==> |p.blockers| == 1 && StopsFor(e, p.blockers[0], p.action, code)
    ensures Readable(e) ==>
              var listed := exists b :: Stands(e, b);
              && (listed ==>
                    code == 1 && (forall b :: b in p.blockers <==> Stands(e, b)) && Removes(p.action, p.blockers))
              && (!listed && code != 0 ==> |p.blockers| == 1 && StopsFor(e, p.blockers[0], p.action, code))
  {
    if e.model.BadName? {
      return Indeterminate(InvalidModelName, FixModelName), 2;
    }
    if e.model.Unsupported? {
      return Indeterminate(UnsupportedModel, UseSupportedLlamaModel), 2;
    }
    if !e.manifestValid {
      return Indeterminate(DiskManifestInvalid, InspectDiskManifest), 3;
    }
    if e.identityBefore.None? {
      return Indeterminate(CompanyStoreIndeterminate, InspectCompanyHomeSelection), 2;
    }
    if e.live.LiveFails? || e.live.verdict.None? || e.live.restartSafe.None? || e.live.worker.WorkerUnknown? {
      return Indeterminate(LiveStatusIndeterminate, InspectLocalService), 2;
    }
    var verdict, restartSafe, worker := e.live.verdict.value, e.live.restartSafe.value, e.live.worker;
    if restartSafe && WorkerBusy(worker) {
      return Indeterminate(LiveStatusIndeterminate, InspectLocalService), 2;
    }
    var store := StoreStatusOf(e.company, e.identityBefore.value);
    if store.StoreInvalid? {
      return Indeterminate(CompanyStoreIndeterminate, InspectLocalService), 2;
    }
    if store.StoreMismatch? {
      return Payload(ActionRequiredStatus, false, [CompanyStoreMismatch], AlignCompanyHome), 1;
    }
    if store.StoreUnverified? && !(verdict.RestartRequired? && restartSafe) {
      return Indeterminate(CompanyStoreUnverified, InspectLocalService), 2;
    }
    var runtime := RuntimeStatusOf(e.runtime);
    if runtime.RuntimeInvalid? {
      return Indeterminate(ServiceRuntimeInvalid, InspectLocalService), 2;
    }
    if e.probe.ProbeInvalid? || e.probe.ProbeNotBoolean? {
      return Indeterminate(OllamaStatusIndeterminate, InspectOllamaService), 2;
    }
    var blockers, action := CollectBlockers(verdict, restartSafe, worker, store, runtime, e.probe);
    if blockers != [] {
      assert Stands(e, blockers[0]);
      return Payload(ActionRequiredStatus, false, blockers, action), 1;
    }
    if e.identityAfter.None? {
      return Indeterminate(CompanyStoreIndeterminate, InspectCompanyHomeSelection), 2;
    }
    if e.identityAfter != e.identityBefore {
      return Indeterminate(CompanyStoreChangedDuringCheck, RetryReadiness), 2;
    }
    return Payload(ReadyStatus, true, [], NoAction), 0;
  }
}
