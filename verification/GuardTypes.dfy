/**
 What the runtime guard sees and says: probe and service answers, and the reasons, components and
 payload of a result.
 */
module GuardTypes {
  import opened Wrappers
  import opened Verdicts

  // ----- the model runtime -----

  datatype Probe = Reachable(installed: bool) | Refused | Unavailable | Invalid

  datatype PortState = PortRefused | PortListening | PortIndeterminate

  predicate IsDown(p: Probe) {
    p.Refused? || p.Unavailable?
  }

  // ----- the service -----

  datatype ServiceState =
    | ServiceRunning | NotConfigured | Stale | StalePidReused | Stopped | Failed | LegacyUnverified
    | Unreachable | EndpointMismatch | IdentityIndeterminate | IdentityConflict
    | ConfigurationMismatch | InvalidService

  datatype Relation = Match | Mismatch | Absent | RelationUnavailable | RelationLegacy | RelationUnknown

  datatype StatusText = NotAStatus | Other | Says(state: ServiceState)

  /** A service status answer. `relation` is absent when the field is; `configured` says whether
      port, provider, model and limits are the expected ones. */
  datatype ServiceReply =
    | ServiceRaises
    | Reply(status: StatusText, live: Option<bool>, relation: Option<Relation>, configured: bool)

  datatype ServiceView = ServiceView(state: ServiceState, relation: Relation, live: bool)

  // ----- what a status answer means, read off its own fields -----

  /** The service runs, is the expected process, and has the expected configuration. */
  const RUNNING := Reply(Says(ServiceRunning), Some(true), Some(Match), true)

  /** The same with another port, provider, model or limit. */
  const MISCONFIGURED := Reply(Says(ServiceRunning), Some(true), Some(Match), false)

  predicate IsDownAs(reply: ServiceReply, state: ServiceState) {
    reply.Reply? && reply.live == Some(false) && reply.status == Says(state)
  }

  /** The service is confirmed gone: its process is absent, or belongs to something else. */
  predicate SafelyGone(reply: ServiceReply) {
    || (IsDownAs(reply, NotConfigured) && (reply.relation.None? || reply.relation == Some(Absent)))
    || (IsDownAs(reply, Stale) && reply.relation == Some(Absent))
    || (IsDownAs(reply, StalePidReused) && reply.relation == Some(Mismatch))
    || (IsDownAs(reply, Stopped) && (reply.relation == Some(Absent) || reply.relation == Some(Mismatch)))
    || (IsDownAs(reply, Failed) && (reply.relation == Some(Absent) || reply.relation == Some(Mismatch)))
  }

  /** It says that it stopped or failed while its process is still there. */
  predicate LingersOn(reply: ServiceReply) {
    (IsDownAs(reply, Stopped) || IsDownAs(reply, Failed)) && reply.relation == Some(Match)
  }

  /** An answer that leaves open what the service is. */
  predicate IsUnclear(reply: ServiceReply) {
    && reply != RUNNING && reply != MISCONFIGURED && !IsDownAs(reply, LegacyUnverified)
    && !SafelyGone(reply) && !LingersOn(reply)
  }

  /** _service_components, with the exceptions _read_service catches. */
  function ViewOf(reply: ServiceReply): (v: ServiceView)
    ensures v.live <==> reply == RUNNING
    ensures v.live <==> v.state.ServiceRunning?
    ensures v.live ==> v.relation.Match?
    ensures v.state.ConfigurationMismatch? <==> reply == MISCONFIGURED
    ensures v.state.LegacyUnverified? <==> IsDownAs(reply, LegacyUnverified)
    ensures SafeStart(v) <==> SafelyGone(reply)
    ensures LeavesOpen(v) && !v.state.LegacyUnverified? <==> IsUnclear(reply)
    ensures reply.Reply? && !reply.status.NotAStatus? && reply.live.Some? && reply.relation.Some? ==>
              v.relation == reply.relation.value
    ensures reply.ServiceRaises? || reply.status.NotAStatus? || reply.live.None? ==>
              v.state.InvalidService? && v.relation.RelationUnknown?
  {
    if reply.ServiceRaises? || reply.status.NotAStatus? || reply.live.None? then
      ServiceView(InvalidService, RelationUnknown, false)
    else
      var relation := match reply.relation
                      case Some(r) => r
                      case None => if reply.status == Says(NotConfigured) then Absent else RelationUnknown;
      var invalid := ServiceView(InvalidService, relation, false);
      if reply.live.value then
        if reply.status != Says(ServiceRunning) || !relation.Match? then invalid
        else if !reply.configured then ServiceView(ConfigurationMismatch, relation, false)
        else ServiceView(ServiceRunning, relation, true)
      else
        match reply.status
        case Other => invalid
        case Says(state) =>
          if state.ServiceRunning? || state.ConfigurationMismatch? || state.InvalidService? then invalid
          else if state.NotConfigured? && !relation.Absent? then invalid
          else if state.Stale? && !relation.Absent? then invalid
          else if state.StalePidReused? && !relation.Mismatch? then invalid
          else ServiceView(state, relation, false)
  }

  /** A view that does not say whose process it is, or in what state. */
  predicate LeavesOpen(v: ServiceView) {
    || v.relation.RelationLegacy? || v.relation.RelationUnavailable? || v.relation.RelationUnknown?
    || v.state.InvalidService? || v.state.Unreachable? || v.state.EndpointMismatch?
    || v.state.IdentityIndeterminate? || v.state.IdentityConflict?
  }

  /** A start is safe only over a service that is confirmed gone. */
  predicate SafeStart(v: ServiceView) {
    || (v.state.NotConfigured? && v.relation.Absent?)
    || (v.state.Stale? && v.relation.Absent?)
    || (v.state.StalePidReused? && v.relation.Mismatch?)
    || ((v.state.Stopped? || v.state.Failed?) && (v.relation.Absent? || v.relation.Mismatch?))
  }

  // ----- results -----

  datatype Reason =
    | OllamaResponseInvalid | OllamaPresenceIndeterminate | OllamaExecutableHashMismatch
    | OllamaExecutableInvalid | OllamaCleanupFailed | OllamaStartUnconfirmed | OllamaStartFailed
    | CompanyStoreInvalid | CompanyStoreChanged | DiskManifestInvalid | DiskManifestChanged
    | ServiceIdentityOrEndpointIndeterminate | FullReadinessIndeterminate | FullReadinessNotConfirmed
    | ModelNotInstalled | OllamaUnavailable | OllamaExecutablePinRequired | OllamaExecutableMissing
    | LegacyServiceRequiresMigration | ServiceConfigurationMismatch | ServiceWaitingForReadyRuntime
    | ServiceWaitingForValidBuild | ServiceStartFailed | ServiceNotLive | FullReadinessActionRequired
    | RuntimeGuardBusy | RuntimeGuardLockInvalid | ResultJournalWriteFailed

  datatype StoreComponent = StoreUnknown | StoreValid | StoreChanged | StoreInvalid
  datatype ManifestComponent = ManifestUnknown | ManifestValid | ManifestInvalid
  datatype OllamaComponent = OllamaUnknown | OllamaReachable | OllamaInvalid | OllamaDown
  datatype ModelComponent = ModelUnknown | ModelInstalled | ModelMissing
  datatype ReadinessComponent =
    | ReadinessUnknown | ReadinessReady | ReadinessActionRequired | ReadinessIndeterminate | ReadinessNotRun
  datatype ServiceComponent = ServiceUnknown | ServiceLive | ServiceIs(state: ServiceState)

  datatype Components = Components(
    store: StoreComponent, manifest: ManifestComponent, service: ServiceComponent,
    identity: Relation, ollama: OllamaComponent, model: ModelComponent, readiness: ReadinessComponent)

  const EMPTY := Components(
    StoreUnknown, ManifestUnknown, ServiceUnknown, RelationUnknown, OllamaUnknown, ModelUnknown, ReadinessUnknown)

  datatype Change = OllamaStarted | ServiceStarted

  datatype Payload = Payload(
    status: Status, ready: bool, components: Components, blockers: seq<Reason>, action: Action,
    changes: seq<Change>)

  /** The count rules _render_result applies; the field values are already of the right kind. */
  predicate Renders(p: Payload) {
    |p.blockers| <= 16 && |p.changes| <= 2
  }
}
