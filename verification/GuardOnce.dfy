/**
 One guard run as a caller sees it: the company identity, the lock, the guard itself, and the record
 of its result that the supervisor later reads.
 */
module GuardOnce {
  import opened Wrappers
  import opened Verdicts
  import opened GuardTypes
  import opened RuntimeGuard

  datatype LockReply = LockHeld | LockBusy | LockBroken

  /** How recording ends; the last is a failing directory sync once the new record is in place. */
  datatype JournalWrite = Written | StoreChangedAtCommit | WriteFails | SyncFailsAfterwards

  /** What happens around the guard: `record` says whether the result is to be recorded. */
  datatype Surroundings = Surroundings(
    identityReadable: bool, lock: LockReply, record: bool, storeStill: bool, journal: JournalWrite)

  /** The result and code returned, and what was put into the journal. */
  datatype Outcome = Outcome(payload: Payload, code: int, journal: Option<Payload>, unclear: seq<Reason>)

  /** Recording was asked for, applies to this result, and did not go through to its end. */
  predicate RecordingFails(inner: Payload, s: Surroundings) {
    s.record && inner.components.store.StoreValid? && !(s.storeStill && s.journal.Written?)
  }

  function Replacement(inner: Payload, why: Reason, store: StoreComponent, action: Action): Payload {
    Payload(IndeterminateStatus, false, inner.components.(store := store), [why], action, inner.changes)
  }

  function Recorded(inner: Payload, code: int, unclear: seq<Reason>, s: Surroundings): Outcome {
    if !s.record || !inner.components.store.StoreValid? then Outcome(inner, code, None, unclear)
    else if !s.storeStill || s.journal.StoreChangedAtCommit? then
      Outcome(Replacement(inner, CompanyStoreChanged, StoreChanged, InspectCompanyStore), 2, None,
              [CompanyStoreChanged])
    else if s.journal.Written? then Outcome(inner, code, Some(inner), unclear)
    else
      Outcome(Replacement(inner, ResultJournalWriteFailed, StoreValid, InspectRuntimeGuard), 2,
              if s.journal.SyncFailsAfterwards? then Some(inner) else None, [ResultJournalWriteFailed])
  }

  /** What is said in place of a result that could not be recorded. */
  predicate SaysNotRecorded(o: Outcome, s: Surroundings) {
    && o.code == 2 && o.payload.status.IndeterminateStatus? && !o.payload.ready
    && if s.storeStill && !s.journal.StoreChangedAtCommit? then
         o.payload.blockers == [ResultJournalWriteFailed] && o.payload.action.InspectRuntimeGuard?
       else
         && o.payload.blockers == [CompanyStoreChanged] && o.payload.action.InspectCompanyStore?
         && o.payload.components.store.StoreChanged? && o.journal.None?
  }

  /** The guard finds the store as it was at every look it takes. */
  predicate StoreShownValid(cfg: Configuration, a: GuardAnswers) {
    if StopsEarly(a) then !EarlyReason(a).CompanyStoreChanged?
    else StoreHolds(ComesUpReady(cfg, a.ollama), a.service, a.final)
  }

  /** The answer without identity or lock: nothing was done or looked at. */
  predicate Turned(o: Outcome, store: StoreComponent, why: Reason, action: Action) {
    && o.payload.components == EMPTY.(store := store) && o.payload.blockers == [why] && o.payload.action == action
    && o.payload.changes == [] && !o.payload.ready && o.journal.None?
  }

  /** A failed cleanup is still reported after recording exactly when recording did not fail: a result
      that could not be recorded is replaced by one with a single blocker. */
  lemma CleanupReportSurvives(inner: Payload, code: int, unclear: seq<Reason>, s: Surroundings)
    ensures OllamaCleanupFailed in Recorded(inner, code, unclear, s).payload.blockers
            <==> OllamaCleanupFailed in inner.blockers && !RecordingFails(inner, s)
  {
    var p := Recorded(inner, code, unclear, s).payload;
    if RecordingFails(inner, s) {
      assert p.blockers[0] != OllamaCleanupFailed && |p.blockers| == 1;
    }
  }

  /** The verdict still fits after recording, and the listed changes are the guard's own. What is put
      into the journal is always the guard's own result; it is also the one returned, but for one case:
      when the directory cannot be synced once the record is in place, the caller is told that the
      journal was not written. */
  lemma RecordingKeepsVerdict(inner: Payload, code: int, unclear: seq<Reason>, s: Surroundings)
    requires VerdictFits(inner, code, unclear) && Renders(inner)
    ensures var o := Recorded(inner, code, unclear, s);
            && VerdictFits(o.payload, o.code, o.unclear) && Renders(o.payload)
            && o.payload.changes == inner.changes
            && (!RecordingFails(inner, s) ==> o.payload == inner && o.code == code)
            && (o.journal.Some? <==> s.record && inner.components.store.StoreValid? && s.storeStill
                                     && (s.journal.Written? || s.journal.SyncFailsAfterwards?))
            && (o.journal.Some? ==> o.journal == Some(inner))
            && (o.journal.Some? && s.journal.Written? ==> o.payload == inner && o.code == code)
            && (o.journal.Some? && s.journal.SyncFailsAfterwards? ==>
                  o.payload.blockers == [ResultJournalWriteFailed] && o.code == 2)
            && (RecordingFails(inner, s) ==> SaysNotRecorded(o, s))
            && (RecordingFails(inner, s) && s.storeStill && !s.journal.StoreChangedAtCommit? ==>
                  o.payload.components == inner.components)
  {
  }

  method RunGuardOnce(cfg: Configuration, a: GuardAnswers, s: Surroundings)
    returns (o: Outcome, log: seq<Event>)
    ensures VerdictFits(o.payload, o.code, o.unclear) && Renders(o.payload)
    ensures Justified(log)
    ensures log != [] ==> s.lock.LockHeld? && s.identityReadable
    ensures o.journal.Some? ==> s.record && s.storeStill && (s.journal.Written? || s.journal.SyncFailsAfterwards?)
                                && o.payload.components.store.StoreValid?
    ensures o.journal.Some? && s.journal.Written? ==> o.journal == Some(o.payload)
    ensures Accounted(log, OllamaStarted in o.payload.changes, o.payload.blockers)
            || (s.record && !s.storeStill && o.payload.blockers == [CompanyStoreChanged])
            || (s.record && s.journal.StoreChangedAtCommit? && o.payload.blockers == [CompanyStoreChanged])
            || (s.record && s.storeStill && (s.journal.WriteFails? || s.journal.SyncFailsAfterwards?)
                && o.payload.blockers == [ResultJournalWriteFailed])
    ensures o.code == 0 <==> && s.identityReadable && s.lock.LockHeld? && GuardSettles(cfg, a)
                             && (s.record ==> s.storeStill && s.journal.Written?)
    ensures s.identityReadable && s.lock.LockHeld? && CleanupFails(cfg, a) ==>
              && (OllamaCleanupFailed in o.payload.blockers
                  <==> (s.record && a.final.storeSame ==> s.storeStill && s.journal.Written?))
              && (o.journal.Some? <==> s.record && a.final.storeSame && s.storeStill
                                       && (s.journal.Written? || s.journal.SyncFailsAfterwards?))
    ensures s.identityReadable && s.lock.LockBusy? ==>
              o.code == 1 && Turned(o, StoreValid, RuntimeGuardBusy, WaitForRuntimeGuard)
    ensures s.identityReadable && s.lock.LockBroken? ==>
              o.code == 2 && Turned(o, StoreValid, RuntimeGuardLockInvalid, InspectRuntimeGuard)
    ensures !s.identityReadable ==> o.code == 2 && Turned(o, StoreInvalid, CompanyStoreInvalid, InspectCompanyStore)
    ensures s.identityReadable && s.lock.LockHeld? ==>
              if s.record && StoreShownValid(cfg, a) && !(s.storeStill && s.journal.Written?) then SaysNotRecorded(o, s)
              else
                && GuardShows(cfg, a, o.payload) && (forall r :: r in o.payload.blockers <==> GuardFault(cfg, a, r))
                && o.journal == if s.record && StoreShownValid(cfg, a) then Some(o.payload) else None
    ensures Undisturbed(a) && s.identityReadable && s.lock.LockHeld?
            && (s.record ==> s.storeStill && s.journal.Written?) ==>
              o.code == 0 && o.journal.Some? == s.record && o.payload.changes == []
  {
    log := [];
    if !s.identityReadable {
      return Outcome(Early(StoreInvalid, ManifestUnknown, CompanyStoreInvalid, InspectCompanyStore), 2, None,
                     [CompanyStoreInvalid]), log;
    }
    if s.lock.LockBusy? {
      return Outcome(Payload(ActionRequiredStatus, false, EMPTY.(store := StoreValid), [RuntimeGuardBusy],
                             WaitForRuntimeGuard, []), 1, None, []), log;
    }
    if s.lock.LockBroken? {
      return Outcome(Early(StoreValid, ManifestUnknown, RuntimeGuardLockInvalid, InspectRuntimeGuard), 2, None,
                     [RuntimeGuardLockInvalid]), log;
    }
    var inner, code, unclear;
    inner, code, unclear, log := GuardLocked(cfg, a);
    o := Recorded(inner, code, unclear, s);
    RecordingKeepsVerdict(inner, code, unclear, s);
    CleanupReportSurvives(inner, code, unclear, s);
  }

  /** A child that is started, loses its lease, and cannot be terminated. */
  function UnkillableChild(last: Tick, service: ServiceAnswers, final: FinalAnswers): (a: GuardAnswers)
    ensures CleanupFails(Configuration(true, false), a) && a.final == final
  {
    var spawn := SpawnAnswers(DigestMatches, Launched, Launched, LeaseBroken, Answers(false));
    GuardAnswers(true, true, OllamaAnswers(Refused, Refused, PortRefused, true, true, Trusted, spawn, [], last, false),
                 service, final)
  }

  /** Two runs over that child: its cleanup report is there when the result is recorded, and lost when the
      journal cannot be written. */
  method CleanupReportCanBeLost(last: Tick, service: ServiceAnswers, final: FinalAnswers)
    returns (kept: Outcome, lost: Outcome)
    requires final.storeSame
    ensures OllamaCleanupFailed in kept.payload.blockers && kept.journal == Some(kept.payload)
    ensures OllamaCleanupFailed !in lost.payload.blockers && lost.journal.None?
  {
    var cfg, a, log := Configuration(true, false), UnkillableChild(last, service, final), [];
    kept, log := RunGuardOnce(cfg, a, Surroundings(true, LockHeld, true, true, Written));
    lost, log := RunGuardOnce(cfg, a, Surroundings(true, LockHeld, true, true, WriteFails));
  }
}
