/**
 The vocabulary the three verdict scripts share: statuses, recommended actions, and the map the
 guard and the supervisor use to translate a readiness action.
 */
module Verdicts {
  import opened Wrappers

  datatype Status = ReadyStatus | RecoveredStatus | ActionRequiredStatus | IndeterminateStatus

  datatype Action =
    | NoAction
    | AlignCompanyHome | InspectBuildProvenance | InspectCompanyHomeSelection | InspectDiskManifest
    | InspectLocalService | InspectLocalWork | InspectOllamaService | InstallConfiguredModel
    | RelaunchServiceWithOllamaModel | RestartLocalService | RetryReadiness | StartOllamaLocally
    | StartWorkerEnabledService | UseSupportedLlamaModel | FixModelName
    | InspectCompanyStore | InspectBuildManifest | RelaunchServiceManually | RestartLocalServiceManually
    | RetryRuntimeGuard | StartOllamaManually | InspectLocalRuntime | MigrateLegacyService
    | ConfigureOllamaExecutablePin | StartLocalServiceManually | WaitForRuntimeGuard | InspectRuntimeGuard
    | FixCommandArguments | InspectRuntimeSupervisor | InstallRuntimeGuardTask | EnableRuntimeGuardTask
    | WaitForRuntimeGuardTask | RunRuntimeGuardTask | InspectRuntimeGuardTask | RetryRuntimeSupervisor
    | OtherAction

  /** READINESS_ACTION_MAP. */
  function MapReadiness(a: Action): (r: Option<Action>)
    ensures r != Some(NoAction)
  {
    match a
    case AlignCompanyHome => Some(InspectCompanyStore)
    case InspectBuildProvenance => Some(InspectBuildManifest)
    case InspectCompanyHomeSelection => Some(InspectCompanyStore)
    case InspectDiskManifest => Some(InspectBuildManifest)
    case InspectLocalService => Some(InspectLocalService)
    case InspectLocalWork => Some(InspectLocalWork)
    case InspectOllamaService => Some(InspectOllamaService)
    case InstallConfiguredModel => Some(InstallConfiguredModel)
    case RelaunchServiceWithOllamaModel => Some(RelaunchServiceManually)
    case RestartLocalService => Some(RestartLocalServiceManually)
    case RetryReadiness => Some(RetryRuntimeGuard)
    case StartOllamaLocally => Some(StartOllamaManually)
    case StartWorkerEnabledService => Some(RelaunchServiceManually)
    case UseSupportedLlamaModel => Some(UseSupportedLlamaModel)
    case _ => None
  }

  /** The actions a supervisor result may carry. */
  predicate IsFinalAction(a: Action) {
    || a in {NoAction, FixCommandArguments, InspectRuntimeSupervisor, InspectBuildManifest, InspectCompanyStore}
    || a in {InstallRuntimeGuardTask, EnableRuntimeGuardTask, WaitForRuntimeGuardTask, RunRuntimeGuardTask}
    || a in {InspectRuntimeGuardTask, InspectRuntimeGuard, InspectOllamaService, RetryRuntimeSupervisor}
    || a in {InspectLocalService, InspectLocalWork, InstallConfiguredModel, RelaunchServiceManually}
    || a in {RestartLocalServiceManually, RetryRuntimeGuard, StartOllamaManually, UseSupportedLlamaModel}
  }

  /** Every other action is one that only the readiness script or only the guard gives. */
  lemma FinalActions(a: Action)
    ensures IsFinalAction(a) <==>
            && a !in {AlignCompanyHome, InspectBuildProvenance, InspectCompanyHomeSelection, InspectDiskManifest}
            && a !in {RelaunchServiceWithOllamaModel, RestartLocalService, RetryReadiness, StartOllamaLocally}
            && a !in {StartWorkerEnabledService, FixModelName, InspectLocalRuntime, MigrateLegacyService}
            && a !in {ConfigureOllamaExecutablePin, StartLocalServiceManually, WaitForRuntimeGuard, OtherAction}
  {
  }

  /** Which readiness actions become which: five keep their name, the others are merged or renamed, and an
      unknown model name is no concern of the guard. */
  lemma ReadinessActions(a: Action)
    ensures MapReadiness(a) == Some(a) <==>
            a in {InspectLocalService, InspectLocalWork, InspectOllamaService, InstallConfiguredModel,
                  UseSupportedLlamaModel}
    ensures MapReadiness(a) == Some(InspectCompanyStore) <==> a.AlignCompanyHome? || a.InspectCompanyHomeSelection?
    ensures MapReadiness(a) == Some(InspectBuildManifest) <==> a.InspectBuildProvenance? || a.InspectDiskManifest?
    ensures MapReadiness(a) == Some(RelaunchServiceManually) <==>
            a.RelaunchServiceWithOllamaModel? || a.StartWorkerEnabledService?
    ensures MapReadiness(a) == Some(RestartLocalServiceManually) <==> a.RestartLocalService?
    ensures MapReadiness(a) == Some(RetryRuntimeGuard) <==> a.RetryReadiness?
    ensures MapReadiness(a) == Some(StartOllamaManually) <==> a.StartOllamaLocally?
    ensures a.FixModelName? ==> MapReadiness(a).None?
  {
  }

  lemma MappedActionsAreFinal(a: Action)
    requires MapReadiness(a).Some?
    ensures IsFinalAction(MapReadiness(a).value)
  {
  }

  /** The first occurrence of each value, in order. */
  function Unique<T(==,!new)>(s: seq<T>): (r: seq<T>)
    ensures forall x :: x in r <==> x in s
    ensures |r| <= |s|
    ensures forall i, j :: 0 <= i < j < |r| ==> r[i] != r[j]
  {
    if s == [] then []
    else
      var n := |s| - 1;
      var shorter := Unique(s[..n]);
      assert s == s[..n] + [s[n]];
      if s[n] in s[..n] then shorter else shorter + [s[n]]
  }

  /** Where a value occurs first. */
  function First<T(==)>(s: seq<T>, x: T): (r: nat)
    requires x in s
    ensures r < |s| && s[r] == x && x !in s[..r]
  {
    if s[0] == x then 0
    else
      assert s == [s[0]] + s[1..];
      var r := First(s[1..], x);
      assert s[..r + 1] == [s[0]] + s[1..][..r];
      r + 1
  }

  lemma {:induction false} FirstInPrefix<T>(s: seq<T>, n: nat, x: T)
    requires n <= |s| && x in s[..n]
    ensures First(s, x) == First(s[..n], x) < n
  {
    assert s[..n][0] == s[0];
    if s[0] != x {
      assert s[..n][1..] == s[1..][..n - 1];
      assert s[..n] == [s[0]] + s[1..][..n - 1];
      FirstInPrefix(s[1..], n - 1, x);
    }
  }

  lemma EarlyMeansPrefix<T>(s: seq<T>, n: nat, x: T)
    requires n <= |s| && x in s
    ensures First(s, x) < n ==> x in s[..n]
  {
    var r := First(s, x);
    assert r < n ==> s[..n][r] == x;
  }

  /** The values stand in the order of their first occurrences. */
  lemma {:induction false} UniqueInOrder<T(!new)>(s: seq<T>, i: nat, j: nat)
    requires i < j < |Unique(s)|
    ensures First(s, Unique(s)[i]) < First(s, Unique(s)[j])
    decreases |s|
  {
    var n := |s| - 1;
    var shorter := Unique(s[..n]);
    assert s == s[..n] + [s[n]];
    assert shorter[i] == Unique(s)[i] && shorter[i] in s[..n];
    FirstInPrefix(s, n, shorter[i]);
    if j < |shorter| {
      UniqueInOrder(s[..n], i, j);
      assert shorter[j] in s[..n];
      FirstInPrefix(s, n, shorter[j]);
    } else {
      assert Unique(s)[j] == s[n];
      EarlyMeansPrefix(s, n, s[n]);
    }
  }
}
