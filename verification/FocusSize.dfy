/**
 When the record an operation writes fits the size limit of its file, and when it does not.
 */
module FocusSize {
  import opened Wrappers
  import opened Whitespace
  import opened ExecutionFocus
  import opened FocusText

  /** The bytes a cleared record leaves for its revision, the name and reason of its handoff, and its
      two times. */
  const ROOM := 3584

  function ClearNeeds(current: Focus, reason: string, now: Timestamp): nat
    requires current.projectName.Some?
  {
    DecimalLength(current.revision + 1) + EscapedLength(current.projectName.value) + EscapedLength(reason)
    + 2 * EscapedLength(now)
  }

  predicate ClearFits(current: Focus, reason: string, now: Timestamp)
    requires current.projectName.Some?
  {
    ClearNeeds(current, reason, now) <= ROOM
  }

  lemma ClearedSize(current: Focus, reason: string, now: Timestamp)
    requires Valid(current) && current.enabled
    ensures EncodedSize(Disabled(Some(now), current.revision + 1, Some(Departure(current, reason, now))))
            == MAX_BYTES - ROOM + ClearNeeds(current, reason, now)
  {
    PlainLength(current.projectId.value);
    assert DecimalLength(0) == 1;
  }

  /** A clear that is bound to the current digest and has passed its first checks still fails in two
      ways: a control character in its reason, and, exactly when revision, name, reason and times do
      not fit the record's limit, its size. */
  lemma ClearOutcome(current: Focus, reason: string, now: Timestamp)
    requires Valid(current) && current.enabled && IsReasonShape(reason)
    ensures var d := Decide(ClearFocus(Sha256Of(current), reason), current, now);
            && (d.Write? <==> !HasControl(reason) && ClearFits(current, reason, now))
            && (d == Refuse(RecordInvalid) <==> HasControl(reason))
            && (d == Refuse(RecordTooLarge) <==> !HasControl(reason) && !ClearFits(current, reason, now))
  {
    ClearedSize(current, reason, now);
    assert ValidHandoff(Departure(current, reason, now)) <==> !HasControl(reason);
  }

  /** What names a focus: a project, its name, and a number of roles. */
  predicate Names(projectId: string, projectName: string, maxRoles: int) {
    IsProjectId(projectId) && IsName(projectName) && 1 <= maxRoles <= MAX_ROLES
  }

  /** A set adds to a disabled record at least its new name and seven bytes, and changes the time. */
  predicate SetFits(current: Focus, projectName: string, now: Timestamp) {
    EncodedSize(current) + DecimalLength(current.revision + 1) - DecimalLength(current.revision)
    + 7 + EscapedLength(projectName) + TextSize(now) - OptionalTextSize(current.updatedAt) <= MAX_BYTES
  }

  lemma SetOutcome(current: Focus, projectId: string, projectName: string, maxRoles: int, now: Timestamp)
    requires Valid(current) && !current.enabled
    ensures var d := Decide(SetFocus(projectId, projectName, maxRoles), current, now);
            && (d.Write? <==> Names(projectId, projectName, maxRoles) && SetFits(current, projectName, now))
            && (d == Refuse(RecordInvalid) <==> !Names(projectId, projectName, maxRoles))
            && (d == Refuse(RecordTooLarge) <==>
                  Names(projectId, projectName, maxRoles) && !SetFits(current, projectName, now))
  {
    if IsProjectId(projectId) {
      PlainLength(projectId);
    }
    assert DecimalLength(0) == 1 && (1 <= maxRoles <= 6 ==> DecimalLength(maxRoles) == 1);
  }

  predicate HandoffFits(current: Focus, toName: string, reason: string, now: Timestamp)
    requires current.projectName.Some?
  {
    DecimalLength(current.revision + 1) + EscapedLength(current.projectName.value) + EscapedLength(toName)
    + EscapedLength(reason) + 2 * EscapedLength(now) <= ROOM - 7
  }

  lemma HandoffSizes(current: Focus, op: Operation, now: Timestamp)
    requires Valid(current) && current.enabled && op.HandoffFocus?
    requires Names(op.toProjectId, op.toProjectName, op.maxRoles)
    ensures EncodedSize(Focus(current.revision + 1, true, Some(op.toProjectId), Some(op.toProjectName), op.maxRoles,
                              Some(now), Some(Departure(current, op.reason, now)))) <= MAX_BYTES
            <==> HandoffFits(current, op.toProjectName, op.reason, now)
  {
    PlainLength(current.projectId.value);
    PlainLength(op.toProjectId);
    assert DecimalLength(op.maxRoles) == 1;
  }

  /** A handoff that is bound to the current digest, leaves the active project for another one and has
      passed its first checks is written exactly when it names a focus and its record fits. */
  lemma HandoffOutcome(current: Focus, op: Operation, now: Timestamp)
    requires Valid(current) && current.enabled && op.HandoffFocus? && Precheck(op).None?
    requires op.expected == Sha256Of(current) && current.projectId == Some(op.fromProjectId)
    requires op.toProjectId != op.fromProjectId
    ensures var d := Decide(op, current, now);
            var named := Names(op.toProjectId, op.toProjectName, op.maxRoles);
            && (d.Write? <==> named && HandoffFits(current, op.toProjectName, op.reason, now))
            && (d == Refuse(RecordInvalid) <==> !named)
            && (d == Refuse(RecordTooLarge) <==> named && !HandoffFits(current, op.toProjectName, op.reason, now))
  {
    assert ValidHandoff(Departure(current, op.reason, now));
    if Names(op.toProjectId, op.toProjectName, op.maxRoles) {
      HandoffSizes(current, op, now);
    }
  }

  /** A text outside the basic plane: each character takes two escaped code units. */
  predicate IsWide(s: string) {
    forall i :: 0 <= i < |s| ==> s[i] >= '\U{10000}'
  }

  lemma {:induction false} WideLength(s: string)
    requires IsWide(s)
    ensures EscapedLength(s) == 12 * |s|
  {
    if s != "" {
      WideLength(s[1..]);
    }
  }

  const GRIN: char := '\U{1F600}'

  lemma WideTexts(s: string)
    requires IsWide(s)
    ensures IsStripped(s) && !HasControl(s) && EscapedLength(s) == 12 * |s|
  {
    WideLength(s);
  }

  /** A clear that fails for its size: 80 characters outside the basic plane in the name and 240 in
      the reason, at any time. */
  lemma WideClearIsTooLarge(current: Focus, reason: string, now: Timestamp)
    requires Valid(current) && current.enabled
    requires IsWide(current.projectName.value) && |current.projectName.value| == 80
    requires IsWide(reason) && |reason| == 240
    ensures Precheck(ClearFocus(Sha256Of(current), reason)).None?
    ensures Decide(ClearFocus(Sha256Of(current), reason), current, now) == Refuse(RecordTooLarge)
  {
    WideTexts(current.projectName.value);
    WideTexts(reason);
    ClearOutcome(current, reason, now);
  }

  /** Such a focus exists. */
  lemma ClearCanBeTooLarge(id: string, name: string, now: Timestamp)
    requires IsProjectId(id) && name == Repeated(GRIN, 80)
    ensures var current := Focus(1, true, Some(id), Some(name), 1, Some(now), None);
            && Valid(current) && IsWide(name) && |name| == 80
            && exists reason :: Precheck(ClearFocus(Sha256Of(current), reason)).None?
                                && Decide(ClearFocus(Sha256Of(current), reason), current, now) == Refuse(RecordTooLarge)
  {
    var current := Focus(1, true, Some(id), Some(name), 1, Some(now), None);
    WideTexts(name);
    var reason := Repeated(GRIN, 240);
    WideClearIsTooLarge(current, reason, now);
  }

  /** With a printable reason and a revision of at most a thousand digits a focus can always be cleared,
      whatever names and earlier handoff its record carries. */
  lemma ClearAlwaysFits(current: Focus, reason: string, now: Timestamp)
    requires Valid(current) && current.enabled
    requires DecimalLength(current.revision + 1) <= 1000
    requires IsReasonShape(reason) && (forall i :: 0 <= i < |reason| ==> ' ' <= reason[i] <= '~')
    requires forall i :: 0 <= i < |now| ==> ' ' <= now[i] <= '~'
    ensures Decide(ClearFocus(Sha256Of(current), reason), current, now).Write?
  {
    assert !HasControl(reason);
    ClearOutcome(current, reason, now);
  }
}
