/**
 What each focus operation answers, case by case, over a file that can be read, and which files can be.
 */
module FocusAnswers {
  import opened Wrappers
  import opened ExecutionFocus
  import opened FocusSize
  import opened Whitespace

  /** The file is replaced by exactly this record, and the record is the answer. */
  predicate Commits(after: Option<File>, outcome: Outcome, f: Focus) {
    outcome == Committed(f) && after == Some(File(V2(f), EncodedSize(f), EncodedSize(f)))
  }

  /** A set over an enabled record changes nothing: asking for that very record is answered with it, and
      anything else must be a handoff. */
  lemma SetOverEnabled(disk: Option<File>, projectId: string, projectName: string, maxRoles: int, now: Timestamp)
    requires ReadFocus(disk).Ok? && ReadFocus(disk).value.enabled
    ensures var f := ReadFocus(disk).value;
            var (after, outcome) := Perform(disk, SetFocus(projectId, projectName, maxRoles), now);
            && after == disk
            && (outcome == Unchanged(f) <==> Carries(f, projectId, projectName, maxRoles))
            && (outcome == Refused(HandoffRequired) <==> !Carries(f, projectId, projectName, maxRoles))
  {
  }

  /** A set over a disabled record enables it, with the handoff it holds, or is refused for what it names or
      for its size. */
  lemma SetOverDisabled(disk: Option<File>, projectId: string, projectName: string, maxRoles: int, now: Timestamp)
    requires ReadFocus(disk).Ok? && !ReadFocus(disk).value.enabled
    ensures var f := ReadFocus(disk).value;
            var (after, outcome) := Perform(disk, SetFocus(projectId, projectName, maxRoles), now);
            if !Names(projectId, projectName, maxRoles) then outcome == Refused(RecordInvalid) && after == disk
            else if !SetFits(f, projectName, now) then outcome == Refused(RecordTooLarge) && after == disk
            else Commits(after, outcome, Focus(f.revision + 1, true, Some(projectId), Some(projectName), maxRoles,
                                               Some(now), f.handoff))
  {
    SetOutcome(ReadFocus(disk).value, projectId, projectName, maxRoles, now);
  }

  /** The first checks of a handoff and of a clear. */
  lemma FirstChecks(op: Operation)
    ensures op.SetFocus? ==> Precheck(op).None?
    ensures !op.SetFocus? ==> (Precheck(op) == Some(BadDigest) <==> !IsDigestShape(op.expected))
    ensures op.HandoffFocus? ==> (Precheck(op) == Some(BadReason) <==>
                                    IsDigestShape(op.expected) && !(IsReasonShape(op.reason) && !HasControl(op.reason)))
    ensures op.ClearFocus? ==>
              (Precheck(op) == Some(BadReason) <==> IsDigestShape(op.expected) && !IsReasonShape(op.reason))
    ensures Precheck(op).None? || Precheck(op) == Some(BadDigest) || Precheck(op) == Some(BadReason)
  {
  }

  /** A handoff that passes its first checks. */
  lemma HandoffAnswers(disk: Option<File>, op: Operation, now: Timestamp)
    requires ReadFocus(disk).Ok? && op.HandoffFocus? && Precheck(op).None?
    ensures var f := ReadFocus(disk).value;
            var (after, outcome) := Perform(disk, op, now);
            if op.expected != Sha256Of(f) then outcome == Refused(FocusChanged) && after == disk
            else if !f.enabled || f.projectId != Some(op.fromProjectId) then
              outcome == Refused(SourceNotActive) && after == disk
            else if op.toProjectId == op.fromProjectId then outcome == Refused(SameTarget) && after == disk
            else if !Names(op.toProjectId, op.toProjectName, op.maxRoles) then
              outcome == Refused(RecordInvalid) && after == disk
            else if !HandoffFits(f, op.toProjectName, op.reason, now) then
              outcome == Refused(RecordTooLarge) && after == disk
            else
              Commits(after, outcome,
                      Focus(f.revision + 1, true, Some(op.toProjectId), Some(op.toProjectName), op.maxRoles, Some(now),
                            Some(Handoff(op.fromProjectId, f.projectName.value, op.reason, Sha256Of(f), Some(now)))))
  {
    var f := ReadFocus(disk).value;
    if op.expected == Sha256Of(f) && f.enabled && f.projectId == Some(op.fromProjectId)
       && op.toProjectId != op.fromProjectId {
      HandoffOutcome(f, op, now);
    }
  }

  /** A clear that passes its first checks. */
  lemma ClearAnswers(disk: Option<File>, op: Operation, now: Timestamp)
    requires ReadFocus(disk).Ok? && op.ClearFocus? && Precheck(op).None?
    ensures var f := ReadFocus(disk).value;
            var (after, outcome) := Perform(disk, op, now);
            if op.expected != Sha256Of(f) then outcome == Refused(FocusChanged) && after == disk
            else if !f.enabled then outcome == Unchanged(f) && after == disk
            else if HasControl(op.reason) then outcome == Refused(RecordInvalid) && after == disk
            else if !ClearFits(f, op.reason, now) then outcome == Refused(RecordTooLarge) && after == disk
            else
              Commits(after, outcome,
                      Focus(f.revision + 1, false, None, None, 0, Some(now),
                            Some(Handoff(f.projectId.value, f.projectName.value, op.reason, Sha256Of(f), Some(now)))))
  {
    var f := ReadFocus(disk).value;
    if op.expected == Sha256Of(f) && f.enabled {
      ClearOutcome(f, op.reason, now);
    }
  }

  /** Over a file that cannot be read, or after a first check that fails, nothing happens. */
  lemma OtherAnswers(disk: Option<File>, op: Operation, now: Timestamp)
    requires Precheck(op).Some? || ReadFocus(disk).Err?
    ensures Perform(disk, op, now) ==
            (disk, Refused(if Precheck(op).Some? then Precheck(op).value else ReadFocus(disk).error))
  {
  }

  // ----- which records can be read -----

  predicate IsTwelveHex(s: string) {
    |s| == 12 && forall i :: 0 <= i < 12 ==> s[i] in "0123456789abcdef"
  }

  predicate IsShortName(s: string) {
    1 <= |s| <= 80 && !IsSpace(s[0]) && !IsSpace(s[|s| - 1])
  }

  predicate IsPlainReason(s: string) {
    && 8 <= |s| <= 240 && !IsSpace(s[0]) && !IsSpace(s[|s| - 1])
    && forall i :: 0 <= i < |s| ==> s[i] >= '\U{20}' && s[i] != '\U{7f}'
  }

  predicate IsDigestText(s: string) {
    |s| == 71 && "sha256:" <= s && forall i :: 7 <= i < 71 ==> s[i] in "0123456789abcdef"
  }

  /** The handoff field of a record that can be read. */
  predicate TellsDeparture(h: Handoff) {
    && IsTwelveHex(h.fromProjectId) && IsShortName(h.fromProjectName) && IsPlainReason(h.reason)
    && (h.priorFocusDigest.DigestText? ==> IsDigestText(h.priorFocusDigest.text))
  }

  lemma HexDigits(s: string)
    ensures IsHex(s) <==> forall i :: 0 <= i < |s| ==> s[i] in "0123456789abcdef"
  {
  }

  lemma DigestTexts(t: string)
    ensures IsDigestShape(DigestText(t)) <==> IsDigestText(t)
  {
    if |t| == 71 {
      HexDigits(t[7..]);
      assert forall i :: 7 <= i < 71 ==> t[i] == t[7..][i - 7];
      assert forall i :: 0 <= i < 64 ==> t[7..][i] == t[i + 7];
      assert t[..7] == "sha256:" <==> "sha256:" <= t;
    }
  }

  lemma DeparturesExactly(h: Handoff)
    ensures ValidHandoff(h) <==> TellsDeparture(h)
  {
    HexDigits(h.fromProjectId);
    if h.priorFocusDigest.DigestText? {
      DigestTexts(h.priorFocusDigest.text);
    }
  }

  /** Which files of the current contract can be read, field by field; each reads as its own record. */
  lemma CurrentRecords(f: Focus)
    ensures Normalize(V2(f)) == Some(f) || Normalize(V2(f)) == None
    ensures Normalize(V2(f)).Some? <==>
              && f.revision >= 0
              && (f.handoff.Some? ==> TellsDeparture(f.handoff.value))
              && (f.enabled ==>
                    && f.projectId.Some? && IsTwelveHex(f.projectId.value)
                    && f.projectName.Some? && IsShortName(f.projectName.value)
                    && f.maxRoles in {1, 2, 3, 4, 5, 6} && f.updatedAt.Some?)
              && (!f.enabled ==> f.projectId.None? && f.projectName.None? && f.maxRoles == 0)
  {
    if f.handoff.Some? {
      DeparturesExactly(f.handoff.value);
    }
    if f.projectId.Some? {
      HexDigits(f.projectId.value);
    }
  }

  /** A file of the older contract reads as the current one with the same project, name, roles and time: at
      revision 1 when enabled, at revision 0 when not, and in both cases without a handoff. */
  lemma OlderRecords(s: Stored)
    requires s.V1?
    ensures Normalize(s) == if s.enabled then
                                Normalize(V2(Focus(1, true, s.projectId, s.projectName, s.maxRoles,
                                                   s.updatedAt, None)))
                              else
                                Normalize(V2(Focus(0, false, s.projectId, s.projectName, s.maxRoles,
                                                   s.updatedAt, None)))
  {
  }
}
