/**
 The durable execution-focus record: its validation, its digest, its size on disk,
 and the three digest-bound operations that replace it.

 A digest is symbolic: `Sha256Of(f)` equals another digest only when the records are equal.
 This is the collision-freedom the protocol relies on.
 */
module ExecutionFocus {
  import opened Wrappers
  import opened Whitespace

  const MAX_BYTES := 4096
  const MAX_ROLES := 6

  datatype Digest = Sha256Of(focus: Focus) | DigestText(text: string)

  datatype Handoff = Handoff(
    fromProjectId: string, fromProjectName: string, reason: string,
    priorFocusDigest: Digest, authorizedAt: Option<Timestamp>)

  datatype Focus = Focus(
    revision: int, enabled: bool, projectId: Option<string>, projectName: Option<string>,
    maxRoles: int, updatedAt: Option<Timestamp>, handoff: Option<Handoff>)

  /** A time text of at most 40 characters that survives the isoformat round trip. */
  type Timestamp = s: string | |s| <= 40

  // ----- text checks -----

  predicate IsHex(s: string) {
    forall i :: 0 <= i < |s| ==> '0' <= s[i] <= '9' || 'a' <= s[i] <= 'f'
  }

  predicate IsProjectId(s: string) {
    |s| == 12 && IsHex(s)
  }

  predicate IsName(s: string) {
    s != "" && IsStripped(s) && |s| <= 80
  }

  predicate HasControl(s: string) {
    exists i :: 0 <= i < |s| && (s[i] < ' ' || s[i] == '\U{7f}')
  }

  predicate IsReasonShape(s: string) {
    IsStripped(s) && 8 <= |s| <= 240
  }

  predicate IsDigestShape(d: Digest) {
    match d
    case Sha256Of(_) => true
    case DigestText(t) => |t| == 71 && t[..7] == "sha256:" && IsHex(t[7..])
  }

  // ----- validation -----

  predicate ValidHandoff(h: Handoff) {
    && IsProjectId(h.fromProjectId) && IsName(h.fromProjectName)
    && IsReasonShape(h.reason) && !HasControl(h.reason) && IsDigestShape(h.priorFocusDigest)
  }

  predicate Valid(f: Focus) {
    && f.revision >= 0
    && (f.handoff.Some? ==> ValidHandoff(f.handoff.value))
    && if f.enabled then
         && f.projectId.Some? && IsProjectId(f.projectId.value)
         && f.projectName.Some? && IsName(f.projectName.value)
         && 1 <= f.maxRoles <= MAX_ROLES && f.updatedAt.Some?
       else
         f.projectId.None? && f.projectName.None? && f.maxRoles == 0
  }

  function Disabled(updatedAt: Option<Timestamp>, revision: int, handoff: Option<Handoff>): Focus {
    Focus(revision, false, None, None, 0, updatedAt, handoff)
  }

  // ----- size of the indented ASCII JSON text -----

  function CharSize(c: char): (n: nat)
    ensures 1 <= n <= 12
    ensures ' ' <= c <= '~' ==> n <= 2
  {
    if c in "\"\\\n\r\t" || c == '\U{8}' || c == '\U{c}' then 2
    else if ' ' <= c <= '~' then 1
    else if c < '\U{10000}' then 6
    else 12
  }

  function EscapedLength(s: string): (n: nat)
    ensures |s| <= n <= 12 * |s|
    ensures (forall i :: 0 <= i < |s| ==> ' ' <= s[i] <= '~') ==> n <= 2 * |s|
  {
    if s == "" then 0 else CharSize(s[0]) + EscapedLength(s[1..])
  }

  function TextSize(s: string): nat {
    2 + EscapedLength(s)
  }

  function OptionalTextSize(s: Option<string>): nat {
    if s.None? then 4 else TextSize(s.value)
  }

  function DecimalLength(n: int): (d: nat)
    ensures d >= 1
    decreases if n < 0 then 1 - n else n
  {
    if n < 0 then 1 + DecimalLength(-n)
    else if n < 10 then 1
    else 1 + DecimalLength(n / 10)
  }

  function DigestSize(d: Digest): nat {
    match d
    case Sha256Of(_) => 73
    case DigestText(t) => TextSize(t)
  }

  function HandoffSize(h: Handoff): nat {
    116 + TextSize(h.fromProjectId) + TextSize(h.fromProjectName) + TextSize(h.reason)
    + DigestSize(h.priorFocusDigest) + OptionalTextSize(h.authorizedAt)
  }

  function EncodedSize(f: Focus): (n: nat)
    ensures n > 2
  {
    287 + DecimalLength(f.revision) + (if f.enabled then 4 else 5)
    + OptionalTextSize(f.projectId) + OptionalTextSize(f.projectName)
    + DecimalLength(f.maxRoles) + OptionalTextSize(f.updatedAt)
    + (if f.handoff.None? then 4 else HandoffSize(f.handoff.value))
  }

  // ----- the file and how it is read -----

  /** What a file's text decodes to: the older contract, the current one, or neither. */
  datatype Stored =
    | V1(enabled: bool, projectId: Option<string>, projectName: Option<string>,
         maxRoles: int, updatedAt: Option<Timestamp>)
    | V2(focus: Focus)
    | Other

  /** A file of `size` bytes of which the first `written` have reached it. */
  datatype File = File(content: Stored, size: nat, written: nat)

  function Normalize(s: Stored): (r: Option<Focus>)
    ensures r.Some? ==> Valid(r.value)
  {
    match s
    case Other => None
    case V2(f) => if Valid(f) then Some(f) else None
    case V1(enabled, projectId, projectName, maxRoles, updatedAt) =>
      var f := Focus(if enabled then 1 else 0, enabled, projectId, projectName, maxRoles, updatedAt, None);
      if Valid(f) then Some(f) else None
  }

  function ReadFocus(disk: Option<File>): (r: Result<Focus, Refusal>)
    ensures r.Ok? ==> Valid(r.value)
  {
    if disk.None? then Ok(Disabled(None, 0, None))
    else if disk.value.size < 2 || disk.value.size > MAX_BYTES then Err(FileSizeInvalid)
    else if disk.value.written != disk.value.size then Err(FileInvalid)
    else
      match Normalize(disk.value.content)
      case None => Err(FileInvalid)
      case Some(f) => Ok(f)
  }

  /** No file reads as the disabled record of revision 0; a file reads as its record exactly when it is
      whole, within the size limits and valid. */
  lemma ReadsWholeFiles(disk: Option<File>)
    ensures disk.None? ==> ReadFocus(disk) == Ok(Disabled(None, 0, None)) && Valid(ReadFocus(disk).value)
    ensures disk.Some? ==>
              var file := disk.value;
              && (ReadFocus(disk).Ok? <==>
                    2 <= file.size <= MAX_BYTES && file.written == file.size && Normalize(file.content).Some?)
              && (ReadFocus(disk).Ok? ==> Some(ReadFocus(disk).value) == Normalize(file.content))
  {
  }

  // ----- the operations -----

  datatype Operation =
    | SetFocus(projectId: string, projectName: string, maxRoles: int)
    | HandoffFocus(fromProjectId: string, toProjectId: string, toProjectName: string,
                   maxRoles: int, expected: Digest, reason: string)
    | ClearFocus(expected: Digest, reason: string)

  datatype Refusal =
    | BadDigest | BadReason | Busy | FocusChanged | SourceNotActive | SameTarget
    | HandoffRequired | RecordInvalid | RecordTooLarge | FileInvalid | FileSizeInvalid

  datatype Decision = Write(next: Focus) | Keep(current: Focus) | Refuse(why: Refusal)

  /** The checks made before the lock is taken. */
  function Precheck(op: Operation): Option<Refusal> {
    match op
    case SetFocus(_, _, _) => None
    case HandoffFocus(_, _, _, _, expected, reason) =>
      if !IsDigestShape(expected) then Some(BadDigest)
      else if !IsReasonShape(reason) || HasControl(reason) then Some(BadReason)
      else None
    case ClearFocus(expected, reason) =>
      if !IsDigestShape(expected) then Some(BadDigest)
      else if !IsReasonShape(reason) then Some(BadReason)
      else None
  }

  function Departure(current: Focus, reason: string, now: Timestamp): Handoff
    requires current.projectId.Some? && current.projectName.Some?
  {
    Handoff(current.projectId.value, current.projectName.value, reason, Sha256Of(current), Some(now))
  }

  function CheckedWrite(next: Focus): Decision {
    if !Valid(next) then Refuse(RecordInvalid)
    else if EncodedSize(next) > MAX_BYTES then Refuse(RecordTooLarge)
    else Write(next)
  }

  /** What an operation does with the record it read under the lock. */
  function Decide(op: Operation, current: Focus, now: Timestamp): Decision
    requires Valid(current)
  {
    match op
    case SetFocus(projectId, projectName, maxRoles) =>
      if current.enabled then
        if current.projectId == Some(projectId) && current.projectName == Some(projectName)
           && current.maxRoles == maxRoles
        then Keep(current)
        else Refuse(HandoffRequired)
      else
        CheckedWrite(Focus(current.revision + 1, true, Some(projectId), Some(projectName),
                           maxRoles, Some(now), current.handoff))
    case HandoffFocus(fromProjectId, toProjectId, toProjectName, maxRoles, expected, reason) =>
      if Sha256Of(current) != expected then Refuse(FocusChanged)
      else if !current.enabled || current.projectId != Some(fromProjectId) then Refuse(SourceNotActive)
      else if toProjectId == fromProjectId then Refuse(SameTarget)
      else
        CheckedWrite(Focus(current.revision + 1, true, Some(toProjectId), Some(toProjectName),
                           maxRoles, Some(now), Some(Departure(current, reason, now))))
    case ClearFocus(expected, reason) =>
      if Sha256Of(current) != expected then Refuse(FocusChanged)
      else if !current.enabled then Keep(current)
      else
        CheckedWrite(Disabled(Some(now), current.revision + 1, Some(Departure(current, reason, now))))
  }

  datatype Outcome = Committed(focus: Focus) | Unchanged(focus: Focus) | Refused(why: Refusal)

  /** One whole operation on a file nobody else touches. */
  function Perform(disk: Option<File>, op: Operation, now: Timestamp): (Option<File>, Outcome) {
    if Precheck(op).Some? then (disk, Refused(Precheck(op).value))
    else
      match ReadFocus(disk)
      case Err(why) => (disk, Refused(why))
      case Ok(current) =>
        match Decide(op, current, now)
        case Write(next) => (Some(File(V2(next), EncodedSize(next), EncodedSize(next))), Committed(next))
        case Keep(f) => (disk, Unchanged(f))
        case Refuse(why) => (disk, Refused(why))
  }

  /** What the file of a company home holds, changed in place by the three operations. */
  class FocusHome {
    var disk: Option<File>

    constructor ()
      ensures disk == None
    {
      disk := None;
    }

    method Publish(next: Focus) returns (r: Outcome)
      requires Valid(next)
      modifies this`disk
      ensures EncodedSize(next) > MAX_BYTES ==> r == Refused(RecordTooLarge) && disk == old(disk)
      ensures EncodedSize(next) <= MAX_BYTES ==> r == Committed(next) && ReadFocus(disk) == Ok(next)
      ensures EncodedSize(next) <= MAX_BYTES ==> disk == Some(File(V2(next), EncodedSize(next), EncodedSize(next)))
    {
      var size := EncodedSize(next);
      if size > MAX_BYTES {
        return Refused(RecordTooLarge);
      }
      var temporary := File(V2(next), size, size);
      disk := Some(temporary);
      r := Committed(next);
    }

    method SetExecutionFocus(projectId: string, projectName: string, maxRoles: int, now: Timestamp)
      returns (r: Outcome)
      modifies this`disk
      ensures (disk, r) == Perform(old(disk), SetFocus(projectId, projectName, maxRoles), now)
    {
      var read := ReadFocus(disk);
      if read.Err? {
        return Refused(read.error);
      }
      var current := read.value;
      if current.enabled {
        if current.projectId == Some(projectId) && current.projectName == Some(projectName)
           && current.maxRoles == maxRoles {
          return Unchanged(current);
        }
        return Refused(HandoffRequired);
      }
      var next := Focus(current.revision + 1, true, Some(projectId), Some(projectName),
                        maxRoles, Some(now), current.handoff);
      if !Valid(next) {
        return Refused(RecordInvalid);
      }
      r := Publish(next);
    }

    method HandoffExecutionFocus(
      fromProjectId: string, toProjectId: string, toProjectName: string, maxRoles: int,
      expected: Digest, reason: string, now: Timestamp) returns (r: Outcome)
      modifies this`disk
      ensures (disk, r) == Perform(old(disk),
                HandoffFocus(fromProjectId, toProjectId, toProjectName, maxRoles, expected, reason), now)
    {
      if !IsDigestShape(expected) {
        return Refused(BadDigest);
      }
      if !IsReasonShape(reason) || HasControl(reason) {
        return Refused(BadReason);
      }
      var read := ReadFocus(disk);
      if read.Err? {
        return Refused(read.error);
      }
      var current := read.value;
      if Sha256Of(current) != expected {
        return Refused(FocusChanged);
      }
      if !current.enabled || current.projectId != Some(fromProjectId) {
        return Refused(SourceNotActive);
      }
      if toProjectId == fromProjectId {
        return Refused(SameTarget);
      }
      var next := Focus(current.revision + 1, true, Some(toProjectId), Some(toProjectName),
                        maxRoles, Some(now), Some(Departure(current, reason, now)));
      if !Valid(next) {
        return Refused(RecordInvalid);
      }
      r := Publish(next);
    }

    method ClearExecutionFocus(expected: Digest, reason: string, now: Timestamp) returns (r: Outcome)
      modifies this`disk
      ensures (disk, r) == Perform(old(disk), ClearFocus(expected, reason), now)
    {
      if !IsDigestShape(expected) {
        return Refused(BadDigest);
      }
      if !IsReasonShape(reason) {
        return Refused(BadReason);
      }
      var read := ReadFocus(disk);
      if read.Err? {
        return Refused(read.error);
      }
      var current := read.value;
      if Sha256Of(current) != expected {
        return Refused(FocusChanged);
      }
      if !current.enabled {
        return Unchanged(current);
      }
      var next := Disabled(Some(now), current.revision + 1, Some(Departure(current, reason, now)));
      if !Valid(next) {
        return Refused(RecordInvalid);
      }
      r := Publish(next);
    }
  }

  // ----- facts about one operation -----

  /** The record is enabled for this project, name and number of roles. */
  predicate Carries(f: Focus, projectId: string, projectName: string, maxRoles: int) {
    f.enabled && f.projectId == Some(projectId) && f.projectName == Some(projectName) && f.maxRoles == maxRoles
  }

  /** A commit raises the revision by one, yields a record that reads back as itself, and keeps an
      enabled focus unless the operation is bound to the digest of that very focus. */
  lemma CommitFacts(op: Operation, current: Focus, now: Timestamp)
    requires Valid(current) && Decide(op, current, now).Write?
    ensures var next := Decide(op, current, now).next;
            && next.revision == current.revision + 1
            && ReadFocus(Some(File(V2(next), EncodedSize(next), EncodedSize(next)))) == Ok(next)
            && next.updatedAt == Some(now)
            && (current.enabled ==>
                  && !op.SetFocus? && op.expected == Sha256Of(current)
                  && next.handoff == Some(Departure(current, op.reason, now))
                  && next.projectId != current.projectId)
            && (!current.enabled ==> op.SetFocus? && next.enabled && next.handoff == current.handoff)
            && (op.SetFocus? ==> Carries(next, op.projectId, op.projectName, op.maxRoles))
            && (op.HandoffFocus? ==> Carries(next, op.toProjectId, op.toProjectName, op.maxRoles))
            && (op.ClearFocus? ==>
                  !next.enabled && next.projectId.None? && next.projectName.None? && next.maxRoles == 0)
  {
  }
}
