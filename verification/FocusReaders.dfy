/**
 Readers of the focus file. A read is three looks, at the file's metadata, its bytes and its metadata
 again, and any number of steps of other processes may lie between them. A file's identity is an inode
 and a time; `mark` gives the one of each version of the file, counted in commits.
 */
module FocusReaders {
  import opened Wrappers
  import opened ExecutionFocus
  import opened FocusProtocol
  import opened FocusSolo

  datatype Mark = Mark(inode: nat, time: int)

  datatype Look = Look(file: Option<File>, mark: Mark)

  /** How a read ends that does not yield a record or one of the file's own faults. */
  datatype ReadFailure = Fault(why: Refusal) | ChangedDuringRead | Vanished

  /** What a file's bytes read as. */
  function Parsed(f: File): (r: Result<Focus, ReadFailure>)
    ensures r.Ok? ==> Valid(r.value)
  {
    if f.written != f.size then Err(Fault(FileInvalid))
    else
      match Normalize(f.content)
      case None => Err(Fault(FileInvalid))
      case Some(focus) => Ok(focus)
  }

  function LookAt(s: System, mark: nat -> Mark): Look {
    Look(s.disk, mark(|s.history|))
  }

  predicate HasFocusSize(l: Look) {
    l.file.Some? && 2 <= l.file.value.size <= 4096
  }

  /** read_execution_focus over what its three looks find. */
  method ReadExecutionFocus(before: Look, during: Option<File>, after: Look)
    returns (r: Result<Focus, ReadFailure>)
    ensures r == ReadOver(before, during, after)
    ensures before.file.None? ==> r == Ok(Disabled(None, 0, None))
    ensures r == Err(Fault(FileSizeInvalid)) <==>
            before.file.Some? && (before.file.value.size < 2 || before.file.value.size > 4096)
    ensures r == Err(Vanished) <==> HasFocusSize(before) && (during.None? || after.file.None?)
    ensures r == Err(ChangedDuringRead) <==>
            && HasFocusSize(before) && during.Some? && after.file.Some?
            && (|| after.mark != before.mark
                || during.value.size != before.file.value.size || after.file.value.size != before.file.value.size)
    ensures r.Ok? && before.file.Some? ==>
              && during.Some? && 2 <= during.value.size <= 4096 && during.value.written == during.value.size
              && Normalize(during.value.content) == Some(r.value)
  {
    if before.file.None? {
      return Ok(Disabled(None, 0, None));
    }
    var size := before.file.value.size;
    if size < 2 || size > MAX_BYTES {
      return Err(Fault(FileSizeInvalid));
    }
    if during.None? || after.file.None? {
      return Err(Vanished);
    }
    if after.mark != before.mark || after.file.value.size != size || during.value.size != size {
      return Err(ChangedDuringRead);
    }
    r := Parsed(during.value);
  }

  function ReadOver(before: Look, during: Option<File>, after: Look): Result<Focus, ReadFailure> {
    match before.file
    case None => Ok(Disabled(None, 0, None))
    case Some(f) =>
      if f.size < 2 || f.size > MAX_BYTES then Err(Fault(FileSizeInvalid))
      else if during.None? || after.file.None? then Err(Vanished)
      else if before.mark == after.mark && f.size == during.value.size == after.file.value.size then
        Parsed(during.value)
      else Err(ChangedDuringRead)
  }

  /** A read in one moment, as the operations make it under the lock. */
  function AtOnce(disk: Option<File>): Result<Focus, ReadFailure> {
    match ReadFocus(disk)
    case Ok(f) => Ok(f)
    case Err(why) => Err(Fault(why))
  }

  lemma QuietRead(disk: Option<File>, mark: Mark)
    ensures ReadOver(Look(disk, mark), disk, Look(disk, mark)) == AtOnce(disk)
  {
  }

  lemma OneOfThree(before: Look, during: Option<File>, after: Look)
    requires before.file.Some? ==> during.Some? && after.file.Some?
    ensures var r := ReadOver(before, during, after);
            r == AtOnce(before.file) || r == AtOnce(during) || r == Err(ChangedDuringRead)
  {
  }

  // ----- what lies between two looks -----

  lemma {:induction false} HistoryGrows(s: System, steps: seq<Step>)
    ensures s.history <= Run(s, steps).history
    decreases |steps|
  {
    if steps != [] {
      HistoryGrows(s, steps[..|steps| - 1]);
    }
  }

  /** The file is the one its history leaves. */
  ghost predicate FileOf(start: Option<File>, s: System) {
    && s.disk == (if s.history == [] then start else Some(Whole(s.history[|s.history| - 1].after)))
    && (ReadFocus(start).Err? ==> s.history == [])
    && (ReadFocus(start).Ok? ==>
          ReadFocus(s.disk) == Ok(Nth(ReadFocus(start).value, s.history, |s.history|)))
  }

  lemma FileFollows(start: Option<File>, steps: seq<Step>)
    ensures FileOf(start, Run(Start(start), steps))
  {
    RunKeepsInv(start, steps);
  }

  /** The states a read sees: at its first look, its second, and its third. */
  datatype Moments = Moments(before: System, during: System, after: System)

  function MomentsOf(start: Option<File>, a: seq<Step>, b: seq<Step>, c: seq<Step>): Moments {
    var before := Run(Start(start), a);
    var during := Run(before, b);
    Moments(before, during, Run(during, c))
  }

  lemma MomentsFollow(start: Option<File>, a: seq<Step>, b: seq<Step>, c: seq<Step>)
    ensures var m := MomentsOf(start, a, b, c);
            && FileOf(start, m.before) && FileOf(start, m.during) && FileOf(start, m.after)
            && m.before.history <= m.during.history <= m.after.history
  {
    RunSplits(Start(start), a, b);
    RunSplits(Start(start), a + b, c);
    FileFollows(start, a);
    FileFollows(start, a + b);
    FileFollows(start, a + b + c);
    HistoryGrows(Run(Start(start), a), b);
    HistoryGrows(Run(Start(start), a + b), c);
  }

  function ReadOf(m: Moments, mark: nat -> Mark): Result<Focus, ReadFailure> {
    ReadOver(LookAt(m.before, mark), m.during.disk, LookAt(m.after, mark))
  }

  // ----- what a read yields -----

  /** The record after some commit no earlier than the read's first look and no later than its last. */
  ghost predicate CurrentDuring(start: Option<File>, m: Moments, f: Focus)
    requires ReadFocus(start).Ok? && m.before.history <= m.after.history
  {
    exists k :: |m.before.history| <= k <= |m.after.history| && f == Nth(ReadFocus(start).value, m.after.history, k)
  }

  /** A file, once there, stays there, and versions with one history are one file. */
  lemma FilesStay(start: Option<File>, s: System, t: System)
    requires FileOf(start, s) && FileOf(start, t) && s.history <= t.history
    ensures s.disk.Some? ==> t.disk.Some?
    ensures s.history == t.history ==> s.disk == t.disk
  {
  }

  lemma ReadAmong(start: Option<File>, m: Moments, mark: nat -> Mark)
    requires FileOf(start, m.before) && FileOf(start, m.during) && FileOf(start, m.after)
    requires m.before.history <= m.during.history <= m.after.history
    ensures ReadOf(m, mark) == AtOnce(m.before.disk) || ReadOf(m, mark) == AtOnce(m.during.disk)
            || ReadOf(m, mark) == Err(ChangedDuringRead)
    ensures m.before.history == m.after.history ==> ReadOf(m, mark) == AtOnce(m.before.disk)
  {
    FilesStay(start, m.before, m.during);
    FilesStay(start, m.during, m.after);
    OneOfThree(LookAt(m.before, mark), m.during.disk, LookAt(m.after, mark));
    if m.before.history == m.after.history {
      assert m.during.history == m.before.history;
      QuietRead(m.before.disk, mark(|m.before.history|));
    }
  }

  /** A reader without the lock, whatever happens between its looks and however the file system hands out
      inodes and times: it gets the record of a commit that was current during its read, or is told that
      the file changed, and is told so only if a commit landed. An unreadable file is reported as such. */
  lemma ReadDuringCommits(start: Option<File>, a: seq<Step>, b: seq<Step>, c: seq<Step>, mark: nat -> Mark)
    ensures var m := MomentsOf(start, a, b, c);
            var r := ReadOf(m, mark);
            && m.before.history <= m.after.history
            && (ReadFocus(start).Err? ==> r == AtOnce(start))
            && (ReadFocus(start).Ok? ==> r == Err(ChangedDuringRead) || (r.Ok? && CurrentDuring(start, m, r.value)))
            && (r == Err(ChangedDuringRead) ==> |m.before.history| < |m.after.history|)
  {
    var m := MomentsOf(start, a, b, c);
    MomentsFollow(start, a, b, c);
    ReadAmong(start, m, mark);
    if ReadFocus(start).Ok? {
      var origin := ReadFocus(start).value;
      assert Nth(origin, m.before.history, |m.before.history|) == Nth(origin, m.after.history, |m.before.history|);
      assert Nth(origin, m.during.history, |m.during.history|) == Nth(origin, m.after.history, |m.during.history|);
    }
  }

  /** No two versions of the file have one inode and one time. */
  ghost predicate TellsApart(mark: nat -> Mark) {
    forall i, j :: i < j ==> mark(i) != mark(j)
  }

  /** If the file system tells versions apart, the refusal is exact: there was a file at the first look,
      and a commit landed before the last one. */
  lemma ChangedExactly(start: Option<File>, a: seq<Step>, b: seq<Step>, c: seq<Step>, mark: nat -> Mark)
    requires ReadFocus(start).Ok? && TellsApart(mark)
    ensures var m := MomentsOf(start, a, b, c);
            ReadOf(m, mark) == Err(ChangedDuringRead)
            <==> m.before.disk.Some? && |m.before.history| < |m.after.history|
  {
    MomentsFollow(start, a, b, c);
    var m := MomentsOf(start, a, b, c);
    ReadAmong(start, m, mark);
    if |m.before.history| < |m.after.history| {
      assert mark(|m.before.history|) != mark(|m.after.history|);
    }
  }

  // ----- a reader with the lock -----

  lemma OthersLeaveTheFile(s: System, start: Option<File>, p: nat, step: Step)
    requires Inv(s, start) && InCritical(PhaseOf(s, p)) && step.pid != p
    ensures var t := Next(s, step);
            t.disk == s.disk && t.history == s.history && PhaseOf(t, p) == PhaseOf(s, p)
  {
    assert s.lock == Some(p);
    assert !InCritical(PhaseOf(s, step.pid));
  }

  /** While a process is inside the lock, nobody else changes the file. */
  lemma {:induction false} HolderKeepsTheFile(s: System, start: Option<File>, p: nat, steps: seq<Step>)
    requires Inv(s, start) && InCritical(PhaseOf(s, p))
    requires forall i :: 0 <= i < |steps| ==> steps[i].pid != p
    ensures var t := Run(s, steps);
            && Inv(t, start) && t.disk == s.disk && t.history == s.history && PhaseOf(t, p) == PhaseOf(s, p)
    decreases |steps|
  {
    if steps != [] {
      var n := |steps| - 1;
      HolderKeepsTheFile(s, start, p, steps[..n]);
      NextKeepsInv(Run(s, steps[..n]), start, steps[n]);
      OthersLeaveTheFile(Run(s, steps[..n]), start, p, steps[n]);
    }
  }

  /** So the three looks of a read under the lock are one: whatever others do between them, it yields what
      the file holds. */
  lemma LockedReadIsAtOnce(start: Option<File>, a: seq<Step>, b: seq<Step>, c: seq<Step>, p: nat, mark: nat -> Mark)
    requires InCritical(PhaseOf(Run(Start(start), a), p))
    requires forall i :: 0 <= i < |b| ==> b[i].pid != p
    requires forall i :: 0 <= i < |c| ==> c[i].pid != p
    ensures var m := MomentsOf(start, a, b, c);
            ReadOf(m, mark) == AtOnce(m.before.disk) && m.after.disk == m.before.disk
  {
    RunKeepsInv(start, a);
    var m := MomentsOf(start, a, b, c);
    HolderKeepsTheFile(m.before, start, p, b);
    HolderKeepsTheFile(m.during, start, p, c);
    QuietRead(m.before.disk, mark(|m.before.history|));
  }
}
