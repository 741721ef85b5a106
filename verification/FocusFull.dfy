/**
 A full record: one that no operation can ever replace, because every record that may follow it is too
 large for the file.
 */
module FocusFull {
  import opened Wrappers
  import opened Whitespace
  import opened ExecutionFocus
  import opened FocusText
  import opened FocusSize
  import opened FocusProtocol

  // ----- which records are full -----

  /** Even a set with a name of one character does not fit. */
  predicate FullAt(f: Focus, now: Timestamp) {
    EncodedSize(f) + DecimalLength(f.revision + 1) - DecimalLength(f.revision)
    + 8 + TextSize(now) - OptionalTextSize(f.updatedAt) > MAX_BYTES
  }

  lemma ShortName()
    ensures Names("000000000000", "a", 1) && EscapedLength("a") == 1
  {
    assert "a"[1..] == "";
  }

  /** At a given time no operation replaces a disabled record exactly when it is full. */
  lemma FullExactly(f: Focus, now: Timestamp)
    requires Valid(f) && !f.enabled
    ensures (forall op: Operation :: !Decide(op, f, now).Write?) <==> FullAt(f, now)
  {
    if FullAt(f, now) {
      forall op: Operation ensures !Decide(op, f, now).Write? {
        if op.SetFocus? {
          SetOutcome(f, op.projectId, op.projectName, op.maxRoles, now);
        }
      }
    } else {
      ShortName();
      SetOutcome(f, "000000000000", "a", 1, now);
      assert Decide(SetFocus("000000000000", "a", 1), f, now).Write?;
    }
  }

  lemma {:induction false} MoreDigits(n: nat)
    ensures DecimalLength(n) <= DecimalLength(n + 1)
  {
    if n >= 10 && n % 10 == 9 {
      MoreDigits(n / 10);
    }
  }

  /** The texts a clock gives have 32 characters, or 25 without a fraction of a second. */
  predicate IsClockText(now: Timestamp) {
    EscapedLength(now) == 32 || EscapedLength(now) == 25
  }

  /** A disabled record of 4096 bytes stays full whatever the clock says. */
  lemma LargestIsFull(f: Focus, now: Timestamp)
    requires Valid(f) && !f.enabled && EncodedSize(f) == MAX_BYTES
    requires f.updatedAt.Some? && IsClockText(f.updatedAt.value) && IsClockText(now)
    ensures FullAt(f, now)
  {
    MoreDigits(f.revision);
  }

  // ----- nothing ever replaces a full record -----

  /** No process gets further than its decision. */
  ghost predicate NothingStaged(s: System, start: Option<File>) {
    && s.disk == start && s.history == []
    && forall p: nat :: !PhaseOf(s, p).Staging? && !PhaseOf(s, p).Synced?
  }

  lemma NothingStagedNext(s: System, start: Option<File>, step: Step)
    requires Inv(s, start) && NothingStaged(s, start) && ReadFocus(start).Ok? && !ReadFocus(start).value.enabled
    requires step.Choose? ==> FullAt(ReadFocus(start).value, step.now)
    ensures NothingStaged(Next(s, step), start)
  {
    var phase := PhaseOf(s, step.pid);
    assert PhaseFits(phase, s.disk);
    if step.Choose? && phase.Loaded? {
      FullExactly(phase.current, step.now);
      assert !Decide(phase.op, phase.current, step.now).Write?;
    }
    var next := Next(s, step);
    forall p: nat ensures !PhaseOf(next, p).Staging? && !PhaseOf(next, p).Synced? {
      assert !PhaseOf(s, p).Staging? && !PhaseOf(s, p).Synced?;
      assert p != step.pid ==> PhaseOf(next, p) == PhaseOf(s, p);
    }
  }

  /** Whatever any number of processes try, at any times at which the record is full, the file stays as it is. */
  lemma {:induction false} FullForever(start: Option<File>, steps: seq<Step>)
    requires ReadFocus(start).Ok? && !ReadFocus(start).value.enabled
    requires forall i :: 0 <= i < |steps| && steps[i].Choose? ==> FullAt(ReadFocus(start).value, steps[i].now)
    ensures NothingStaged(Run(Start(start), steps), start)
    decreases |steps|
  {
    if steps != [] {
      var n := |steps| - 1;
      FullForever(start, steps[..n]);
      RunKeepsInv(start, steps[..n]);
      NothingStagedNext(Run(Start(start), steps[..n]), start, steps[n]);
    }
  }

  /** A disabled record of 4096 bytes is the last one: with any clock, no schedule ever changes the file. */
  lemma LargestIsLast(start: Option<File>, steps: seq<Step>)
    requires ReadFocus(start).Ok? && !ReadFocus(start).value.enabled
    requires EncodedSize(ReadFocus(start).value) == MAX_BYTES
    requires ReadFocus(start).value.updatedAt.Some? && IsClockText(ReadFocus(start).value.updatedAt.value)
    requires forall i :: 0 <= i < |steps| && steps[i].Choose? ==> IsClockText(steps[i].now)
    ensures Run(Start(start), steps).disk == start && Run(Start(start), steps).history == []
  {
    forall i | 0 <= i < |steps| && steps[i].Choose? ensures FullAt(ReadFocus(start).value, steps[i].now) {
      LargestIsFull(ReadFocus(start).value, steps[i].now);
    }
    FullForever(start, steps);
  }

  // ----- such a record can be written -----

  lemma FirstEscaped(c: char, s: string)
    ensures EscapedLength([c] + s) == CharSize(c) + EscapedLength(s)
  {
    assert ([c] + s)[1..] == s;
  }

  lemma {:induction false} EscapedJoin(a: string, b: string)
    ensures EscapedLength(a + b) == EscapedLength(a) + EscapedLength(b)
  {
    if a == "" {
      assert a + b == b;
    } else {
      EscapedJoin(a[1..], b);
      FirstEscaped(a[0], a[1..] + b);
      FirstApart(a, b);
    }
  }

  lemma FullReason()
    ensures var reason := Repeated(GRIN, 213) + "aaa";
            IsReasonShape(reason) && !HasControl(reason) && EscapedLength(reason) == 2559
  {
    var wide := Repeated(GRIN, 213);
    WideTexts(wide);
    EscapedJoin(wide, "aaa");
    assert "aaa"[1..] == "aa" && "aa"[1..] == "a" && "a"[1..] == "";
  }

  /** A clear that writes a full record: its name, reason and times need exactly the 3584 bytes there are.
      After it no focus can be set again. */
  lemma ClearCanFill(id: string, name: string, now: Timestamp, later: Timestamp)
    requires IsProjectId(id) && name == Repeated(GRIN, 80) && EscapedLength(now) == 32 && IsClockText(later)
    ensures var current := Focus(1, true, Some(id), Some(name), 1, Some(now), None);
            var reason := Repeated(GRIN, 213) + "aaa";
            var d := Decide(ClearFocus(Sha256Of(current), reason), current, now);
            && Valid(current) && Precheck(ClearFocus(Sha256Of(current), reason)).None?
            && d.Write? && EncodedSize(d.next) == MAX_BYTES && FullAt(d.next, later)
  {
    var current := Focus(1, true, Some(id), Some(name), 1, Some(now), None);
    var reason := Repeated(GRIN, 213) + "aaa";
    WideTexts(name);
    FullReason();
    ClearOutcome(current, reason, now);
    ClearedSize(current, reason, now);
    LargestIsFull(Decide(ClearFocus(Sha256Of(current), reason), current, now).next, later);
  }
}
