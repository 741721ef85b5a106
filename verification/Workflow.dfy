/**
 Learned workflows as files: the checks every workflow passes before it is used, the seal over its
 content, and when a demonstration yields a workflow that passes them.
 */
module Workflow {
  import opened Wrappers
  import opened Whitespace
  import opened WorkflowLearning

  // ----- the file -----

  /** The content under the seal. `named` says that the name is in its canonical form. */
  datatype Content = Content(
    named: bool, createdAt: string, steps: seq<Step>, finalTitle: Option<string>, finalControl: Option<string>)

  /** SHA-256 over the canonical text of a content, or any other 64 hex digits. */
  datatype Seal = SealOf(content: Content) | OtherSeal

  datatype File = File(content: Content, seal: Seal)

  datatype Failure =
    | NameNotCanonical | CreatedAtInvalid | StepCountInvalid | StepIdInvalid | WindowTitleInvalid
    | WindowProcessInvalid | DelayInvalid | TargetInvalid | RelativePointInvalid | KeyInvalid | KeyUnsupported
    | TextReferenceInvalid | TextReferenceReused | FinalTitleInvalid | FinalControlInvalid | SealMismatch
    | NothingCaptured

  // ----- what a valid workflow is -----

  predicate NamedKey(part: string) {
    || part in {"BACKSPACE", "TAB", "ENTER", "ESC", "PAGEUP", "PAGEDOWN", "END", "HOME"}
    || part in {"LEFT", "UP", "RIGHT", "DOWN", "DELETE", "CTRL", "ALT", "SHIFT"}
  }

  predicate ValidPart(part: string) {
    || NamedKey(part)
    || (|part| == 1 && ('0' <= part[0] <= '9' || 'A' <= part[0] <= 'Z' || 'a' <= part[0] <= 'z'))
  }

  /** The length of the parts joined with plus signs. */
  function JoinedLength(parts: seq<string>): nat {
    if parts == [] then 0
    else if |parts| == 1 then |parts[0]|
    else |parts[0]| + 1 + JoinedLength(parts[1..])
  }

  predicate ValidKey(key: seq<string>) {
    && 0 < JoinedLength(key) <= 32
    && forall i :: 0 <= i < |key| ==> ValidPart(key[i])
  }

  predicate ValidTarget(t: Target) {
    && t.known
    && |t.name| <= 512 && |t.automationId| <= 512 && |t.controlType| <= 512 && |t.className| <= 512
  }

  predicate ValidWindow(w: Window) {
    w.title != "" && |w.title| <= 512 && |w.processName| <= 256
  }

  /** TEXT_n with n of one to three digits and no leading zero. */
  predicate ValidReference(n: nat) {
    1 <= n <= 999
  }

  /** Everything about a step but the description of what was clicked. */
  predicate SoundStep(step: Step, index: nat) {
    && step.id == index && ValidWindow(step.window) && 0 <= step.delay <= MAX_DELAY
    && match step
       case ClickStep(_, _, _, _, x, y) => 0.0 <= x <= 1.0 && 0.0 <= y <= 1.0
       case KeyStep(_, _, _, key) => ValidKey(key)
       case TextStep(_, _, _, reference) => ValidReference(reference)
  }

  predicate TargetFits(step: Step) {
    step.ClickStep? ==> ValidTarget(step.target)
  }

  predicate ValidStep(step: Step, index: nat) {
    SoundStep(step, index) && TargetFits(step)
  }

  predicate ValidExpectation(text: Option<string>) {
    text.None? || 0 < |text.value| <= 512
  }

  /** No text value is referred to twice. */
  ghost predicate OwnTexts(steps: seq<Step>) {
    forall i, j :: 0 <= i < j < |steps| && steps[i].TextStep? && steps[j].TextStep? ==>
                     steps[i].reference != steps[j].reference
  }

  ghost predicate SoundSteps(steps: seq<Step>) {
    && (forall i :: 0 <= i < |steps| ==> SoundStep(steps[i], i + 1))
    && OwnTexts(steps)
  }

  predicate TargetsFit(steps: seq<Step>) {
    forall i :: 0 <= i < |steps| ==> TargetFits(steps[i])
  }

  /** Everything up to the final expectations, but for what was clicked. */
  ghost predicate SoundContent(c: Content) {
    c.named && |c.createdAt| <= 64 && 1 <= |c.steps| <= MAX_STEPS && SoundSteps(c.steps)
  }

  ghost predicate Valid(f: File) {
    && SoundContent(f.content) && TargetsFit(f.content.steps)
    && ValidExpectation(f.content.finalTitle) && ValidExpectation(f.content.finalControl)
    && f.seal == SealOf(f.content)
  }

  // ----- what can be wrong, read off the fields -----

  predicate IsTooLong(t: Target) {
    |t.name| > 512 || |t.automationId| > 512 || |t.controlType| > 512 || |t.className| > 512
  }

  /** What is wrong with the step at this place. */
  predicate StepFault(why: Failure, step: Step, place: nat) {
    match why
    case StepIdInvalid => step.id != place
    case WindowTitleInvalid => |step.window.title| == 0 || |step.window.title| > 512
    case WindowProcessInvalid => |step.window.processName| > 256
    case DelayInvalid => step.delay < 0 || step.delay > 30000
    case TargetInvalid => step.ClickStep? && (!step.target.known || IsTooLong(step.target))
    case RelativePointInvalid => step.ClickStep? && (step.x < 0.0 || step.x > 1.0 || step.y < 0.0 || step.y > 1.0)
    case KeyInvalid => step.KeyStep? && (JoinedLength(step.key) == 0 || JoinedLength(step.key) > 32)
    case KeyUnsupported => step.KeyStep? && exists i :: 0 <= i < |step.key| && !ValidPart(step.key[i])
    case TextReferenceInvalid => step.TextStep? && (step.reference == 0 || step.reference > 999)
    case _ => false
  }

  predicate BadExpectation(text: Option<string>) {
    text.Some? && (text.value == "" || |text.value| > 512)
  }

  /** What is wrong with a workflow. */
  ghost predicate Fault(why: Failure, f: File) {
    var steps := f.content.steps;
    match why
    case NameNotCanonical => !f.content.named
    case CreatedAtInvalid => |f.content.createdAt| > 64
    case StepCountInvalid => |steps| == 0 || |steps| > 100
    case TextReferenceReused => !OwnTexts(steps)
    case FinalTitleInvalid => BadExpectation(f.content.finalTitle)
    case FinalControlInvalid => BadExpectation(f.content.finalControl)
    case SealMismatch => f.seal != SealOf(f.content)
    case NothingCaptured => false
    case _ => exists i :: 0 <= i < |steps| && FaultAt(why, steps, i)
  }

  predicate FaultAt(why: Failure, steps: seq<Step>, i: nat)
    requires i < |steps|
  {
    StepFault(why, steps[i], i + 1)
  }

  predicate IsStepFault(why: Failure) {
    || why.StepIdInvalid? || why.WindowTitleInvalid? || why.WindowProcessInvalid? || why.DelayInvalid?
    || why.TargetInvalid? || why.RelativePointInvalid? || why.KeyInvalid? || why.KeyUnsupported?
    || why.TextReferenceInvalid?
  }

  lemma ValidHasNoFault(f: File, why: Failure)
    requires Valid(f)
    ensures !Fault(why, f)
  {
    if IsStepFault(why) {
      forall i | 0 <= i < |f.content.steps|
        ensures !FaultAt(why, f.content.steps, i)
      {
        assert ValidStep(f.content.steps[i], i + 1);
      }
    }
  }

  lemma StepHasFault(f: File, i: nat)
    requires i < |f.content.steps| && !ValidStep(f.content.steps[i], i + 1)
    ensures exists why :: Fault(why, f)
  {
    var why := CheckStep(f.content.steps[i], i + 1).value;
    assert FaultAt(why, f.content.steps, i) && IsStepFault(why);
    assert Fault(why, f);
  }

  lemma InvalidHasFault(f: File)
    requires !Valid(f)
    ensures exists why :: Fault(why, f)
  {
    var c := f.content;
    if i :| 0 <= i < |c.steps| && !ValidStep(c.steps[i], i + 1) {
      StepHasFault(f, i);
    } else {
      assert OwnTexts(c.steps) ==> SoundSteps(c.steps) && TargetsFit(c.steps);
      var why := if !c.named then NameNotCanonical
                 else if |c.createdAt| > 64 then CreatedAtInvalid
                 else if !(1 <= |c.steps| <= 100) then StepCountInvalid
                 else if !OwnTexts(c.steps) then TextReferenceReused
                 else if !ValidExpectation(c.finalTitle) then FinalTitleInvalid
                 else if !ValidExpectation(c.finalControl) then FinalControlInvalid
                 else SealMismatch;
      assert Fault(why, f);
    }
  }

  /** A workflow is valid exactly when nothing of this is wrong with it. */
  lemma ValidExactly(f: File)
    ensures Valid(f) <==> forall why :: !Fault(why, f)
  {
    if Valid(f) {
      forall why ensures !Fault(why, f) {
        ValidHasNoFault(f, why);
      }
    } else {
      InvalidHasFault(f);
    }
  }

  // ----- the checks -----

  /** What is wrong with one step, if anything. */
  function CheckStep(step: Step, index: nat): (r: Option<Failure>)
    ensures r.None? <==> ValidStep(step, index)
    ensures SoundStep(step, index) && !TargetFits(step) ==> r == Some(TargetInvalid)
    ensures r.Some? ==> StepFault(r.value, step, index)
  {
    if step.id != index then Some(StepIdInvalid)
    else if step.window.title == "" || |step.window.title| > 512 then Some(WindowTitleInvalid)
    else if |step.window.processName| > 256 then Some(WindowProcessInvalid)
    else if !(0 <= step.delay <= MAX_DELAY) then Some(DelayInvalid)
    else
      match step
      case ClickStep(_, _, _, target, x, y) =>
        if !ValidTarget(target) then Some(TargetInvalid)
        else if !(0.0 <= x <= 1.0 && 0.0 <= y <= 1.0) then Some(RelativePointInvalid) else None
      case KeyStep(_, _, _, key) =>
        if !(0 < JoinedLength(key) <= 32) then Some(KeyInvalid)
        else if !ValidKey(key) then Some(KeyUnsupported) else None
      case TextStep(_, _, _, reference) => if ValidReference(reference) then None else Some(TextReferenceInvalid)
  }

  /** The references of the text steps, in order. */
  function References(steps: seq<Step>): (r: seq<nat>)
    ensures forall x :: x in r <==> exists i :: 0 <= i < |steps| && steps[i].TextStep? && steps[i].reference == x
  {
    if steps == [] then []
    else
      var n := |steps| - 1;
      assert forall i :: 0 <= i < n ==> steps[..n][i] == steps[i];
      References(steps[..n]) + if steps[n].TextStep? then [steps[n].reference] else []
  }

  lemma DistinctAppend(q: seq<nat>, x: nat)
    ensures Distinct(q + [x]) <==> Distinct(q) && x !in q
  {
    var r := q + [x];
    assert r[|q|] == x && forall i :: 0 <= i < |q| ==> r[i] == q[i];
  }

  lemma {:induction false} DistinctReferences(steps: seq<Step>)
    ensures Distinct(References(steps)) <==> OwnTexts(steps)
    decreases |steps|
  {
    if steps != [] {
      var n := |steps| - 1;
      var shorter := steps[..n];
      assert forall i :: 0 <= i < n ==> shorter[i] == steps[i];
      DistinctReferences(shorter);
      if steps[n].TextStep? {
        DistinctAppend(References(shorter), steps[n].reference);
        assert OwnTexts(steps) <==> OwnTexts(shorter) && steps[n].reference !in References(shorter);
      } else {
        assert References(steps) == References(shorter);
        assert OwnTexts(steps) <==> OwnTexts(shorter);
      }
    }
  }

  /** The loop over the steps: the first failure, or the text references in order. */
  method CheckSteps(steps: seq<Step>) returns (failure: Option<Failure>, references: seq<nat>)
    ensures failure.None? <==> forall k :: 0 <= k < |steps| ==> ValidStep(steps[k], k + 1)
    ensures failure.None? ==> references == References(steps)
    ensures (forall k :: 0 <= k < |steps| ==> SoundStep(steps[k], k + 1)) && !TargetsFit(steps) ==>
              failure == Some(TargetInvalid)
    ensures failure.Some? ==> exists k :: 0 <= k < |steps| && FaultAt(failure.value, steps, k)
  {
    references := [];
    var i := 0;
    while i < |steps|
      invariant i <= |steps|
      invariant forall k :: 0 <= k < i ==> ValidStep(steps[k], k + 1)
      invariant references == References(steps[..i])
    {
      failure := CheckStep(steps[i], i + 1);
      if failure.Some? {
        assert FaultAt(failure.value, steps, i);
        return;
      }
      assert steps[..i + 1][..i] == steps[..i];
      if steps[i].TextStep? { references := references + [steps[i].reference]; }
      i := i + 1;
    }
    assert steps[..i] == steps;
    failure := None;
  }

  method ValidateWorkflow(f: File) returns (r: Result<File, Failure>)
    ensures r.Ok? <==> Valid(f)
    ensures r.Ok? ==> r.value == f
    ensures r.Ok? <==> forall why :: !Fault(why, f)
    ensures r.Err? ==> Fault(r.error, f)
    ensures SoundContent(f.content) ==>
              && (r == Err(TargetInvalid) <==> !TargetsFit(f.content.steps))
              && (r == Err(FinalTitleInvalid) <==>
                    TargetsFit(f.content.steps) && !ValidExpectation(f.content.finalTitle))
              && (r == Err(FinalControlInvalid) <==>
                    && TargetsFit(f.content.steps) && ValidExpectation(f.content.finalTitle)
                    && !ValidExpectation(f.content.finalControl))
  {
    ValidExactly(f);
    var c := f.content;
    if !c.named { return Err(NameNotCanonical); }
    if |c.createdAt| > 64 { return Err(CreatedAtInvalid); }
    if !(1 <= |c.steps| <= MAX_STEPS) { return Err(StepCountInvalid); }
    var failure, references := CheckSteps(c.steps);
    if failure.Some? {
      assert IsStepFault(failure.value);
      return Err(failure.value);
    }
    DistinctReferences(c.steps);
    if !Distinct(references) { return Err(TextReferenceReused); }
    if !ValidExpectation(c.finalTitle) { return Err(FinalTitleInvalid); }
    if !ValidExpectation(c.finalControl) { return Err(FinalControlInvalid); }
    if f.seal != SealOf(c) { return Err(SealMismatch); }
    return Ok(f);
  }

  method SealWorkflow(c: Content) returns (r: Result<File, Failure>)
    ensures r.Ok? <==> Valid(File(c, SealOf(c)))
    ensures r.Ok? ==> r.value == File(c, SealOf(c))
    ensures SoundContent(c) ==>
              && (r == Err(TargetInvalid) <==> !TargetsFit(c.steps))
              && (r == Err(FinalTitleInvalid) <==> TargetsFit(c.steps) && !ValidExpectation(c.finalTitle))
              && (r == Err(FinalControlInvalid) <==>
                    TargetsFit(c.steps) && ValidExpectation(c.finalTitle) && !ValidExpectation(c.finalControl))
  {
    r := ValidateWorkflow(File(c, SealOf(c)));
  }

  // ----- learned steps are sound -----

  /** The desktop passes over windows without a title. */
  predicate AllTitled(events: seq<Event>) {
    forall i :: 0 <= i < |events| && events[i].window.Some? ==> events[i].window.value.title != ""
  }

  lemma SafeKeysAreValid(code: int)
    requires SafeKey(code).Some?
    ensures ValidKey([SafeKey(code).value])
  {
    var name := SafeKey(code).value;
    assert NamedKey(name);
    assert 0 < |name| <= 9;
    assert JoinedLength([name]) == |name|;
  }

  lemma CombinationsAreValid(code: int)
    requires IsAlphanumericCode(code)
    ensures ValidKey(["CTRL", [Letter(code)]])
  {
    var key := ["CTRL", [Letter(code)]];
    assert key[1..] == [[Letter(code)]];
    assert JoinedLength(key[1..]) == 1;
    assert JoinedLength(key) == 6;
    assert ValidPart("CTRL");
    assert 0x30 == '0' as int && 0x39 == '9' as int && 0x41 == 'A' as int && 0x5A == 'Z' as int;
    assert ValidPart([Letter(code)]);
  }

  lemma MadeStepsAreSound(e: Event, w: Window, count: nat, last: real, texts: nat)
    requires Recorded(e) && e.window == Some(w) && w.title != "" && texts < 999
    ensures SoundStep(MakeStep(e, w, count, last, texts), count + 1)
  {
    if e.Key? && SafeKey(e.code).Some? {
      SafeKeysAreValid(e.code);
    } else if e.Key? && e.ctrl {
      CombinationsAreValid(e.code);
    }
  }

  /** Sound steps whose text references stay at or below the number of texts. */
  ghost predicate Sound(s: State) {
    && SoundSteps(s.steps) && |s.steps| <= MAX_STEPS && s.texts <= |s.steps|
    && forall i :: 0 <= i < |s.steps| && s.steps[i].TextStep? ==> s.steps[i].reference <= s.texts
  }

  lemma AdvanceIsSound(s: State, e: Event)
    requires Sound(s) && |s.steps| < MAX_STEPS && Recorded(e)
    requires e.window.Some? ==> e.window.value.title != ""
    ensures Sound(Advance(s, e))
  {
    if e.window.Some? {
      var w := e.window.value;
      var step := MakeStep(e, w, |s.steps|, s.lastEvent, s.texts);
      MadeStepsAreSound(e, w, |s.steps|, s.lastEvent, s.texts);
      AppendIsSound(s, step, step.TextStep?, e.time, if step.TextStep? then e.time else NO_TEXT);
    }
  }

  lemma AppendIsSound(s: State, step: Step, text: bool, lastEvent: real, lastText: real)
    requires Sound(s) && |s.steps| < MAX_STEPS && SoundStep(step, |s.steps| + 1)
    requires step.TextStep? == text && (text ==> step.reference == s.texts + 1)
    ensures Sound(State(s.steps + [step], lastEvent, lastText, if text then s.texts + 1 else s.texts))
  {
    var steps := s.steps + [step];
    assert forall i :: 0 <= i < |s.steps| ==> steps[i] == s.steps[i];
    assert OwnTexts(steps);
    assert SoundSteps(steps);
  }

  /** The loop yields at most a hundred steps, with consecutive numbers, delays from 0 to 30 seconds,
      points inside their windows and a text reference of its own for every text. */
  lemma {:induction false} LearnedStepsAreSound(started: real, events: seq<Event>)
    requires AllRecorded(events) && AllTitled(events)
    ensures Sound(Learn(started, events))
    decreases |events|
  {
    if events != [] {
      var shorter := events[..|events| - 1];
      assert forall i :: 0 <= i < |shorter| ==> shorter[i] == events[i];
      LearnedStepsAreSound(started, shorter);
      var s := Learn(started, shorter);
      if |s.steps| < MAX_STEPS {
        AdvanceIsSound(s, events[|events| - 1]);
      }
    }
  }

  // ----- what was clicked -----

  /** The controls clicked among the first hundred captured events are described within the limits. */
  predicate ClicksFit(events: seq<Event>) {
    var c := Captures(events, |events|);
    forall k :: 0 <= k < |c| && k < MAX_STEPS && events[c[k]].Click? ==> ValidTarget(events[c[k]].target)
  }

  lemma CapturedTarget(started: real, events: seq<Event>, positions: seq<nat>, k: nat)
    requires k < |positions| && OverWindows(events, positions)
    ensures TargetFits(StepAt(started, events, positions, k)) <==>
            (events[positions[k]].Click? ==> ValidTarget(events[positions[k]].target))
  {
  }

  /** The learned steps pass the checks exactly when the clicked controls do. */
  lemma LearnedTargets(started: real, events: seq<Event>)
    requires AllRecorded(events)
    ensures TargetsFit(Learn(started, events).steps) <==> ClicksFit(events)
  {
    StepsAreCaptures(started, events);
    var c, steps := Captures(events, |events|), Learn(started, events).steps;
    forall k | 0 <= k < |steps|
      ensures TargetFits(steps[k]) <==> (events[c[k]].Click? ==> ValidTarget(events[c[k]].target))
    {
      CapturedTarget(started, events, c, k);
    }
  }

  // ----- learning a workflow -----

  /** The title the last window must show: the given one, or else the title it has now. */
  function ExpectedTitle(given: Option<string>, finalWindow: Option<Window>): Option<string> {
    if given.Some? && given.value != "" then Some(Strip(given.value))
    else if finalWindow.Some? then Some(finalWindow.value.title) else None
  }

  function ExpectedControl(given: Option<string>): Option<string> {
    if given.Some? && given.value != "" then Some(Strip(given.value)) else None
  }

  /** An expectation that survives: not only white space, and at most 512 characters without it. */
  predicate Usable(given: Option<string>) {
    given.Some? && given.value != "" ==> !Blank(given.value) && |Strip(given.value)| <= 512
  }

  /** Without a given title, the last window's own title is used and must not be too long. */
  predicate TitleUsable(given: Option<string>, finalWindow: Option<Window>) {
    && Usable(given)
    && (given.None? || given.value == "" ==> finalWindow.None? || |finalWindow.value.title| <= 512)
  }

  /** A demonstration is learned exactly when it has a captured event, what was clicked is described
      within the limits, and the final expectations are usable; each refusal has its own reason. */
  method LearnWorkflow(started: real, events: seq<Event>, createdAt: string, finalWindow: Option<Window>,
                       givenTitle: Option<string>, givenControl: Option<string>)
    returns (r: Result<File, Failure>)
    requires AllRecorded(events) && AllTitled(events) && |createdAt| <= 64
    requires finalWindow.Some? ==> finalWindow.value.title != ""
    ensures r.Ok? <==> && Captures(events, |events|) != [] && ClicksFit(events)
                       && TitleUsable(givenTitle, finalWindow) && Usable(givenControl)
    ensures r.Ok? ==> Valid(r.value) && StepsFrom(started, events, Captures(events, |events|), r.value.content.steps)
    ensures r.Ok? ==> forall k :: 0 <= k < |r.value.content.steps| ==>
                        TaughtBy(started, events, Captures(events, |events|), k, r.value.content.steps[k])
    ensures r.Ok? ==> && r.value.content.createdAt == createdAt
                      && r.value.content.finalTitle == ExpectedTitle(givenTitle, finalWindow)
                      && r.value.content.finalControl == ExpectedControl(givenControl)
    ensures r.Err? ==>
              r.error == if Captures(events, |events|) == [] then NothingCaptured
                         else if !ClicksFit(events) then TargetInvalid
                         else if !TitleUsable(givenTitle, finalWindow) then FinalTitleInvalid
                         else FinalControlInvalid
  {
    var steps, limitReached := LearnSteps(started, events);
    StepsAreCaptures(started, events);
    LearnedStepsAreSound(started, events);
    LearnedTargets(started, events);
    if steps == [] {
      return Err(NothingCaptured);
    }
    var content := Content(
      true, createdAt, steps, ExpectedTitle(givenTitle, finalWindow), ExpectedControl(givenControl));
    r := SealWorkflow(content);
  }

  /** A demonstration that is refused for the title of its last window: one key over one window, no given
      title, and a title of 513 characters. */
  lemma LongTitleIsRefused(window: Window, long: Window)
    requires window.title != "" && long.title == seq(513, _ => 'a')
    ensures var events := [Key(0.0, Some(window), 0x0D, false)];
            && AllRecorded(events) && AllTitled(events)
            && Captures(events, |events|) != [] && ClicksFit(events) && !TitleUsable(None, Some(long))
  {
    var events := [Key(0.0, Some(window), 0x0D, false)];
    assert SafeKey(0x0D).Some?;
    assert Captured(events, 0);
  }

  /** A demonstration that is refused for what was clicked: one click on a control whose name has 513
      characters. */
  lemma LongNameIsRefused(window: Window, target: Target)
    requires window.title != "" && target.name == seq(513, _ => 'a')
    ensures var events := [Click(0.0, Some(window), 0, 0, target)];
            && AllRecorded(events) && AllTitled(events)
            && Captures(events, |events|) != [] && !ClicksFit(events) && TitleUsable(None, None) && Usable(None)
  {
    var events := [Click(0.0, Some(window), 0, 0, target)];
    assert Captured(events, 0);
    var c := Captures(events, 1);
    assert Captures(events, 0) == [];
    assert c == [0];
    assert events[c[0]].Click? && !ValidTarget(events[c[0]].target);
  }
}
