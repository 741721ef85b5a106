/**
 Learning a workflow from a demonstration: the loop that turns recorded clicks and keystrokes into
 steps. A desktop look at an event's window is part of the event; times are seconds on a clock that
 starts at or after zero.
 */
module WorkflowLearning {
  import opened Wrappers

  const MAX_STEPS := 100
  const MAX_DELAY := 30000
  const TEXT_GAP := 0.8
  const NO_TEXT := -100.0

  // ----- events -----

  datatype Bounds = Bounds(left: int, top: int, right: int, bottom: int)

  datatype Window = Window(title: string, className: string, processName: string, bounds: Bounds)

  /** A control as the desktop describes it, its texts uncut; `known` says that these are all texts, that
      its bounds are four numbers, and that it has no other field. */
  datatype Target = Target(name: string, automationId: string, controlType: string, className: string, known: bool)

  datatype Event =
    | Click(time: real, window: Option<Window>, x: int, y: int, target: Target)
    | Key(time: real, window: Option<Window>, code: int, ctrl: bool)

  function SafeKey(code: int): Option<string> {
    match code
    case 0x08 => Some("BACKSPACE")
    case 0x09 => Some("TAB")
    case 0x0D => Some("ENTER")
    case 0x1B => Some("ESC")
    case 0x21 => Some("PAGEUP")
    case 0x22 => Some("PAGEDOWN")
    case 0x23 => Some("END")
    case 0x24 => Some("HOME")
    case 0x25 => Some("LEFT")
    case 0x26 => Some("UP")
    case 0x27 => Some("RIGHT")
    case 0x28 => Some("DOWN")
    case 0x2E => Some("DELETE")
    case _ => None
  }

  /** A keystroke that only types text. */
  predicate IsPlain(e: Event) {
    e.Key? && SafeKey(e.code).None? && !e.ctrl
  }

  /** Letters and digits, the codes a CTRL combination is learned for. */
  predicate IsAlphanumericCode(code: int) {
    0x30 <= code <= 0x39 || 0x41 <= code <= 0x5A
  }

  /** What the recorder delivers, with CTRL only over letters and digits. */
  predicate Recorded(e: Event) {
    && e.time >= 0.0
    && (e.Key? && SafeKey(e.code).None? && e.ctrl ==> IsAlphanumericCode(e.code))
  }

  predicate AllRecorded(events: seq<Event>) {
    forall i :: 0 <= i < |events| ==> Recorded(events[i])
  }

  // ----- steps -----

  /** A combination is the sequence of its parts; a text value is referred to by its number. */
  datatype Step =
    | ClickStep(id: nat, delay: int, window: Window, target: Target, x: real, y: real)
    | KeyStep(id: nat, delay: int, window: Window, key: seq<string>)
    | TextStep(id: nat, delay: int, window: Window, reference: nat)

  function RoundHalfEven(x: real): (r: int)
    ensures -0.5 <= r as real - x <= 0.5
    ensures r as real - x == 0.5 || r as real - x == -0.5 ==> r % 2 == 0
    ensures forall n: int {:trigger n as real} :: (n as real <= x ==> n <= r) && (x <= n as real ==> r <= n)
  {
    var f := x.Floor;
    var d := x - f as real;
    if d < 0.5 || (d == 0.5 && f % 2 == 0) then f else f + 1
  }

  /** A number of milliseconds for a time that has passed: the nearest one, from 0 to 30 seconds. */
  predicate IsDelay(ms: int, passed: real) {
    && (passed <= 0.0 ==> ms == 0)
    && (passed >= 30.0 ==> ms == MAX_DELAY)
    && (0.0 <= passed <= 30.0 ==> -0.5 <= ms as real - passed * 1000.0 <= 0.5)
  }

  function StepDelay(last: real, current: real): (r: int)
    ensures 0 <= r <= MAX_DELAY
    ensures 0.0 <= current - last <= 30.0 ==> -0.5 <= r as real - (current - last) * 1000.0 <= 0.5
    ensures IsDelay(r, current - last)
  {
    var ms := RoundHalfEven((current - last) * 1000.0);
    assert 0 as real == 0.0 && MAX_DELAY as real == 30000.0;
    assert 0.0 <= current - last <= 30.0 ==> 0 <= ms <= MAX_DELAY;
    if ms < 0 then 0 else if ms > MAX_DELAY then MAX_DELAY else ms
  }

  function Clamp(x: real): (r: real)
    ensures 0.0 <= r <= 1.0
    ensures 0.0 <= x <= 1.0 ==> r == x
  {
    if x < 0.0 then 0.0 else if x > 1.0 then 1.0 else x
  }

  function Extent(low: int, high: int): (r: int)
    ensures r >= 1
  {
    if high - low > 1 then high - low else 1
  }

  /** Where a point lies in an interval, from 0 to 1 in millionths. */
  function Relative(at: int, low: int, high: int): (r: real)
    ensures 0.0 <= r <= 1.0
    ensures -0.0000005 <= r - Clamp((at - low) as real / Extent(low, high) as real) <= 0.0000005
    ensures LiesAt(r, at, low, high)
  {
    var millionths := RoundHalfEven(Clamp((at - low) as real / Extent(low, high) as real) * 1000000.0);
    assert 0 as real == 0.0 && 1000000 as real == 1000000.0;
    millionths as real / 1000000.0
  }

  /** A point within half a millionth of where `at` lies between two edges, kept inside them; edges less
      than one apart count as one apart. */
  predicate LiesAt(x: real, at: int, low: int, high: int) {
    var width := if high - low >= 1 then high - low else 1;
    var ratio := (at - low) as real / width as real;
    -0.0000005 <= x - (if ratio <= 0.0 then 0.0 else if ratio >= 1.0 then 1.0 else ratio) <= 0.0000005
  }

  /** A text, or its beginning of at most `limit` characters. */
  predicate IsCut(r: string, s: string, limit: nat) {
    r <= s && |r| == if |s| <= limit then |s| else limit
  }

  /** _window_signature: texts cut to their limits. The recorder's process names are lower case. */
  function Signature(w: Window): Window {
    Window(Cut(w.title, 512), Cut(w.className, 256), Cut(w.processName, 256), w.bounds)
  }

  function Cut(s: string, limit: nat): (r: string)
    ensures |r| <= limit && r <= s && IsCut(r, s, limit)
    ensures s != "" && limit > 0 ==> r != ""
  {
    if |s| <= limit then s else s[..limit]
  }

  // ----- the loop -----

  datatype State = State(steps: seq<Step>, lastEvent: real, lastText: real, texts: nat)

  function Start(started: real): State {
    State([], started, NO_TEXT, 0)
  }

  /** What the step of an event over a window says, after `count` steps, the last of them at `last`, of which
      `texts` are texts. */
  predicate Teaches(e: Event, w: Window, count: nat, last: real, texts: nat, step: Step) {
    && step.id == count + 1 && IsDelay(step.delay, e.time - last)
    && IsCut(step.window.title, w.title, 512) && IsCut(step.window.className, w.className, 256)
    && IsCut(step.window.processName, w.processName, 256) && step.window.bounds == w.bounds
    && match e
       case Click(_, _, x, y, target) =>
         && step.ClickStep? && step.target == target
         && LiesAt(step.x, x, w.bounds.left, w.bounds.right) && LiesAt(step.y, y, w.bounds.top, w.bounds.bottom)
       case Key(_, _, code, ctrl) =>
         if SafeKey(code).Some? then step.KeyStep? && step.key == [SafeKey(code).value]
         else if ctrl then
           && step.KeyStep? && |step.key| == 2 && step.key[0] == "CTRL" && |step.key[1]| == 1
           && (0 <= code < 0xD800 ==> step.key[1][0] as int == code)
         else step.TextStep? && step.reference == texts + 1
  }

  /** The step an event makes after `count` steps, the last of them at `last`. */
  function MakeStep(e: Event, w: Window, count: nat, last: real, texts: nat): (r: Step)
    ensures r.id == count + 1 && 0 <= r.delay <= MAX_DELAY && r.window == Signature(w)
    ensures r.TextStep? <==> IsPlain(e)
    ensures r.ClickStep? <==> e.Click?
    ensures r.ClickStep? ==> r.target == e.target && 0.0 <= r.x <= 1.0 && 0.0 <= r.y <= 1.0
    ensures Teaches(e, w, count, last, texts, r)
  {
    var delay := StepDelay(last, e.time);
    match e
    case Click(_, _, x, y, target) =>
      ClickStep(count + 1, delay, Signature(w), target,
                Relative(x, w.bounds.left, w.bounds.right), Relative(y, w.bounds.top, w.bounds.bottom))
    case Key(_, _, code, ctrl) =>
      if SafeKey(code).Some? then KeyStep(count + 1, delay, Signature(w), [SafeKey(code).value])
      else if ctrl then KeyStep(count + 1, delay, Signature(w), ["CTRL", [Letter(code)]])
      else TextStep(count + 1, delay, Signature(w), texts + 1)
  }

  function Letter(code: int): char {
    if 0 <= code < 0xD800 then code as char else '?'
  }

  function Advance(s: State, e: Event): State {
    if e.window.None? then s
    else if IsPlain(e) then
      if e.time - s.lastText > TEXT_GAP then
        State(s.steps + [MakeStep(e, e.window.value, |s.steps|, s.lastEvent, s.texts)], e.time, e.time, s.texts + 1)
      else s.(lastText := e.time)
    else
      State(s.steps + [MakeStep(e, e.window.value, |s.steps|, s.lastEvent, s.texts)], e.time, NO_TEXT, s.texts)
  }

  function Learn(started: real, events: seq<Event>): State {
    if events == [] then Start(started)
    else
      var s := Learn(started, events[..|events| - 1]);
      if |s.steps| >= MAX_STEPS then s else Advance(s, events[|events| - 1])
  }

  lemma LearnStep(started: real, events: seq<Event>, n: nat)
    requires n < |events|
    ensures var s := Learn(started, events[..n]);
            Learn(started, events[..n + 1]) == if |s.steps| >= MAX_STEPS then s else Advance(s, events[n])
  {
    assert events[..n + 1][..n] == events[..n];
  }

  lemma {:induction false} LearnStops(started: real, events: seq<Event>, n: nat)
    requires n <= |events| && |Learn(started, events[..n]).steps| >= MAX_STEPS
    ensures Learn(started, events) == Learn(started, events[..n])
    decreases |events| - n
  {
    if n == |events| {
      assert events[..n] == events;
    } else {
      LearnStep(started, events, n);
      LearnStops(started, events, n + 1);
    }
  }

  /** The recording loop; it stops as soon as it has MAX_STEPS steps and an event is left. */
  method LearnSteps(started: real, events: seq<Event>) returns (steps: seq<Step>, limitReached: bool)
    ensures steps == Learn(started, events).steps
    ensures limitReached ==> |steps| == MAX_STEPS
  {
    steps, limitReached := [], false;
    var lastEvent, lastText, texts := started, NO_TEXT, 0;
    var i := 0;
    while i < |events|
      invariant i <= |events| && !limitReached && |steps| <= MAX_STEPS
      invariant Learn(started, events[..i]) == State(steps, lastEvent, lastText, texts)
    {
      if |steps| >= MAX_STEPS {
        limitReached := true;
        LearnStops(started, events, i);
        return;
      }
      var e := events[i];
      LearnStep(started, events, i);
      i := i + 1;
      if e.window.None? {
        continue;
      }
      if !IsPlain(e) {
        steps := steps + [MakeStep(e, e.window.value, |steps|, lastEvent, texts)];
        lastEvent, lastText := e.time, NO_TEXT;
      } else if e.time - lastText > TEXT_GAP {
        steps := steps + [MakeStep(e, e.window.value, |steps|, lastEvent, texts)];
        texts := texts + 1;
        lastEvent, lastText := e.time, e.time;
      } else {
        lastText := e.time;
      }
    }
    assert events[..i] == events;
  }

  // ----- which events make steps -----

  /** The last event before `n` that has a window. */
  function Previous(events: seq<Event>, n: nat): (r: Option<nat>)
    requires n <= |events|
    ensures r.Some? ==> r.value < n && events[r.value].window.Some?
    ensures forall i :: (if r.Some? then r.value + 1 else 0) <= i < n ==> events[i].window.None?
  {
    if n == 0 then None
    else if events[n - 1].window.Some? then Some(n - 1)
    else Previous(events, n - 1)
  }

  /** A keystroke begins a text when it follows a click, a safe key or a CTRL step, when it is the
      first event, or when the keystroke before it was more than 0.8 s ago. */
  predicate BeginsText(events: seq<Event>, n: nat)
    requires n < |events|
  {
    var p := Previous(events, n);
    p.None? || !IsPlain(events[p.value]) || events[n].time - events[p.value].time > TEXT_GAP
  }

  predicate Captured(events: seq<Event>, n: nat)
    requires n < |events|
  {
    events[n].window.Some? && (IsPlain(events[n]) ==> BeginsText(events, n))
  }

  predicate OverWindows(events: seq<Event>, positions: seq<nat>) {
    forall i :: 0 <= i < |positions| ==> positions[i] < |events| && events[positions[i]].window.Some?
  }

  /** The positions of the events before `n` that make a step, in order. */
  function Captures(events: seq<Event>, n: nat): (r: seq<nat>)
    requires n <= |events|
    ensures OverWindows(events, r)
  {
    if n == 0 then []
    else
      var earlier := Captures(events, n - 1);
      if Captured(events, n - 1) then earlier + [n - 1] else earlier
  }

  lemma {:induction false} CapturesInOrder(events: seq<Event>, n: nat)
    requires n <= |events|
    ensures var r := Captures(events, n);
            && (forall k :: 0 <= k < |r| ==> r[k] < n && Captured(events, r[k]))
            && (forall i :: 0 <= i < n && Captured(events, i) ==> i in r)
            && (forall j, k :: 0 <= j < k < |r| ==> r[j] < r[k])
  {
    if n > 0 {
      CapturesInOrder(events, n - 1);
      var r, q := Captures(events, n), Captures(events, n - 1);
      assert forall x :: x in q ==> x in r;
      if Captured(events, n - 1) {
        assert r[|q|] == n - 1;
      }
    }
  }

  /** How many of the events at the given positions are plain keystrokes. */
  function Texts(events: seq<Event>, positions: seq<nat>): nat
    requires forall k :: 0 <= k < |positions| ==> positions[k] < |events|
  {
    if positions == [] then 0
    else
      var n := |positions| - 1;
      Texts(events, positions[..n]) + if IsPlain(events[positions[n]]) then 1 else 0
  }

  /** The step that must come from the event at `positions[k]`: numbered k + 1, delayed from the step
      before it, and referring to its own text. */
  ghost function StepAt(started: real, events: seq<Event>, positions: seq<nat>, k: nat): Step
    requires k < |positions| && OverWindows(events, positions)
  {
    var e := events[positions[k]];
    var last := if k == 0 then started else events[positions[k - 1]].time;
    MakeStep(e, e.window.value, k, last, Texts(events, positions[..k]))
  }

  /** The time of the keystroke just before, if the last event over a window was one. */
  function LastText(events: seq<Event>, n: nat): real
    requires n <= |events|
  {
    match Previous(events, n)
    case None => NO_TEXT
    case Some(p) => if IsPlain(events[p]) then events[p].time else NO_TEXT
  }

  function LastEvent(started: real, events: seq<Event>, positions: seq<nat>): real
    requires forall i :: 0 <= i < |positions| ==> positions[i] < |events|
  {
    if positions == [] then started else events[positions[|positions| - 1]].time
  }

  /** The first hundred captured events made the steps. */
  ghost predicate StepsFrom(started: real, events: seq<Event>, positions: seq<nat>, steps: seq<Step>)
    requires OverWindows(events, positions)
  {
    && |steps| == (if |positions| < MAX_STEPS then |positions| else MAX_STEPS)
    && forall k :: 0 <= k < |steps| ==> steps[k] == StepAt(started, events, positions, k)
  }

  /** What the loop's other variables hold after the first `n` events. */
  ghost predicate Tracks(started: real, events: seq<Event>, n: nat, s: State)
    requires n <= |events|
  {
    var c := Captures(events, n);
    && s.lastEvent == LastEvent(started, events, c)
    && s.texts == Texts(events, c)
    && s.lastText == LastText(events, n)
  }

  lemma GapBeginsText(events: seq<Event>, n: nat)
    requires n < |events| && events[n].time >= 0.0
    ensures events[n].time - LastText(events, n) > TEXT_GAP <==> BeginsText(events, n)
  {
  }

  lemma StepAtPrefix(started: real, events: seq<Event>, c: seq<nat>, d: seq<nat>, k: nat)
    requires k < |c| && c <= d && OverWindows(events, d) && OverWindows(events, c)
    ensures StepAt(started, events, c, k) == StepAt(started, events, d, k)
  {
    assert c[..k] == d[..k];
  }

  lemma MoreCaptures(started: real, events: seq<Event>, c: seq<nat>, d: seq<nat>, steps: seq<Step>)
    requires c <= d && OverWindows(events, d) && OverWindows(events, c)
    requires StepsFrom(started, events, c, steps)
    ensures forall k :: 0 <= k < |steps| ==> steps[k] == StepAt(started, events, d, k)
  {
    forall k | 0 <= k < |steps| ensures steps[k] == StepAt(started, events, d, k) {
      assert steps[k] == StepAt(started, events, c, k);
      StepAtPrefix(started, events, c, d, k);
    }
  }

  /** The step an event adds is the one its place among the captured events calls for. */
  lemma NewStep(started: real, events: seq<Event>, c: seq<nat>, n: nat)
    requires n < |events| && OverWindows(events, c) && events[n].window.Some?
    ensures OverWindows(events, c + [n])
    ensures StepAt(started, events, c + [n], |c|) ==
            MakeStep(events[n], events[n].window.value, |c|, LastEvent(started, events, c), Texts(events, c))
  {
    assert (c + [n])[..|c|] == c;
  }

  lemma OneMoreCapture(started: real, events: seq<Event>, c: seq<nat>, n: nat)
    requires n < |events| && OverWindows(events, c)
    ensures forall i :: 0 <= i < |c + [n]| ==> (c + [n])[i] < |events|
    ensures LastEvent(started, events, c + [n]) == events[n].time
    ensures Texts(events, c + [n]) == if IsPlain(events[n]) then Texts(events, c) + 1 else Texts(events, c)
  {
    assert (c + [n])[..|c|] == c;
  }

  lemma OneMoreText(events: seq<Event>, n: nat)
    requires n < |events| && events[n].window.Some?
    ensures LastText(events, n + 1) == if IsPlain(events[n]) then events[n].time else NO_TEXT
  {
    assert Previous(events, n + 1) == Some(n);
  }

  lemma CaptureTracks(started: real, events: seq<Event>, n: nat, s: State)
    requires n < |events| && Tracks(started, events, n, s) && Captured(events, n)
    ensures var e := events[n];
            Tracks(started, events, n + 1,
                   State(s.steps, e.time, if IsPlain(e) then e.time else NO_TEXT,
                         if IsPlain(e) then s.texts + 1 else s.texts))
  {
    OneMoreCapture(started, events, Captures(events, n), n);
    OneMoreText(events, n);
  }

  lemma AdvanceTracks(started: real, events: seq<Event>, n: nat, s: State)
    requires n < |events| && events[n].time >= 0.0 && Tracks(started, events, n, s)
    ensures Tracks(started, events, n + 1, Advance(s, events[n]))
  {
    GapBeginsText(events, n);
    if Captured(events, n) {
      CaptureTracks(started, events, n, s);
    } else {
      assert Captures(events, n + 1) == Captures(events, n);
    }
  }

  lemma AdvanceSteps(started: real, events: seq<Event>, n: nat, s: State)
    requires n < |events| && events[n].time >= 0.0 && Tracks(started, events, n, s)
    requires |s.steps| == |Captures(events, n)|
    ensures Advance(s, events[n]).steps == if !Captured(events, n) then s.steps else
              s.steps + [StepAt(started, events, Captures(events, n) + [n], |s.steps|)]
  {
    GapBeginsText(events, n);
    if Captured(events, n) {
      NewStep(started, events, Captures(events, n), n);
    }
  }

  lemma AppendStep(started: real, events: seq<Event>, c: seq<nat>, n: nat, steps: seq<Step>, step: Step)
    requires OverWindows(events, c) && OverWindows(events, c + [n]) && |c| < MAX_STEPS
    requires StepsFrom(started, events, c, steps) && step == StepAt(started, events, c + [n], |c|)
    ensures StepsFrom(started, events, c + [n], steps + [step])
  {
    MoreCaptures(started, events, c, c + [n], steps);
  }

  lemma StepsGrow(started: real, events: seq<Event>, n: nat, s: State)
    requires n < |events| && events[n].time >= 0.0 && Tracks(started, events, n, s)
    requires |Captures(events, n)| < MAX_STEPS && StepsFrom(started, events, Captures(events, n), s.steps)
    ensures StepsFrom(started, events, Captures(events, n + 1), Advance(s, events[n]).steps)
  {
    AdvanceSteps(started, events, n, s);
    var c := Captures(events, n);
    if Captured(events, n) {
      AppendStep(started, events, c, n, s.steps, StepAt(started, events, c + [n], |c|));
    }
  }

  /** The loop's variables after `n` events, as far as the next event can see them. */
  ghost predicate Follows(started: real, events: seq<Event>, n: nat, s: State)
    requires n <= |events|
  {
    && StepsFrom(started, events, Captures(events, n), s.steps)
    && (|Captures(events, n)| < MAX_STEPS ==> Tracks(started, events, n, s))
  }

  lemma FollowsOn(started: real, events: seq<Event>, n: nat, s: State)
    requires n < |events| && events[n].time >= 0.0 && Follows(started, events, n, s) && |s.steps| < MAX_STEPS
    ensures Follows(started, events, n + 1, Advance(s, events[n]))
  {
    AdvanceTracks(started, events, n, s);
    StepsGrow(started, events, n, s);
  }

  lemma FollowsAtLimit(started: real, events: seq<Event>, n: nat, s: State)
    requires n < |events| && Follows(started, events, n, s) && |s.steps| >= MAX_STEPS
    ensures Follows(started, events, n + 1, s)
  {
    MoreCaptures(started, events, Captures(events, n), Captures(events, n + 1), s.steps);
  }

  lemma FollowsAtStart(started: real, events: seq<Event>)
    ensures Follows(started, events, 0, Start(started))
  {
  }

  lemma FollowsNext(started: real, events: seq<Event>, n: nat)
    requires n < |events| && events[n].time >= 0.0
    requires Follows(started, events, n, Learn(started, events[..n]))
    ensures Follows(started, events, n + 1, Learn(started, events[..n + 1]))
  {
    LearnStep(started, events, n);
    var s := Learn(started, events[..n]);
    if |s.steps| < MAX_STEPS {
      FollowsOn(started, events, n, s);
    } else {
      FollowsAtLimit(started, events, n, s);
    }
  }

  lemma {:induction false} LearnFollows(started: real, events: seq<Event>, n: nat)
    requires n <= |events| && AllRecorded(events)
    ensures Follows(started, events, n, Learn(started, events[..n]))
    decreases n
  {
    if n == 0 {
      FollowsAtStart(started, events);
    } else {
      var m := n - 1;
      LearnFollows(started, events, m);
      assert Recorded(events[m]);
      FollowsNext(started, events, m);
    }
  }

  /** The step at place `k` says what the event at `positions[k]` does: where it was clicked or which key
      was pressed, over which window, and how long after the step before. */
  ghost predicate TaughtBy(started: real, events: seq<Event>, positions: seq<nat>, k: nat, step: Step)
    requires k < |positions| && OverWindows(events, positions)
  {
    var e := events[positions[k]];
    var last := if k == 0 then started else events[positions[k - 1]].time;
    Teaches(e, e.window.value, k, last, Texts(events, positions[..k]), step)
  }

  /** The learned steps are exactly those of the first hundred captured events, in order: every click,
      safe key and CTRL combination over a window, and every keystroke that begins a text. */
  lemma StepsAreCaptures(started: real, events: seq<Event>)
    requires AllRecorded(events)
    ensures StepsFrom(started, events, Captures(events, |events|), Learn(started, events).steps)
    ensures var c, steps := Captures(events, |events|), Learn(started, events).steps;
            && |steps| == (if |c| < MAX_STEPS then |c| else MAX_STEPS)
            && forall k :: 0 <= k < |steps| ==> TaughtBy(started, events, c, k, steps[k])
  {
    LearnFollows(started, events, |events|);
    assert events[..|events|] == events;
  }

  // ----- what the steps do not tell -----

  /** Two recordings that differ at most in which plain key was pressed each time. */
  ghost predicate SameButPlainKeys(a: seq<Event>, b: seq<Event>) {
    && |a| == |b|
    && forall i :: 0 <= i < |a| ==>
         a[i] == b[i] || (IsPlain(a[i]) && IsPlain(b[i]) && a[i].time == b[i].time && a[i].window == b[i].window)
  }

  /** The keys of typed text leave no trace: such recordings teach the same steps. */
  lemma {:induction false} PlainKeysLeaveNoTrace(started: real, a: seq<Event>, b: seq<Event>)
    requires SameButPlainKeys(a, b)
    ensures Learn(started, a) == Learn(started, b)
    decreases |a|
  {
    if a != [] {
      var n := |a| - 1;
      PlainKeysLeaveNoTrace(started, a[..n], b[..n]);
      assert a[n] == b[n] || (IsPlain(a[n]) && IsPlain(b[n]));
    }
  }
}
