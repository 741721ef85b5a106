/**
 The child processes of a scheduled cycle: what `cycle` and `experiment-run` print and do, and how a
 receipt is found again in what they printed. A line is what it reads as: a JSON object with a schema,
 or anything else.
 */
module CycleLaunch {
  import opened Wrappers

  const MAX_CAPTURE_CHARS := 262144
  const MAX_LINE_CHARS := 65536
  const MINIMUM_AVAILABLE_BYTES := 2 * 1024 * 1024 * 1024

  // ----- receipts and lines -----

  datatype CycleStatus =
    | Blocked | NoDueMission | OwnerGateRequired | CycleError | ExecutionFailed | Completed | QualityFailed
    | OtherStatus

  datatype CycleReason = InsufficientMemory | NoDueReason | OtherReason

  /** A field that is missing or of another type is None. The number of missions is compared as Python
      compares it: what equals 0 there, such as false and 0.0, reads as Some(0). */
  datatype Receipt =
    | CycleReceipt(status: CycleStatus, reason: CycleReason, missionsRun: Option<int>, modelCalled: Option<bool>)
    | PendingReceipt(ready: bool, count: Option<int>, modelCalled: Option<bool>, stateMutated: Option<bool>,
                     external: Option<bool>)
    | ExperimentReceipt(texts: bool, modelCalled: Option<bool>, stateMutated: Option<bool>, external: Option<bool>)
    | OtherReceipt

  datatype Schema = CycleSchema | PendingSchema | ExperimentSchema

  datatype Line = Line(size: nat, receipt: Option<Receipt>)

  /** Captured output: its lines and its length in characters. */
  datatype Stream = Stream(lines: seq<Line>, size: nat)

  /** A line the search accepts for a schema. */
  predicate Carries(line: Line, schema: Schema) {
    && line.size <= MAX_LINE_CHARS
    && line.receipt.Some?
    && match schema
       case CycleSchema => line.receipt.value.CycleReceipt?
       case PendingSchema => line.receipt.value.PendingReceipt?
       case ExperimentSchema => line.receipt.value.ExperimentReceipt?
  }

  /** `r` is the last accepted receipt among the lines, if there is any. */
  ghost predicate IsLast(lines: seq<Line>, schema: Schema, r: Option<Receipt>) {
    if r.None? then forall i :: 0 <= i < |lines| ==> !Carries(lines[i], schema)
    else exists i :: 0 <= i < |lines| && Carries(lines[i], schema) && lines[i].receipt == r
                     && forall k :: i < k < |lines| ==> !Carries(lines[k], schema)
  }

  ghost predicate Finds(out: Stream, err: Stream, schema: Schema, r: Option<Receipt>) {
    if out.size > MAX_CAPTURE_CHARS || err.size > MAX_CAPTURE_CHARS then r.None?
    else IsLast(out.lines + err.lines, schema, r)
  }

  function LastReceipt(lines: seq<Line>, schema: Schema): (r: Option<Receipt>)
    ensures IsLast(lines, schema, r)
  {
    if lines == [] then None
    else if Carries(lines[|lines| - 1], schema) then lines[|lines| - 1].receipt
    else LastReceipt(lines[..|lines| - 1], schema)
  }

  function ReceiptOf(out: Stream, err: Stream, schema: Schema): (r: Option<Receipt>)
    ensures Finds(out, err, schema, r)
  {
    if out.size > MAX_CAPTURE_CHARS || err.size > MAX_CAPTURE_CHARS then None
    else LastReceipt(out.lines + err.lines, schema)
  }

  lemma OneLastReceipt(lines: seq<Line>, schema: Schema, r: Option<Receipt>, s: Option<Receipt>)
    requires IsLast(lines, schema, r) && IsLast(lines, schema, s)
    ensures r == s
  {
    if r.Some? && s.Some? {
      var i :| 0 <= i < |lines| && Carries(lines[i], schema) && lines[i].receipt == r
               && forall k :: i < k < |lines| ==> !Carries(lines[k], schema);
      var j :| 0 <= j < |lines| && Carries(lines[j], schema) && lines[j].receipt == s
               && forall k :: j < k < |lines| ==> !Carries(lines[k], schema);
      assert i == j;
    }
  }

  /** A line of more than 65536 characters is passed over; a shorter one that reads as a receipt of the schema
      hides every earlier one. */
  lemma LastLineCounts(lines: seq<Line>, line: Line, schema: Schema)
    ensures var fits := line.size <= 65536 && match line.receipt
                        case Some(CycleReceipt(_, _, _, _)) => schema.CycleSchema?
                        case Some(PendingReceipt(_, _, _, _, _)) => schema.PendingSchema?
                        case Some(ExperimentReceipt(_, _, _, _)) => schema.ExperimentSchema?
                        case _ => false;
            LastReceipt(lines + [line], schema) == if fits then line.receipt else LastReceipt(lines, schema)
  {
    assert (lines + [line])[..|lines|] == lines;
  }

  /** The search from the last line back. */
  method JsonReceipt(out: Stream, err: Stream, schema: Schema) returns (r: Option<Receipt>)
    ensures Finds(out, err, schema, r)
    ensures r == ReceiptOf(out, err, schema)
  {
    if out.size > MAX_CAPTURE_CHARS || err.size > MAX_CAPTURE_CHARS {
      return None;
    }
    var lines := out.lines + err.lines;
    var i := |lines|;
    while i > 0
      invariant 0 <= i <= |lines|
      invariant forall k :: i <= k < |lines| ==> !Carries(lines[k], schema)
    {
      i := i - 1;
      if Carries(lines[i], schema) {
        r := lines[i].receipt;
        OneLastReceipt(lines, schema, r, ReceiptOf(out, err, schema));
        return;
      }
    }
    r := None;
    OneLastReceipt(lines, schema, r, ReceiptOf(out, err, schema));
  }

  // ----- one `cycle` process -----

  /** What a process did besides printing: missions or prompts handed to a model, memory recoveries. */
  datatype Effects = Effects(models: nat, recoveries: nat)

  const NOTHING := Effects(0, 0)

  /** Text a child printed; `ended` is false when its last line has no line end. */
  datatype Text = Text(lines: seq<Line>, ended: bool)

  const SILENT := Text([], true)

  /** Printing a line right after some text: it is glued to an unended last line. */
  function PrintAfter(t: Text, line: Line): (r: seq<Line>)
    ensures forall x :: x in r ==> x in t.lines || x == line || x.receipt.None?
    ensures t.ended || t.lines == [] ==> line in r
  {
    if t.ended || t.lines == [] then t.lines + [line]
    else
      var n := |t.lines| - 1;
      t.lines[..n] + [Line(t.lines[n].size + line.size, None)]
  }

  /** A finished `cycle` process. `mission` and `missionErrors` are what the mission's own process
      printed, which is passed on; `own` is the receipt line the cycle printed. */
  datatype Launch = Launch(
    code: int, out: Stream, err: Stream, own: Line, mission: Text, missionErrors: Text, effects: Effects)

  datatype PreviewStatus = PreviewNoDue | PreviewBlocked | PreviewOwnerGate | PreviewReady

  datatype Preview = BadPreview | Preview(status: PreviewStatus, consistent: bool)

  datatype Quality = Unreadable | Judged(passed: bool)

  datatype CycleAnswers = CycleAnswers(
    tickCode: int, tickMatches: bool, tickErrors: Text,
    previewCode: int, preview: Preview, previewErrors: Text,
    boundCode: int, boundReady: bool, boundErrors: Text,
    memory: Option<int>, recovery: bool, memoryAfter: Option<int>,
    runCode: int, mission: Text, missionErrors: Text, completes: bool, quality: Quality,
    ownSize: nat, outSize: nat, errSize: nat)

  /** What any `cycle` process promises about its exit code and receipt. */
  ghost predicate CycleFits(recover: bool, l: Launch) {
    && l.effects.models <= 1
    && l.effects.recoveries <= (if recover then 1 else 0)
    && (l.own.receipt.Some? && l.own.receipt.value.CycleReceipt?)
    && (l.code == 0 && l.effects.models == 0 ==>
          && l.out.lines == [l.own] && l.err.lines == []
          && l.own.receipt.value.missionsRun == Some(0) && l.own.receipt.value.modelCalled == Some(false))
    && (l.code == 0 && l.effects.models == 1 ==>
          && l.out.lines == PrintAfter(l.mission, l.own) && l.err.lines == l.missionErrors.lines
          && l.own.receipt.value == CycleReceipt(Completed, OtherReason, Some(1), Some(true)))
  }

  function NoMission(status: CycleStatus, reason: CycleReason): Receipt {
    CycleReceipt(status, reason, Some(0), Some(false))
  }

  function OrTwo(code: int): (r: int)
    ensures r != 0
  {
    if code != 0 then code else 2
  }

  /** The cycle reports on standard output, with nothing else printed. */
  function Reports(a: CycleAnswers, code: int, receipt: Receipt, effects: Effects): Launch {
    var own := Line(a.ownSize, Some(receipt));
    Launch(code, Stream([own], a.outSize), Stream([], a.errSize), own, SILENT, SILENT, effects)
  }

  /** The cycle reports an error, after the failed step's own error text. */
  function Complains(a: CycleAnswers, code: int, receipt: Receipt, errors: Text, effects: Effects): Launch {
    var own := Line(a.ownSize, Some(receipt));
    Launch(code, Stream([], a.outSize), Stream(PrintAfter(errors, own), a.errSize), own, SILENT, errors, effects)
  }

  /** A mission was run; its text comes first, the receipt after it. */
  function Passes(a: CycleAnswers, code: int, receipt: Receipt, complains: bool, recoveries: nat): Launch {
    var own := Line(a.ownSize, Some(receipt));
    if complains then
      Launch(code, Stream(a.mission.lines, a.outSize), Stream(PrintAfter(a.missionErrors, own), a.errSize),
             own, a.mission, a.missionErrors, Effects(1, recoveries))
    else
      Launch(code, Stream(PrintAfter(a.mission, own), a.outSize), Stream(a.missionErrors.lines, a.errSize),
             own, a.mission, a.missionErrors, Effects(1, recoveries))
  }

  // ----- how a cycle ends, from its answers -----

  predicate PreviewReads(a: CycleAnswers) {
    a.tickCode == 0 && a.tickMatches && a.previewCode == 0 && a.preview.Preview?
  }

  predicate IsBound(a: CycleAnswers) {
    PreviewReads(a) && a.preview == Preview(PreviewReady, true) && a.boundCode == 0 && a.boundReady
  }

  predicate IsLow(memory: int) {
    memory < 2147483648
  }

  /** Too little memory at first, with leave to recover some. */
  predicate Recovers(a: CycleAnswers, recover: bool) {
    IsBound(a) && a.memory.Some? && IsLow(a.memory.value) && recover
  }

  /** There is memory for the mission, at once or after a recovery. */
  predicate RunsMission(a: CycleAnswers, recover: bool) {
    && IsBound(a) && a.memory.Some?
    && (|| !IsLow(a.memory.value)
        || (recover && a.recovery && a.memoryAfter.Some? && !IsLow(a.memoryAfter.value)))
  }

  /** The exit code and receipt of a cycle that runs no mission. */
  predicate EndsBefore(a: CycleAnswers, recover: bool, code: int, r: Receipt) {
    && r.CycleReceipt? && r.missionsRun == Some(0) && r.modelCalled == Some(false)
    && (r.reason.NoDueReason? <==> r.status.NoDueMission?)
    && if a.tickCode != 0 || !a.tickMatches then
         r.status.CycleError? && r.reason.OtherReason? && code == (if a.tickCode == 0 then 2 else a.tickCode)
       else if !PreviewReads(a) then
         r.status.CycleError? && r.reason.OtherReason? && code == (if a.previewCode == 0 then 2 else a.previewCode)
       else if a.preview.status.PreviewNoDue? then r.status.NoDueMission? && code == 0
       else if a.preview.status.PreviewBlocked? then r.status.Blocked? && r.reason.OtherReason? && code == 0
       else if a.preview.status.PreviewOwnerGate? then r.status.OwnerGateRequired? && r.reason.OtherReason? && code == 0
       else if !a.preview.consistent then r.status.CycleError? && r.reason.OtherReason? && code == 2
       else if !IsBound(a) then r.status.Blocked? && r.reason.OtherReason? && code == 2
       else if a.memory.None? then r.status.Blocked? && r.reason.OtherReason? && code == 0
       else if Recovers(a, recover) && !a.recovery then r.status.CycleError? && r.reason.OtherReason? && code == 2
       else
         r.status.Blocked? && code == 0
         && (r.reason.InsufficientMemory? <==> !Recovers(a, recover) || a.memoryAfter.Some?)
  }

  /** The exit code and receipt of a cycle that runs one. */
  predicate EndsAfter(a: CycleAnswers, code: int, r: Receipt) {
    && r.CycleReceipt? && r.reason.OtherReason?
    && if a.runCode != 0 || !a.completes then
         && r.status.ExecutionFailed? && r.missionsRun.None? && r.modelCalled.None?
         && code == (if a.runCode == 0 then 2 else a.runCode)
       else
         && r.missionsRun == Some(1) && r.modelCalled == Some(true)
         && match a.quality
            case Unreadable => r.status.CycleError? && code == 2
            case Judged(passed) =>
              if passed then r.status.Completed? && code == 0 else r.status.QualityFailed? && code == 1
  }

  /** Without a mission: an error follows what the failed step printed on standard error, anything else stands
      alone on standard output. */
  predicate PrintsBefore(a: CycleAnswers, l: Launch) {
    if l.code == 0 then l.out.lines == [l.own] && l.err.lines == []
    else
      && l.out.lines == []
      && l.err.lines == if a.tickCode != 0 || !a.tickMatches then PrintAfter(a.tickErrors, l.own)
                        else if !PreviewReads(a) then PrintAfter(a.previewErrors, l.own)
                        else if a.preview.consistent && !IsBound(a) then PrintAfter(a.boundErrors, l.own)
                        else [l.own]
  }

  /** After a mission: the receipt follows the mission's output when its quality is judged, else its errors. */
  predicate PrintsAfter(a: CycleAnswers, l: Launch) {
    if a.runCode == 0 && a.completes && a.quality.Judged? then
      l.out.lines == PrintAfter(a.mission, l.own) && l.err.lines == a.missionErrors.lines
    else
      l.out.lines == a.mission.lines && l.err.lines == PrintAfter(a.missionErrors, l.own)
  }

  method RunCycle(a: CycleAnswers, recover: bool) returns (l: Launch)
    ensures CycleFits(recover, l)
    ensures l.effects.models == 1 ==>
              && a.tickCode == 0 && a.previewCode == 0 && a.preview == Preview(PreviewReady, true)
              && a.boundCode == 0 && a.boundReady
              && (l.effects.recoveries == 0 ==> a.memory.Some? && a.memory.value >= MINIMUM_AVAILABLE_BYTES)
              && (l.effects.recoveries == 1 ==> a.memoryAfter.Some? && a.memoryAfter.value >= MINIMUM_AVAILABLE_BYTES)
    ensures l.effects.models == 1 ==> l.mission == a.mission && l.missionErrors == a.missionErrors
    ensures l.own.receipt.value.status.NoDueMission? <==>
              && a.tickCode == 0 && a.tickMatches && a.previewCode == 0
              && a.preview.Preview? && a.preview.status.PreviewNoDue?
    ensures l.own.receipt.value.reason.InsufficientMemory? <==>
              && a.tickCode == 0 && a.tickMatches && a.previewCode == 0 && a.preview == Preview(PreviewReady, true)
              && a.boundCode == 0 && a.boundReady && a.memory.Some? && a.memory.value < MINIMUM_AVAILABLE_BYTES
              && (recover ==> a.recovery && a.memoryAfter.Some? && a.memoryAfter.value < MINIMUM_AVAILABLE_BYTES)
    ensures l.code == 0 && l.effects.models == 1 <==>
              l.effects.models == 1 && a.runCode == 0 && a.completes && a.quality == Judged(true)
    ensures l.effects == Effects(if RunsMission(a, recover) then 1 else 0, if Recovers(a, recover) then 1 else 0)
    ensures if RunsMission(a, recover) then EndsAfter(a, l.code, l.own.receipt.value)
            else EndsBefore(a, recover, l.code, l.own.receipt.value)
    ensures l.own.size == a.ownSize && l.out.size == a.outSize && l.err.size == a.errSize
    ensures l.own in l.out.lines + l.err.lines || !(a.mission.ended && a.missionErrors.ended && a.tickErrors.ended
                                                    && a.previewErrors.ended && a.boundErrors.ended)
    ensures if RunsMission(a, recover) then PrintsAfter(a, l) else PrintsBefore(a, l)
  {
    if a.tickCode != 0 || !a.tickMatches {
      return Complains(a, OrTwo(a.tickCode), NoMission(CycleError, OtherReason), a.tickErrors, NOTHING);
    }
    if a.previewCode != 0 || a.preview.BadPreview? {
      return Complains(a, OrTwo(a.previewCode), NoMission(CycleError, OtherReason), a.previewErrors, NOTHING);
    }
    match a.preview.status {
      case PreviewNoDue => return Reports(a, 0, NoMission(NoDueMission, NoDueReason), NOTHING);
      case PreviewBlocked => return Reports(a, 0, NoMission(Blocked, OtherReason), NOTHING);
      case PreviewOwnerGate => return Reports(a, 0, NoMission(OwnerGateRequired, OtherReason), NOTHING);
      case PreviewReady =>
    }
    if !a.preview.consistent {
      return Complains(a, 2, NoMission(CycleError, OtherReason), SILENT, NOTHING);
    }
    if a.boundCode != 0 || !a.boundReady {
      return Complains(a, 2, NoMission(Blocked, OtherReason), a.boundErrors, NOTHING);
    }
    if a.memory.None? {
      return Reports(a, 0, NoMission(Blocked, OtherReason), NOTHING);
    }
    var available, recoveries := a.memory.value, 0;
    if available < MINIMUM_AVAILABLE_BYTES && recover {
      recoveries := 1;
      if !a.recovery {
        return Complains(a, 2, NoMission(CycleError, OtherReason), SILENT, Effects(0, recoveries));
      }
      if a.memoryAfter.None? {
        return Reports(a, 0, NoMission(Blocked, OtherReason), Effects(0, recoveries));
      }
      available := a.memoryAfter.value;
    }
    if available < MINIMUM_AVAILABLE_BYTES {
      return Reports(a, 0, NoMission(Blocked, InsufficientMemory), Effects(0, recoveries));
    }
    if a.runCode != 0 || !a.completes {
      return Passes(a, OrTwo(a.runCode), CycleReceipt(ExecutionFailed, OtherReason, None, None), true, recoveries);
    }
    match a.quality {
      case Unreadable =>
        return Passes(a, 2, CycleReceipt(CycleError, OtherReason, Some(1), Some(true)), true, recoveries);
      case Judged(passed) =>
        var status := if passed then Completed else QualityFailed;
        var receipt := CycleReceipt(status, OtherReason, Some(1), Some(true));
        return Passes(a, if passed then 0 else 1, receipt, false, recoveries);
    }
  }

  // ----- one `experiment-run` process -----

  /** Where one governed prompt run stops: before a model is chosen, in the agent, or with evidence. */
  datatype PromptAnswers =
    | RejectedEarly(memory: bool) | AgentTimesOut | AgentRaises | AgentAnswers(accepted: bool, external: bool)

  datatype PromptReceipt = PromptReceipt(blocked: bool, memoryBlocked: bool, modelCalled: bool, external: bool)

  /** The prompt runner. A receipt without a model call means that no agent was started, and only such
      a receipt can name blocked memory as its reason. */
  method RunPrompt(a: PromptAnswers) returns (code: int, receipt: PromptReceipt, invoked: bool)
    ensures invoked <==> receipt.modelCalled
    ensures receipt.memoryBlocked <==> a == RejectedEarly(true)
    ensures receipt.memoryBlocked ==> receipt.blocked && code != 0 && !invoked
    ensures code == 0 <==> a == AgentAnswers(true, false)
    ensures code in {0, 1, 2} && (code == 1 ==> a.AgentAnswers?)
    ensures invoked <==> !a.RejectedEarly?
    ensures receipt.external <==> a.AgentAnswers? && a.external
    ensures receipt.blocked <==> !a.AgentAnswers?
  {
    var chosen := false;
    invoked := false;
    match a {
      case RejectedEarly(memory) =>
        return 2, PromptReceipt(true, memory, chosen, false), invoked;
      case AgentTimesOut =>
        chosen, invoked := true, true;
        return 2, PromptReceipt(true, false, chosen, false), invoked;
      case AgentRaises =>
        chosen, invoked := true, true;
        return 2, PromptReceipt(true, false, chosen, false), invoked;
      case AgentAnswers(accepted, external) =>
        chosen, invoked := true, true;
        return if accepted && !external then 0 else 1, PromptReceipt(false, false, chosen, external), invoked;
    }
  }

  datatype Plan = PlanReady | PlanNotNeeded | PlanBroken

  /** `readable` says whether the runner's output could be read as its receipt; `reviewable` whether an
      accepted receipt passes every further check. */
  datatype ExperimentAnswers = ExperimentAnswers(
    plan: Plan, first: PromptAnswers, readable: bool, recovery: bool, second: PromptAnswers, secondReadable: bool,
    reviewable: bool, ownSize: nat, outSize: nat, errSize: nat)

  datatype Child = Child(code: int, out: Stream, err: Stream, effects: Effects)

  /** What any `experiment-run` process promises. */
  predicate ExperimentFits(recover: bool, c: Child) {
    c.effects.models <= 1 && c.effects.recoveries <= (if recover then 1 else 0)
  }

  function Says(code: int, receipt: Receipt, a: ExperimentAnswers, effects: Effects): Child {
    Child(code, Stream([Line(a.ownSize, Some(receipt))], a.outSize), Stream([], a.errSize), effects)
  }

  /** A ValueError ends the process with a receipt of another schema on standard error. */
  function Fails(a: ExperimentAnswers, effects: Effects): Child {
    Child(2, Stream([], a.outSize), Stream([Line(a.ownSize, Some(OtherReceipt))], a.errSize), effects)
  }

  predicate StartsAgent(p: PromptAnswers) {
    !p.RejectedEarly?
  }

  predicate IsExternal(p: PromptAnswers) {
    p.AgentAnswers? && p.external
  }

  /** The first prompt is rejected for lack of memory, with leave to recover some. */
  predicate MayRecover(recover: bool, a: ExperimentAnswers) {
    recover && a.first == RejectedEarly(true)
  }

  predicate StartsAgain(recover: bool, a: ExperimentAnswers) {
    a.readable && MayRecover(recover, a) && a.recovery && StartsAgent(a.second)
  }

  /** The prompt run whose receipt counts, if there is one. */
  function LastPrompt(recover: bool, a: ExperimentAnswers): Option<PromptAnswers> {
    if !MayRecover(recover, a) then Some(a.first)
    else if a.recovery && a.secondReadable then Some(a.second)
    else None
  }

  /** The plan is broken, or the receipt that counts cannot be read. */
  predicate FailsOutright(recover: bool, a: ExperimentAnswers) {
    || a.plan.PlanBroken?
    || (a.plan.PlanReady? && (!a.readable || (MayRecover(recover, a) && a.recovery && !a.secondReadable)))
  }

  method RunExperiment(recover: bool, a: ExperimentAnswers) returns (c: Child)
    ensures ExperimentFits(recover, c)
    ensures c.effects.models == 1 ==> a.plan.PlanReady?
    ensures c.effects.recoveries == 1 ==> recover && a.first == RejectedEarly(true)
    ensures c.code == 0 && c.effects.models == 0 ==> a.plan.PlanNotNeeded?
    ensures c.code == 0 <==> || a.plan.PlanNotNeeded?
                             || (a.plan.PlanReady? && a.readable && a.reviewable && LastPrompt(recover, a).Some?
                                 && LastPrompt(recover, a).value == AgentAnswers(true, false))
    ensures c.code in {0, 1, 2}
    ensures c.code == 2 <==> || a.plan.PlanBroken?
                             || (a.plan.PlanReady? && (!a.readable || LastPrompt(recover, a).None?))
    ensures c.effects.models ==
            if a.plan.PlanReady? && (StartsAgent(a.first) || StartsAgain(recover, a)) then 1 else 0
    ensures c.effects.recoveries == (if a.plan.PlanReady? && a.readable && MayRecover(recover, a) then 1 else 0)
    ensures a.plan.PlanReady? && a.readable && LastPrompt(recover, a).Some? ==>
              c.out.lines == [Line(a.ownSize, Some(ExperimentReceipt(
                                     true, Some(StartsAgent(LastPrompt(recover, a).value)), Some(c.code == 0),
                                     Some(IsExternal(LastPrompt(recover, a).value)))))]
    ensures a.plan.PlanNotNeeded? || (a.plan.PlanReady? && a.readable && MayRecover(recover, a) && !a.recovery) ==>
              c.out.lines == [Line(a.ownSize, Some(ExperimentReceipt(true, Some(false), Some(false), Some(false))))]
    ensures c.out.lines == [] <==> FailsOutright(recover, a)
    ensures c.err.lines == (if FailsOutright(recover, a) then [Line(a.ownSize, Some(OtherReceipt))] else [])
    ensures c.out.size == a.outSize && c.err.size == a.errSize
  {
    if a.plan.PlanNotNeeded? {
      return Says(0, ExperimentReceipt(true, Some(false), Some(false), Some(false)), a, NOTHING);
    }
    if a.plan.PlanBroken? {
      return Fails(a, NOTHING);
    }
    var code, receipt, invoked := RunPrompt(a.first);
    var effects := Effects(if invoked then 1 else 0, 0);
    if !a.readable {
      return Fails(a, effects);
    }
    if recover && code != 0 && receipt.blocked && receipt.memoryBlocked && !receipt.modelCalled {
      effects := effects.(recoveries := 1);
      if !a.recovery {
        return Says(2, ExperimentReceipt(true, Some(false), Some(false), Some(false)), a, effects);
      }
      code, receipt, invoked := RunPrompt(a.second);
      effects := effects.(models := effects.models + if invoked then 1 else 0);
      if !a.secondReadable {
        return Fails(a, effects);
      }
    }
    var accepted := code == 0 && receipt.modelCalled && a.reviewable;
    return Says(if accepted then 0 else 1,
                ExperimentReceipt(true, Some(receipt.modelCalled), Some(accepted), Some(receipt.external)), a, effects);
  }
}
