/**
 The local company's MCP session over standard input and output: framing into lines, the opening
 handshake, one answer to every request, and a bounded number of tool calls. The company's own tools
 answer with an arbitrary outcome for every call.
 */
module McpSession {
  import opened Wrappers
  import opened JsonValues

  const MAX_MESSAGE_BYTES := 1048576
  const MAX_TOOL_CALLS := 128
  const NEWLINE := 10
  const PROTOCOL_VERSION := "2025-06-18"

  type Byte = x: int | 0 <= x < 256 witness 0

  // ----- requests and responses -----

  datatype StartParams = NotAnObject | NoVersion | Version(text: string)

  /** The parameters of a tool call: not usable, or a name and arguments where given. */
  datatype Call = BadCall | Call(name: Option<string>, arguments: Option<Json>)

  datatype Verb =
    | NotText | Initialize(start: StartParams) | NotifyInitialized | Ping | ListTools | CallTool(call: Call)
    | OtherMethod

  /** A message as read: not an object of the right version, or an identifier, null if absent, and a method. */
  datatype Request = NoRequest | Request(id: Json, verb: Verb)

  datatype Fault =
    | InvalidRequest | InvalidInitialize | InvalidProtocolVersion | NotInitialized | CallLimit | InvalidToolCall
    | UnknownTool | UnknownAction | InvalidArguments | MethodNotFound | OperationFailed | ParseError
    | FromTool(code: int, message: string)

  datatype Body = Started(version: string) | Pong | Listed | Called(result: Json) | Failed(fault: Fault)

  datatype Response = Response(id: Json, body: Body)

  /** How a tool ends: an answer, a refusal, a failure the session hides, or an error it does not catch. */
  datatype Outcome = Returns(result: Json) | Refuses(code: int, message: string) | Fails | Crashes

  datatype Profile = Full | Compact

  /** The tools of the company: their names, and what each does on the n-th call. */
  datatype Company = Company(names: set<string>, supported: set<string>, run: (nat, string, Json) -> Outcome)

  // ----- which tool a call reaches -----

  const NO_INPUT := JObject(map[])

  function Given(o: Option<Json>): Json {
    if o.Some? then o.value else NO_INPUT
  }

  /** Compact dispatch: one tool whose arguments name an action and its input. */
  function Dispatch(names: set<string>, arguments: Json): Result<(string, Json), Fault> {
    if !arguments.JObject? then Err(InvalidArguments)
    else if exists k :: k in arguments.entries && k != "action" && k != "input" then Err(InvalidArguments)
    else
      var action := At(arguments.entries, "action");
      if !action.JString? || action.s !in names then Err(UnknownAction)
      else Ok((action.s, if "input" in arguments.entries then arguments.entries["input"] else NO_INPUT))
  }

  function Resolve(profile: Profile, names: set<string>, call: Call): Result<(string, Json), Fault> {
    if call.BadCall? then Err(InvalidToolCall)
    else if call.name.None? then Err(UnknownTool)
    else if profile.Compact? then
      if call.name.value == "company" then Dispatch(names, Given(call.arguments)) else Err(UnknownTool)
    else if call.name.value in names then Ok((call.name.value, Given(call.arguments)))
    else Err(UnknownTool)
  }

  // ----- one message -----

  datatype State = State(initialized: bool, version: Option<string>, calls: nat)

  const FRESH := State(false, None, 0)

  /** What one message leads to: perhaps a response, perhaps a tool run, perhaps the end. */
  datatype Reply = Reply(response: Option<Response>, ran: Option<(string, Json)>, crashed: bool)

  function Answer(id: Json, body: Body): Reply {
    Reply(Some(Response(id, body)), None, false)
  }

  function RunTool(company: Company, id: Json, count: nat, tool: string, input: Json): Reply {
    match company.run(count, tool, input)
    case Returns(result) => Reply(Some(Response(id, Called(result))), Some((tool, input)), false)
    case Refuses(code, message) =>
      Reply(Some(Response(id, Failed(FromTool(code, message)))), Some((tool, input)), false)
    case Fails => Reply(Some(Response(id, Failed(OperationFailed))), Some((tool, input)), false)
    case Crashes => Reply(None, Some((tool, input)), true)
  }

  function AfterCall(company: Company, profile: Profile, id: Json, count: nat, call: Call): Reply {
    if count > MAX_TOOL_CALLS then Answer(id, Failed(CallLimit))
    else
      match Resolve(profile, company.names, call)
      case Err(fault) => Answer(id, Failed(fault))
      case Ok((tool, input)) => RunTool(company, id, count, tool, input)
  }

  /** The state and the reply after one message. */
  function Step(company: Company, profile: Profile, s: State, request: Request): (State, Reply) {
    if request.NoRequest? then (s, Answer(JNull, Failed(InvalidRequest)))
    else if request.verb.NotText? then (s, Answer(request.id, Failed(InvalidRequest)))
    else if request.id.JNull? then
      (if request.verb.NotifyInitialized? && s.version.Some? then s.(initialized := true) else s,
       Reply(None, None, false))
    else if request.verb.Initialize? then
      var start := request.verb.start;
      if s.version.Some? || start.NotAnObject? then (s, Answer(request.id, Failed(InvalidInitialize)))
      else if start.NoVersion? then (s, Answer(request.id, Failed(InvalidProtocolVersion)))
      else
        var version := if start.text in company.supported then start.text else PROTOCOL_VERSION;
        (s.(version := Some(version)), Answer(request.id, Started(version)))
    else if !s.initialized then (s, Answer(request.id, Failed(NotInitialized)))
    else
      match request.verb
      case Ping => (s, Answer(request.id, Pong))
      case ListTools => (s, Answer(request.id, Listed))
      case CallTool(call) =>
        (s.(calls := s.calls + 1), AfterCall(company, profile, request.id, s.calls + 1, call))
      case _ => (s, Answer(request.id, Failed(MethodNotFound)))
  }

  /** The session object. */
  class Session {
    const company: Company
    const profile: Profile
    var initialized: bool
    var version: Option<string>
    var calls: nat

    constructor (company: Company, profile: Profile)
      ensures Now() == FRESH && this.company == company && this.profile == profile
    {
      this.company, this.profile := company, profile;
      initialized, version, calls := false, None, 0;
    }

    function Now(): State
      reads this
    {
      State(initialized, version, calls)
    }

    method Handle(request: Request) returns (reply: Reply)
      modifies this
      ensures (Now(), reply) == Step(company, profile, old(Now()), request)
    {
      if request.NoRequest? {
        return Answer(JNull, Failed(InvalidRequest));
      }
      if request.verb.NotText? {
        return Answer(request.id, Failed(InvalidRequest));
      }
      if request.id.JNull? {
        if request.verb.NotifyInitialized? && version.Some? {
          initialized := true;
        }
        return Reply(None, None, false);
      }
      if request.verb.Initialize? {
        var start := request.verb.start;
        if version.Some? || start.NotAnObject? {
          return Answer(request.id, Failed(InvalidInitialize));
        }
        if start.NoVersion? {
          return Answer(request.id, Failed(InvalidProtocolVersion));
        }
        version := Some(if start.text in company.supported then start.text else PROTOCOL_VERSION);
        return Answer(request.id, Started(version.value));
      }
      if !initialized {
        return Answer(request.id, Failed(NotInitialized));
      }
      if request.verb.Ping? {
        return Answer(request.id, Pong);
      }
      if request.verb.ListTools? {
        return Answer(request.id, Listed);
      }
      if request.verb.CallTool? {
        calls := calls + 1;
        if calls > MAX_TOOL_CALLS {
          return Answer(request.id, Failed(CallLimit));
        }
        var target := Resolve(profile, company.names, request.verb.call);
        if target.Err? {
          return Answer(request.id, Failed(target.error));
        }
        return RunTool(company, request.id, calls, target.value.0, target.value.1);
      }
      return Answer(request.id, Failed(MethodNotFound));
    }

    /** One line from the stream: a framing or decoding failure is answered without an identifier. */
    method HandleLine(decode: seq<Byte> -> Decoded, line: seq<Byte>) returns (reply: Reply)
      modifies this
      ensures (Now(), reply) == StepLine(Setting(company, profile, decode), old(Now()), line)
    {
      if !WellFramed(line) {
        return Answer(JNull, Failed(ParseError));
      }
      match decode(line) {
        case Unreadable => return Answer(JNull, Failed(ParseError));
        case BreaksDecoder => return Reply(None, None, true);
        case Readable(request) => reply := Handle(request);
      }
    }
  }

  // ----- lines -----

  /** Where the line that starts at `from` ends: after its newline, at the limit, or with the input. */
  function LineEnd(input: seq<Byte>, from: nat, at: nat): (to: nat)
    requires from <= at <= |input| && at - from <= MAX_MESSAGE_BYTES + 1
    ensures at <= to <= |input| && to - from <= MAX_MESSAGE_BYTES + 1
    ensures forall i :: at <= i < to - 1 ==> input[i] != NEWLINE
    ensures to == |input| || to - from == MAX_MESSAGE_BYTES + 1 || (to > at && input[to - 1] == NEWLINE)
    ensures at < |input| && at - from < MAX_MESSAGE_BYTES + 1 ==> to > at
    decreases |input| - at
  {
    if at == |input| || at - from == MAX_MESSAGE_BYTES + 1 then at
    else if input[at] == NEWLINE then at + 1
    else LineEnd(input, from, at + 1)
  }

  /** The lines readline returns, from a position on. */
  function Lines(input: seq<Byte>, from: nat): (r: seq<seq<Byte>>)
    requires from <= |input|
    ensures forall i :: 0 <= i < |r| ==> 0 < |r[i]| <= MAX_MESSAGE_BYTES + 1
    ensures forall i, k :: 0 <= i < |r| && 0 <= k < |r[i]| - 1 ==> r[i][k] != NEWLINE
    decreases |input| - from
  {
    if from == |input| then []
    else
      var to := LineEnd(input, from, from);
      [input[from..to]] + Lines(input, to)
  }

  function Joined(lines: seq<seq<Byte>>): seq<Byte> {
    if lines == [] then [] else lines[0] + Joined(lines[1..])
  }

  /** Nothing is lost or read twice: the lines put together are the input. */
  lemma {:induction false} LinesJoin(input: seq<Byte>, from: nat)
    requires from <= |input|
    ensures Joined(Lines(input, from)) == input[from..]
    decreases |input| - from
  {
    if from < |input| {
      var to := LineEnd(input, from, from);
      LinesJoin(input, to);
      assert Lines(input, from)[1..] == Lines(input, to);
      assert input[from..] == input[from..to] + input[to..];
    }
  }

  // ----- a whole run -----

  datatype Decoded = Unreadable | Readable(request: Request) | BreaksDecoder

  /** Everything around a session: the company, its profile, and how a line is decoded. */
  datatype Setting = Setting(company: Company, profile: Profile, decode: seq<Byte> -> Decoded)

  predicate WellFramed(line: seq<Byte>) {
    0 < |line| <= MAX_MESSAGE_BYTES && line[|line| - 1] == NEWLINE
  }

  /** What a line asks for, if it is a readable message. */
  function Asks(x: Setting, line: seq<Byte>): Option<Request> {
    if WellFramed(line) && x.decode(line).Readable? then Some(x.decode(line).request) else None
  }

  function StepLine(x: Setting, s: State, line: seq<Byte>): (State, Reply) {
    if !WellFramed(line) then (s, Answer(JNull, Failed(ParseError)))
    else
      match x.decode(line)
      case Unreadable => (s, Answer(JNull, Failed(ParseError)))
      case BreaksDecoder => (s, Reply(None, None, true))
      case Readable(request) => Step(x.company, x.profile, s, request)
  }

  /** The replies to the lines, in order, up to a crash. */
  function Replies(x: Setting, s: State, lines: seq<seq<Byte>>): seq<Reply>
    decreases |lines|
  {
    if lines == [] then []
    else
      var (t, reply) := StepLine(x, s, lines[0]);
      if reply.crashed then [reply] else [reply] + Replies(x, t, lines[1..])
  }

  /** What is written for one reply. */
  function Said(reply: Reply): seq<Response> {
    if reply.response.Some? then [reply.response.value] else []
  }

  /** What is written for the replies. */
  function Written(replies: seq<Reply>): seq<Response> {
    if replies == [] then [] else Said(replies[0]) + Written(replies[1..])
  }

  lemma FirstWritten(reply: Reply, rest: seq<Reply>)
    ensures Written([reply] + rest) == Said(reply) + Written(rest)
  {
    assert ([reply] + rest)[1..] == rest;
  }

  lemma SplitOneMore(reply: Reply, a: seq<Reply>, b: seq<Reply>)
    requires Written(a + b) == Written(a) + Written(b)
    ensures Written([reply] + (a + b)) == Written([reply] + a) + Written(b)
  {
    FirstWritten(reply, a);
    FirstWritten(reply, a + b);
  }

  lemma {:induction false} WrittenSplit(a: seq<Reply>, b: seq<Reply>)
    ensures Written(a + b) == Written(a) + Written(b)
  {
    if a == [] {
      assert a + b == b;
    } else {
      var rest := a[1..];
      WrittenSplit(rest, b);
      SplitOneMore(a[0], rest, b);
      FirstApart(a, b);
    }
  }

  lemma OneReply(reply: Reply)
    ensures Written([reply]) == Said(reply)
  {
    assert [reply][1..] == [];
  }

  lemma FirstReply(x: Setting, s: State, line: seq<Byte>, lines: seq<seq<Byte>>, done: seq<Reply>)
    ensures var (t, reply) := StepLine(x, s, line);
            done + Replies(x, s, [line] + lines) ==
            (done + [reply]) + (if reply.crashed then [] else Replies(x, t, lines))
  {
    assert ([line] + lines)[1..] == lines;
  }

  /** The replies, seen one line at a time: what was answered before, this line, and the rest. */
  lemma NextLine(x: Setting, s: State, input: seq<Byte>, at: nat, done: seq<Reply>)
    requires at < |input|
    ensures var to := LineEnd(input, at, at);
            var (t, reply) := StepLine(x, s, input[at..to]);
            && done + Replies(x, s, Lines(input, at)) ==
               (done + [reply]) + (if reply.crashed then [] else Replies(x, t, Lines(input, to)))
            && Written(done + [reply]) == Written(done) + Said(reply)
  {
    var to := LineEnd(input, at, at);
    FirstReply(x, s, input[at..to], Lines(input, to), done);
    var reply := StepLine(x, s, input[at..to]).1;
    WrittenSplit(done, [reply]);
    OneReply(reply);
  }

  // ----- which lines end the session -----

  /** A tool call the session accepts in this state, as the tool and its input. */
  function AcceptedCall(x: Setting, s: State, line: seq<Byte>): Option<(string, Json)> {
    match Asks(x, line)
    case Some(Request(id, CallTool(call))) =>
      if id.JNull? || !s.initialized || s.calls >= MAX_TOOL_CALLS then None
      else
        var target := Resolve(x.profile, x.company.names, call);
        if target.Ok? then Some(target.value) else None
    case _ => None
  }

  /** A line ends the session when it is framed well and either cannot be taken by the JSON reader, being
      nested too deep or holding too long a number, or calls a tool that fails in a way nothing catches. */
  predicate Ends(x: Setting, s: State, line: seq<Byte>) {
    var call := AcceptedCall(x, s, line);
    || (WellFramed(line) && x.decode(line).BreaksDecoder?)
    || (call.Some? && x.company.run(s.calls + 1, call.value.0, call.value.1).Crashes?)
  }

  lemma EndsExactly(x: Setting, s: State, line: seq<Byte>)
    ensures StepLine(x, s, line).1.crashed <==> Ends(x, s, line)
    ensures Ends(x, s, line) ==> StepLine(x, s, line).1.response.None?
  {
  }

  /** How many lines are dealt with before one ends the session. */
  function Lasting(x: Setting, s: State, lines: seq<seq<Byte>>): (n: nat)
    ensures n <= |lines|
    decreases |lines|
  {
    if lines == [] || Ends(x, s, lines[0]) then 0 else 1 + Lasting(x, StepLine(x, s, lines[0]).0, lines[1..])
  }

  /** The replies are those of the lasting lines and, if a line ends the session, its own silence. */
  lemma {:induction false} RepliesLast(x: Setting, s: State, lines: seq<seq<Byte>>)
    ensures var replies, n := Replies(x, s, lines), Lasting(x, s, lines);
            && |replies| == (if n < |lines| then n + 1 else n)
            && (forall i :: 0 <= i < n ==> !replies[i].crashed)
            && (n < |lines| ==> replies[n].crashed && replies[n].response.None?)
    decreases |lines|
  {
    if lines != [] {
      var (t, reply) := StepLine(x, s, lines[0]);
      EndsExactly(x, s, lines[0]);
      if !reply.crashed {
        RepliesLast(x, t, lines[1..]);
        assert Replies(x, s, lines) == [reply] + Replies(x, t, lines[1..]);
      }
    }
  }

  // ----- the serving loop -----

  lemma LastingNext(x: Setting, s: State, input: seq<Byte>, at: nat)
    requires at < |input|
    ensures var to := LineEnd(input, at, at);
            var (t, reply) := StepLine(x, s, input[at..to]);
            && |Lines(input, at)| == 1 + |Lines(input, to)|
            && Lasting(x, s, Lines(input, at)) == if reply.crashed then 0 else 1 + Lasting(x, t, Lines(input, to))
  {
    var to := LineEnd(input, at, at);
    EndsExactly(x, s, input[at..to]);
    assert Lines(input, at)[1..] == Lines(input, to);
  }

  /** The serving loop writes the responses to the lines of its input, in order, up to a line that ends the
      session, and ends with the input exactly when there is none. */
  method Serve(x: Setting, input: seq<Byte>) returns (written: seq<Response>, crashed: bool)
    ensures written == Written(Replies(x, FRESH, Lines(input, 0)))
    ensures crashed <==> Lasting(x, FRESH, Lines(input, 0)) < |Lines(input, 0)|
  {
    var session := new Session(x.company, x.profile);
    written, crashed := [], false;
    var at := 0;
    ghost var done: seq<Reply> := [];
    while at < |input|
      invariant at <= |input|
      invariant session.company == x.company && session.profile == x.profile
      invariant Replies(x, FRESH, Lines(input, 0)) == done + Replies(x, session.Now(), Lines(input, at))
      invariant written == Written(done) && !crashed
      invariant |Lines(input, 0)| == |done| + |Lines(input, at)|
      invariant Lasting(x, FRESH, Lines(input, 0)) == |done| + Lasting(x, session.Now(), Lines(input, at))
    {
      var to := LineEnd(input, at, at);
      NextLine(x, session.Now(), input, at, done);
      LastingNext(x, session.Now(), input, at);
      var reply := session.HandleLine(x.decode, input[at..to]);
      if reply.response.Some? {
        written := written + [reply.response.value];
      }
      done := done + [reply];
      if reply.crashed {
        crashed := true;
        assert done + [] == done;
        return;
      }
      at := to;
    }
    assert done + [] == done;
  }

  // ----- replies and states -----

  /** The state before the n-th line. */
  function Before(x: Setting, s: State, lines: seq<seq<Byte>>, n: nat): State
    requires n <= |lines|
    decreases n
  {
    if n == 0 then s else Before(x, StepLine(x, s, lines[0]).0, lines[1..], n - 1)
  }

  /** Each reply is the one its line gets in the state before it. */
  lemma {:induction false} ReplyAt(x: Setting, s: State, lines: seq<seq<Byte>>, n: nat)
    requires n < |Replies(x, s, lines)|
    ensures |Replies(x, s, lines)| <= |lines|
    ensures Replies(x, s, lines)[n] == StepLine(x, Before(x, s, lines, n), lines[n]).1
    decreases n
  {
    RepliesLast(x, s, lines);
    if n > 0 {
      var (t, reply) := StepLine(x, s, lines[0]);
      assert Replies(x, s, lines) == [reply] + Replies(x, t, lines[1..]);
      ReplyAt(x, t, lines[1..], n - 1);
    }
  }

  /** A line is among them exactly when neither it nor a line before it ends the session. */
  lemma {:induction false} LastingIsFirst(x: Setting, s: State, lines: seq<seq<Byte>>, n: nat)
    requires n < |lines|
    ensures n < Lasting(x, s, lines) <==> forall i :: 0 <= i <= n ==> !Ends(x, Before(x, s, lines, i), lines[i])
    decreases n
  {
    assert Before(x, s, lines, 0) == s;
    var t := StepLine(x, s, lines[0]).0;
    assert forall i :: 1 <= i <= n ==> Before(x, s, lines, i) == Before(x, t, lines[1..], i - 1);
    if n > 0 {
      LastingIsFirst(x, t, lines[1..], n - 1);
      assert forall i {:trigger lines[i]} :: 1 <= i <= n ==> lines[i] == lines[1..][i - 1];
      assert forall i {:trigger lines[1..][i]} :: 0 <= i < n ==>
          Before(x, s, lines, i + 1) == Before(x, t, lines[1..], i) && lines[i + 1] == lines[1..][i];
    }
  }

  // ----- one answer to every request -----

  /** A message that is not a notification. */
  predicate WantsAnswer(request: Request) {
    request.NoRequest? || request.verb.NotText? || !request.id.JNull?
  }

  /** The reply a line must get: exactly one response, under the line's own identifier, if it wants one; none
      and no tool run for a notification; and one without an identifier if it cannot be read. */
  predicate Answers(x: Setting, line: seq<Byte>, reply: Reply) {
    match Asks(x, line)
    case None => reply.response == Some(Response(JNull, Failed(ParseError)))
    case Some(request) =>
      && (reply.response.Some? <==> WantsAnswer(request))
      && (request.Request? && !request.id.JNull? ==> reply.response.value.id == request.id)
      && (request.Request? && request.id.JNull? && !request.verb.NotText? ==> reply.ran.None?)
  }

  lemma LineIsAnswered(x: Setting, s: State, line: seq<Byte>)
    requires !Ends(x, s, line)
    ensures Answers(x, line, StepLine(x, s, line).1)
  {
  }

  /** Every line gets its answer exactly when neither it nor a line before it ends the session; else nothing
      is said to it. */
  lemma OneAnswerEach(x: Setting, s: State, lines: seq<seq<Byte>>, n: nat)
    requires n < |lines|
    ensures var replies := Replies(x, s, lines);
            if forall i :: 0 <= i <= n ==> !Ends(x, Before(x, s, lines, i), lines[i]) then
              n < |replies| && Answers(x, lines[n], replies[n])
            else n >= |replies| || replies[n].response.None?
  {
    LastingIsFirst(x, s, lines, n);
    RepliesLast(x, s, lines);
    if n < Lasting(x, s, lines) {
      ReplyAt(x, s, lines, n);
      LineIsAnswered(x, Before(x, s, lines, n), lines[n]);
    }
  }

  /** The number of lines that want an answer. */
  function Answerable(x: Setting, lines: seq<seq<Byte>>): nat {
    if lines == [] then 0
    else
      (if Asks(x, lines[0]).None? || WantsAnswer(Asks(x, lines[0]).value) then 1 else 0) + Answerable(x, lines[1..])
  }

  /** As many responses are written as lines want one, up to the line that ends the session. */
  lemma {:induction false} AnswersCount(x: Setting, s: State, lines: seq<seq<Byte>>)
    ensures |Written(Replies(x, s, lines))| == Answerable(x, lines[..Lasting(x, s, lines)])
    decreases |lines|
  {
    if lines != [] {
      var (t, reply) := StepLine(x, s, lines[0]);
      EndsExactly(x, s, lines[0]);
      if reply.crashed {
        OneReply(reply);
      } else {
        LineIsAnswered(x, s, lines[0]);
        FirstWritten(reply, Replies(x, t, lines[1..]));
        AnswersCount(x, t, lines[1..]);
        var lasting := lines[..Lasting(x, s, lines)];
        assert lasting[1..] == lines[1..][..Lasting(x, t, lines[1..])];
      }
    }
  }

  /** After a line the reader cannot take, a good request gets no answer. */
  lemma BrokenLineSilences(x: Setting, bad: seq<Byte>, ping: seq<Byte>)
    requires WellFramed(bad) && x.decode(bad).BreaksDecoder?
    requires WellFramed(ping) && x.decode(ping) == Readable(Request(JString("1"), Ping))
    ensures WantsAnswer(Asks(x, ping).value) && !Ends(x, FRESH, ping)
    ensures Written(Replies(x, FRESH, [bad, ping])) == []
  {
    OneReply(Reply(None, None, true));
  }

  // ----- the handshake -----

  predicate Opens(x: Setting, line: seq<Byte>) {
    var request := Asks(x, line);
    && request.Some? && request.value.Request? && !request.value.id.JNull?
    && request.value.verb.Initialize? && request.value.verb.start.Version?
  }

  predicate Confirms(x: Setting, line: seq<Byte>) {
    var request := Asks(x, line);
    request.Some? && request.value == Request(JNull, NotifyInitialized)
  }

  /** What the state says about the lines before: a version needs an opening, being initialized needs
      a confirmation after it. */
  lemma {:induction false} StateRemembers(x: Setting, lines: seq<seq<Byte>>, n: nat)
    requires n <= |lines|
    ensures Before(x, FRESH, lines, n).version.Some? ==> exists j :: 0 <= j < n && Opens(x, lines[j])
    ensures Before(x, FRESH, lines, n).initialized ==>
              exists j, k :: 0 <= j < k < n && Opens(x, lines[j]) && Confirms(x, lines[k])
    decreases n
  {
    if n > 0 {
      StateRemembers(x, lines, n - 1);
      BeforeNext(x, FRESH, lines, n - 1);
      var s := Before(x, FRESH, lines, n - 1);
      if s.version.None? && Before(x, FRESH, lines, n).version.Some? {
        assert Opens(x, lines[n - 1]);
      }
      if !s.initialized && Before(x, FRESH, lines, n).initialized {
        assert Confirms(x, lines[n - 1]);
      }
    }
  }

  lemma {:induction false} BeforeNext(x: Setting, s: State, lines: seq<seq<Byte>>, n: nat)
    requires n < |lines|
    ensures Before(x, s, lines, n + 1) == StepLine(x, Before(x, s, lines, n), lines[n]).0
    decreases n
  {
    if n > 0 {
      BeforeNext(x, StepLine(x, s, lines[0]).0, lines[1..], n - 1);
    }
  }

  /** No tool runs, and no tool is listed, before an initialize request with a version and, after it,
      the initialized notification. */
  lemma NothingBeforeTheHandshake(x: Setting, lines: seq<seq<Byte>>, n: nat)
    requires n < |Replies(x, FRESH, lines)|
    requires var reply := Replies(x, FRESH, lines)[n];
             || reply.ran.Some?
             || (reply.response.Some? && (reply.response.value.body.Called? || reply.response.value.body.Listed?))
    ensures |Replies(x, FRESH, lines)| <= |lines|
    ensures exists j, k :: 0 <= j < k < n && Opens(x, lines[j]) && Confirms(x, lines[k])
  {
    ReplyAt(x, FRESH, lines, n);
    StateRemembers(x, lines, n);
  }

  // ----- the limit -----

  function Runs(replies: seq<Reply>): nat {
    if replies == [] then 0 else (if replies[0].ran.Some? then 1 else 0) + Runs(replies[1..])
  }

  /** At most 128 tool runs in a session, whatever the input. */
  lemma {:induction false} BoundedRuns(x: Setting, s: State, lines: seq<seq<Byte>>)
    ensures Runs(Replies(x, s, lines)) <= if s.calls < MAX_TOOL_CALLS then MAX_TOOL_CALLS - s.calls else 0
    decreases |lines|
  {
    if lines != [] {
      var (t, reply) := StepLine(x, s, lines[0]);
      BoundedRuns(x, t, lines[1..]);
      assert Replies(x, s, lines)[1..] == if reply.crashed then [] else Replies(x, t, lines[1..]);
    }
  }

  // ----- compact dispatch -----

  /** The compact call for a full one: the tool's name becomes an action, its arguments the input. */
  function CompactCall(call: Call): Call
    requires call.Call? && call.name.Some?
  {
    var action := map["action" := JString(call.name.value)];
    var entries := if call.arguments.Some? then action["input" := call.arguments.value] else action;
    Call(Some("company"), Some(JObject(entries)))
  }

  lemma CompactReaches(names: set<string>, call: Call)
    requires call.Call? && call.name.Some?
    ensures Resolve(Compact, names, CompactCall(call)) ==
            if call.name.value in names then Resolve(Full, names, call) else Err(UnknownAction)
  {
    var entries := Given(CompactCall(call).arguments).entries;
    assert "action" != "input" by { assert "action"[0] != "input"[0]; }
    assert At(entries, "action") == JString(call.name.value);
    assert entries.Keys <= {"action", "input"};
    assert ("input" in entries) == call.arguments.Some?;
  }

  /** The compact tool answers exactly as the full tool it stands for, and leaves the same state, for
      every known tool; an unknown one is refused under another name. */
  lemma CompactEqualsFull(company: Company, s: State, id: Json, call: Call)
    requires call.Call? && call.name.Some? && !id.JNull?
    ensures call.name.value in company.names || s.calls >= MAX_TOOL_CALLS || !s.initialized <==>
              Step(company, Compact, s, Request(id, CallTool(CompactCall(call))))
              == Step(company, Full, s, Request(id, CallTool(call)))
  {
    CompactReaches(company.names, call);
  }
}
