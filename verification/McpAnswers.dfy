/**
 What the MCP session answers to each kind of message, case by case.
 */
module McpAnswers {
  import opened Wrappers
  import opened JsonValues
  import opened McpSession

  /** A response under this identifier, with no tool run and the state as it was. */
  predicate Says(s: State, t: State, reply: Reply, id: Json, body: Body) {
    t == s && reply.response == Some(Response(id, body)) && reply.ran.None? && !reply.crashed
  }

  /** A message that is no request, or whose method is not a text. */
  lemma BadMessage(company: Company, profile: Profile, s: State, request: Request)
    requires request.NoRequest? || request.verb.NotText?
    ensures var (t, reply) := Step(company, profile, s, request);
            Says(s, t, reply, if request.NoRequest? then JNull else request.id, Failed(InvalidRequest))
  {
  }

  /** A notification gets no response; it only ever confirms the handshake, once a version is agreed on. */
  lemma Notification(company: Company, profile: Profile, s: State, verb: Verb)
    requires !verb.NotText?
    ensures var (t, reply) := Step(company, profile, s, Request(JNull, verb));
            && reply == Reply(None, None, false)
            && t.version == s.version && t.calls == s.calls
            && (t.initialized <==> s.initialized || (verb == NotifyInitialized && s.version.Some?))
  {
  }

  /** The first initialize request agrees on the version asked for, if it is supported, or else on the newest;
      a second one, or one without usable parameters, agrees on nothing. */
  lemma InitializeAnswer(company: Company, profile: Profile, s: State, id: Json, start: StartParams)
    requires !id.JNull?
    ensures var (t, reply) := Step(company, profile, s, Request(id, Initialize(start)));
            if s.version.Some? || start.NotAnObject? then Says(s, t, reply, id, Failed(InvalidInitialize))
            else if start.NoVersion? then Says(s, t, reply, id, Failed(InvalidProtocolVersion))
            else
              && reply.response.Some? && reply.response.value.id == id && reply.response.value.body.Started?
              && var version := reply.response.value.body.version;
                 && (start.text in company.supported ==> version == start.text)
                 && (start.text !in company.supported ==> version == "2025-06-18")
                 && t == State(s.initialized, Some(version), s.calls) && reply.ran.None? && !reply.crashed
  {
  }

  /** Before the handshake is confirmed every other request is refused; after it, these are answered. */
  lemma PlainAnswer(company: Company, profile: Profile, s: State, id: Json, verb: Verb)
    requires !id.JNull? && !verb.Initialize? && !verb.NotText? && (s.initialized ==> !verb.CallTool?)
    ensures var (t, reply) := Step(company, profile, s, Request(id, verb));
            if !s.initialized then Says(s, t, reply, id, Failed(NotInitialized))
            else if verb.Ping? then Says(s, t, reply, id, Pong)
            else if verb.ListTools? then Says(s, t, reply, id, Listed)
            else Says(s, t, reply, id, Failed(MethodNotFound))
  {
  }

  /** A call of the full profile names a known tool; its input is its arguments, or nothing. */
  lemma FullCall(names: set<string>, call: Call)
    ensures match Resolve(Full, names, call)
            case Ok((tool, input)) =>
              && call.Call? && call.name == Some(tool) && tool in names
              && input == if call.arguments.Some? then call.arguments.value else JObject(map[])
            case Err(fault) =>
              if call.BadCall? then fault.InvalidToolCall?
              else fault.UnknownTool? && (call.name.None? || call.name.value !in names)
  {
  }

  /** A call of the compact profile goes to the one tool, with an action that is a known tool's name. */
  lemma CompactCallAnswer(names: set<string>, call: Call)
    ensures match Resolve(Compact, names, call)
            case Ok((tool, input)) =>
              && call.Call? && call.name == Some("company") && call.arguments.Some? && call.arguments.value.JObject?
              && var entries := call.arguments.value.entries;
                 && entries.Keys <= {"action", "input"} && "action" in entries
                 && entries["action"] == JString(tool) && tool in names
                 && input == if "input" in entries then entries["input"] else JObject(map[])
            case Err(fault) =>
              if call.BadCall? then fault.InvalidToolCall?
              else if call.name != Some("company") then fault.UnknownTool?
              else
                var given := if call.arguments.Some? then call.arguments.value else JObject(map[]);
                if !given.JObject? || !(given.entries.Keys <= {"action", "input"}) then fault.InvalidArguments?
                else fault.UnknownAction?
                     && !("action" in given.entries && given.entries["action"].JString?
                          && given.entries["action"].s in names)
  {
  }

  /** A tool call counts whatever comes of it. Past the limit, or without a tool, it is refused; else the
      tool is run on that input, and what the caller is told is what the tool did. */
  lemma CallAnswer(company: Company, profile: Profile, s: State, id: Json, call: Call)
    requires !id.JNull? && s.initialized
    ensures var (t, reply) := Step(company, profile, s, Request(id, CallTool(call)));
            && t == State(true, s.version, s.calls + 1)
            && if s.calls >= 128 then reply == Reply(Some(Response(id, Failed(CallLimit))), None, false)
               else
                 match Resolve(profile, company.names, call)
                 case Err(fault) => reply == Reply(Some(Response(id, Failed(fault))), None, false)
                 case Ok((tool, input)) =>
                   && reply.ran == Some((tool, input))
                   && match company.run(s.calls + 1, tool, input)
                      case Returns(result) => !reply.crashed && reply.response == Some(Response(id, Called(result)))
                      case Refuses(code, message) =>
                        !reply.crashed && reply.response == Some(Response(id, Failed(FromTool(code, message))))
                      case Fails => !reply.crashed && reply.response == Some(Response(id, Failed(OperationFailed)))
                      case Crashes => reply.crashed && reply.response.None?
  {
  }

  /** A line that is too long, not ended, or not JSON is answered as such and changes nothing. */
  lemma UnreadableLine(x: Setting, s: State, line: seq<Byte>)
    requires |line| == 0 || |line| > 1048576 || line[|line| - 1] != 10 || x.decode(line).Unreadable?
    ensures var (t, reply) := StepLine(x, s, line);
            Says(s, t, reply, JNull, Failed(ParseError))
  {
  }

  lemma ReadableLine(x: Setting, s: State, line: seq<Byte>)
    requires 0 < |line| <= 1048576 && line[|line| - 1] == 10 && x.decode(line).Readable?
    ensures StepLine(x, s, line) == Step(x.company, x.profile, s, x.decode(line).request)
  {
  }
}
