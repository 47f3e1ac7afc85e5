/** The chat command exchange of the assistant panel
    (src/components/ChatAssistant.tsx): the submission guard of `handleSubmit`
    and the two-round exchange of `processAIResponse`. The language model, the
    JSON parser, the date formatter and the store operations are parameters
    (`Env`); the `await`s are sequential steps. */
module ChatAssistant {
  import opened Wrappers
  import Text
  import Seqs
  import opened CalendarStore
  import ToolRegistry

  datatype Role = System | User | Assistant | Tool

  /** One entry of `message.tool_calls`: `id`, `function.name`, `function.arguments`. */
  datatype ToolCall = ToolCall(id: string, name: string, arguments: string)

  /** A chat message. `toolCalls` is present only on a model reply that asks for
      tools; `toolCallId` and `name` only on a tool result. */
  datatype Message = Message(
    role: Role,
    content: string,
    toolCalls: Option<seq<ToolCall>>,
    toolCallId: Option<string>,
    name: Option<string>)

  function UserMessage(text: string): Message {
    Message(User, text, None, None, None)
  }

  function SystemMessage(text: string): Message {
    Message(System, text, None, None, None)
  }

  function AssistantMessage(text: string): Message {
    Message(Assistant, text, None, None, None)
  }

  /** The message pushed for one tool call: its id, its function name, its result. */
  function ToolMessage(call: ToolCall, result: string): Message {
    Message(Tool, result, None, Some(call.id), Some(call.name))
  }

  /** `m` is the tool message answering `call`. */
  predicate AnswersCall(m: Message, call: ToolCall) {
    m.role == Tool && m.toolCallId == Some(call.id) && m.name == Some(call.name)
  }

  const Greeting: Message :=
    AssistantMessage("Hi! I'm your calendar assistant. I can help you schedule, delete, or list your events.")

  /** The one reply every exception collapses to. */
  const Apology: Message :=
    AssistantMessage("Sorry, I encountered an error processing your request. Please check your API key.")

  /** A chat-completion request: the messages and, in the first round only, the tools. */
  datatype Request = Request(messages: seq<Message>, tools: Option<seq<ToolRegistry.ToolDef>>)

  /** What the model call yields: `choices[0].message`, or a thrown error. */
  datatype Completion = Completed(message: Message) | Failed

  /** What `await addEvent(args)` yields: a thrown error, or the next store and the
      returned record (absent when the store returns a falsy value). */
  datatype AddOutcome = AddThrew | AddReturned(events: seq<Event>, created: Option<Event>)

  /** What `JSON.parse(toolCall.function.arguments)` yields: a syntax error,
      `null`, or any other value, read through the fields a tool consults (a
      number, string, boolean or array carries none of them). */
  datatype Parsed = Unparsable | JsonNull | JsonValue(fields: Fields)

  /** The argument handed to `addEvent`: the parsed fields, or `None` for `null`. */
  function Argument(p: Parsed): Option<Fields> {
    if p.JsonValue? then Some(p.fields) else None
  }

  /** Everything the exchange consults outside itself. */
  datatype Env = Env(
    complete: Request -> Completion,
    parseArgs: string -> Parsed,
    add: (seq<Event>, Option<Fields>) -> AddOutcome,
    delete: (seq<Event>, Option<string>) -> Option<seq<Event>>,
    formatStart: Option<string> -> Option<string>,
    isAuthenticated: bool,
    systemPrompt: string)

  /** How a template literal renders an optional string. */
  function Interpolated(s: Option<string>): string {
    s.GetOr("undefined")
  }

  /** The event titles as `events.map(e => e.title).join(', ')` renders them:
      a missing title becomes the empty string. */
  function Titles(events: seq<Event>): (r: seq<string>)
    ensures |r| == |events|
    ensures forall i :: 0 <= i < |events| ==> r[i] == events[i].title.GetOr("")
  {
    seq(|events|, i requires 0 <= i < |events| => events[i].title.GetOr(""))
  }

  function CreatedText(title: Option<string>, when: string): string {
    "Created event: " + Interpolated(title) + " at " + when
  }

  /** The phrase both Google-dependent failure texts share. */
  const SignedIn: string := "signed in"

  // The two failure texts are written as concatenations around `SignedIn` so
  // that `Text.ContainsInfix` can show they contain it: the verifier does not
  // look inside a long literal character by character.
  const CreateFailedText: string :=
    "Failed" + " to create event. Please make sure you are " + SignedIn + " with Google."

  function ListedText(events: seq<Event>): string {
    "You have " + Text.NatToString(|events|) + " events: " + Text.Join(Titles(events), ", ")
  }

  const SignInToListText: string :=
    "I can't list your events because you're not " + SignedIn
    + " with Google. Please sign in using the button in the header."

  function DeletedText(id: Option<string>): string {
    "Deleted event with ID: " + Interpolated(id)
  }

  const CreateName: string := "create_event"
  const ListName: string := "list_events"
  const DeleteName: string := "delete_event"

  /** Only `create_event` and `delete_event` reach the store. */
  predicate TouchesStore(call: ToolCall) {
    call.name == CreateName || call.name == DeleteName
  }

  /** One tool call finished with its result text, or threw. */
  datatype StepOutcome = StepDone(result: string, events: seq<Event>) | StepThrew(events: seq<Event>)

  /** One iteration of the tool-call loop. `snapshot` is the `events` value the
      component rendered with; `events` is the store as the loop has left it. */
  function RunToolCall(env: Env, snapshot: seq<Event>, call: ToolCall, events: seq<Event>): (r: StepOutcome)
    ensures env.parseArgs(call.arguments).Unparsable? ==> r == StepThrew(events)
    ensures env.parseArgs(call.arguments).JsonNull? && call.name == DeleteName ==> r == StepThrew(events)
    ensures !TouchesStore(call) ==> r.events == events
  {
    var parsed := env.parseArgs(call.arguments);
    if parsed.Unparsable? then StepThrew(events)
    else
      if call.name == CreateName then
        match env.add(events, Argument(parsed))
        case AddThrew => StepThrew(events)
        case AddReturned(next, created) =>
          if created.Some? then
            match env.formatStart(created.value.start)
            case None => StepThrew(next)
            case Some(when) => StepDone(CreatedText(created.value.title, when), next)
          else StepDone(CreateFailedText, next)
      else if call.name == ListName then
        StepDone(if env.isAuthenticated then ListedText(snapshot) else SignInToListText, events)
      else if call.name == DeleteName then
        if parsed.JsonNull? then StepThrew(events)
        else
          match env.delete(events, parsed.fields.id)
          case None => StepThrew(events)
          case Some(next) => StepDone(DeletedText(parsed.fields.id), next)
      else StepDone("", events)
  }

  /** The loop ran to the end with one message per call, or a call threw. */
  datatype DispatchOutcome =
    | Dispatched(messages: seq<Message>, events: seq<Event>)
    | DispatchThrew(events: seq<Event>)

  /** `for (const toolCall of message.tool_calls)`: runs the calls one by one,
      each pushing exactly one tool message; the first exception ends the loop. */
  function Dispatch(env: Env, snapshot: seq<Event>, calls: seq<ToolCall>, events: seq<Event>): (r: DispatchOutcome)
    ensures r.Dispatched? ==> |r.messages| == |calls|
    ensures r.Dispatched? ==> forall i :: 0 <= i < |calls| ==> AnswersCall(r.messages[i], calls[i])
    ensures (forall i :: 0 <= i < |calls| ==> !TouchesStore(calls[i])) ==> r.events == events
    decreases |calls|
  {
    if |calls| == 0 then Dispatched([], events)
    else
      match RunToolCall(env, snapshot, calls[0], events)
      case StepThrew(next) => DispatchThrew(next)
      case StepDone(result, next) =>
        match Dispatch(env, snapshot, calls[1..], next)
        case DispatchThrew(last) => DispatchThrew(last)
        case Dispatched(rest, last) =>
          assert forall i :: 1 <= i < |calls| ==> calls[1..][i - 1] == calls[i];
          Dispatched([ToolMessage(calls[0], result)] + rest, last)
  }

  /** The round-1 request: the system prompt, the earlier messages without
      system ones, the new user message, and the tool catalogue. */
  function FirstRequest(env: Env, history: seq<Message>, input: string): (r: Request)
    ensures r.tools == Some(ToolRegistry.CalendarTools())
    ensures |r.messages| >= 2 && r.messages[0] == SystemMessage(env.systemPrompt)
    ensures r.messages[|r.messages| - 1] == UserMessage(input)
  {
    Request([SystemMessage(env.systemPrompt)] + Seqs.Filter(history, NotSystem) + [UserMessage(input)],
            Some(ToolRegistry.CalendarTools()))
  }

  predicate NotSystem(m: Message) {
    m.role != System
  }

  /** Round 1 carries exactly one system message: the prompt it starts with. */
  lemma OnlyPromptIsSystem(env: Env, history: seq<Message>, input: string)
    ensures var msgs := FirstRequest(env, history, input).messages;
            forall i :: 1 <= i < |msgs| ==> msgs[i].role != System
  {
    var kept := Seqs.Filter(history, NotSystem);
    var msgs := FirstRequest(env, history, input).messages;
    forall i | 1 <= i < |msgs| ensures msgs[i].role != System {
      if i <= |kept| {
        assert msgs[i] == kept[i - 1];
      }
    }
  }

  /** The round-2 request: the system prompt, the earlier messages (unfiltered),
      the user message, the round-1 reply and the tool messages; no tools. */
  function SecondRequest(env: Env, history: seq<Message>, input: string, first: Message,
                         toolMessages: seq<Message>): (r: Request)
    ensures first.toolCalls.Some? && |toolMessages| == |first.toolCalls.value|
            && (forall i :: 0 <= i < |toolMessages| ==> AnswersCall(toolMessages[i], first.toolCalls.value[i]))
            ==> FollowsUp(r, env.systemPrompt, history, input, first)
  {
    assert ([SystemMessage(env.systemPrompt)] + history + [UserMessage(input), first] + toolMessages)[..|history| + 3]
        == [SystemMessage(env.systemPrompt)] + history + [UserMessage(input), first];
    Request([SystemMessage(env.systemPrompt)] + history + [UserMessage(input), first] + toolMessages, None)
  }

  /** `req` is a well-formed second round after `first`: the full transcript,
      then one tool message per requested call in call order, and no tools. */
  predicate FollowsUp(req: Request, prompt: string, history: seq<Message>, input: string, first: Message) {
    && first.toolCalls.Some?
    && req.tools.None?
    && var n := |history| + 3;
       var calls := first.toolCalls.value;
       && |req.messages| == n + |calls|
       && req.messages[..n] == [SystemMessage(prompt)] + history + [UserMessage(input), first]
       && forall i :: 0 <= i < |calls| ==> AnswersCall(req.messages[n + i], calls[i])
  }

  /** The outcome of one exchange: the single reply, the store afterwards, and
      every model request issued, in order. */
  datatype Exchange = Exchange(reply: Message, events: seq<Event>, requests: seq<Request>)

  /** `processAIResponse(input)`. */
  function ProcessAIResponse(env: Env, history: seq<Message>, events: seq<Event>, input: string): (r: Exchange)
    ensures 1 <= |r.requests| <= 2
    ensures r.requests[0] == FirstRequest(env, history, input)
    ensures r.reply == Apology || env.complete(r.requests[|r.requests| - 1]) == Completed(r.reply)
    ensures |r.requests| == 2 ==> env.complete(r.requests[0]).Completed?
                                  && FollowsUp(r.requests[1], env.systemPrompt, history, input,
                                               env.complete(r.requests[0]).message)
  {
    var first := FirstRequest(env, history, input);
    match env.complete(first)
    case Failed => Exchange(Apology, events, [first])
    case Completed(m) =>
      if m.toolCalls.None? then Exchange(m, events, [first])
      else
        match Dispatch(env, events, m.toolCalls.value, events)
        case DispatchThrew(next) => Exchange(Apology, next, [first])
        case Dispatched(toolMessages, next) =>
          var second := SecondRequest(env, history, input, m, toolMessages);
          assert second.messages[..|history| + 3] == [SystemMessage(env.systemPrompt)] + history + [UserMessage(input), m];
          match env.complete(second)
          case Failed => Exchange(Apology, next, [first, second])
          case Completed(f) => Exchange(f, next, [first, second])
  }

  /** The component state that matters to the exchange. */
  datatype Session = Session(messages: seq<Message>, input: string, isLoading: bool, events: seq<Event>)

  /** The panel as first rendered: the greeting, an empty input, not loading. */
  function InitialSession(events: seq<Event>): Session {
    Session([Greeting], "", false, events)
  }

  /** A submission: the state while the exchange runs, the state after it, and
      the model requests it issued. */
  datatype Submission = Submission(during: Session, after: Session, requests: seq<Request>)

  /** `!input.trim() || isLoading`: by `Text.TrimEmptyIffBlank`, an input of
      whitespace only is rejected. */
  predicate Rejected(s: Session) {
    Text.Trim(s.input) == "" || s.isLoading
  }

  /** `handleSubmit`: a blank input or a running exchange is ignored; otherwise
      the user message is shown at once and the single reply follows it. */
  function HandleSubmit(env: Env, s: Session): (r: Submission)
    ensures Rejected(s) ==> r.during == s && r.after == s && r.requests == []
    ensures !Rejected(s) ==>
      && r.during == Session(s.messages + [UserMessage(s.input)], "", true, s.events)
      && |r.after.messages| == |s.messages| + 2
      && r.after.messages[..|s.messages| + 1] == s.messages + [UserMessage(s.input)]
      && !r.after.isLoading && r.after.input == ""
      && 1 <= |r.requests| <= 2
      && r.requests[0] == FirstRequest(env, s.messages, s.input)
  {
    Text.TrimEmptyIffBlank(s.input);
    if Text.Trim(s.input) == "" || s.isLoading then Submission(s, s, [])
    else
      var during := Session(s.messages + [UserMessage(s.input)], "", true, s.events);
      var x := ProcessAIResponse(env, s.messages, s.events, s.input);
      Submission(during, Session(during.messages + [x.reply], "", false, x.events), x.requests)
  }

  /** A submission that is accepted appends exactly two messages: the untrimmed
      user input and the exchange's single reply; tool traffic stays out. */
  lemma AcceptedSubmission(env: Env, s: Session)
    requires !Rejected(s)
    ensures var x := ProcessAIResponse(env, s.messages, s.events, s.input);
            && HandleSubmit(env, s).after.messages == s.messages + [UserMessage(s.input), x.reply]
            && HandleSubmit(env, s).after.events == x.events
            && HandleSubmit(env, s).requests == x.requests
  {
  }

  /** The first submission of a fresh panel sends the system prompt, the
      greeting and the input, and leaves the greeting, the input and the reply. */
  lemma FirstSubmission(env: Env, events: seq<Event>, input: string)
    requires Text.Trim(input) != ""
    ensures var r := HandleSubmit(env, InitialSession(events).(input := input));
            && r.requests[0].messages == [SystemMessage(env.systemPrompt), Greeting, UserMessage(input)]
            && |r.after.messages| == 3 && r.after.messages[..2] == [Greeting, UserMessage(input)]
  {
    assert InitialSession(events).(input := input) == Session([Greeting], input, false, events);
    SubmitAfterOneMessage(env, Greeting, events, input);
  }

  lemma SubmitAfterOneMessage(env: Env, m: Message, events: seq<Event>, input: string)
    requires m.role != System && Text.Trim(input) != ""
    ensures var r := HandleSubmit(env, Session([m], input, false, events));
            && r.requests[0].messages == [SystemMessage(env.systemPrompt), m, UserMessage(input)]
            && |r.after.messages| == 3 && r.after.messages[..2] == [m, UserMessage(input)]
  {
    var s := Session([m], input, false, events);
    var x := ProcessAIResponse(env, [m], events, input);
    AcceptedSubmission(env, s);
    OneMessageRequest(env, m, input);
    assert x.requests[0] == FirstRequest(env, [m], input);
    assert ([m] + [UserMessage(input), x.reply])[..2] == [m, UserMessage(input)];
  }

  lemma OneMessageRequest(env: Env, m: Message, input: string)
    requires m.role != System
    ensures FirstRequest(env, [m], input).messages == [SystemMessage(env.systemPrompt), m, UserMessage(input)]
  {
    assert [m][1..] == [];
    assert Seqs.Filter([m], NotSystem) == [m];
  }

  /** With no system messages in the history, round 1 sends the whole history
      and round 2 repeats round 1's messages before the reply and tool messages. */
  lemma RoundsShareTranscript(env: Env, history: seq<Message>, input: string, first: Message,
                              toolMessages: seq<Message>)
    requires forall i :: 0 <= i < |history| ==> history[i].role != System
    ensures FirstRequest(env, history, input).messages
         == [SystemMessage(env.systemPrompt)] + history + [UserMessage(input)]
    ensures SecondRequest(env, history, input, first, toolMessages).messages
         == FirstRequest(env, history, input).messages + [first] + toolMessages
  {
    Seqs.FilterKeepsAll(history, NotSystem);
  }

  /** Round 1 drops exactly the system messages of the history and keeps the
      others in order. */
  lemma FirstRequestDropsSystem(env: Env, a: seq<Message>, b: seq<Message>, input: string)
    ensures var m := FirstRequest(env, a + b, input).messages;
            && m[0] == SystemMessage(env.systemPrompt)
            && m[|m| - 1] == UserMessage(input)
            && m[1..|m| - 1] == Seqs.Filter(a, NotSystem) + Seqs.Filter(b, NotSystem)
            && forall i :: 1 <= i < |m| - 1 ==> m[i].role != System
  {
    Seqs.FilterConcat(a, b, NotSystem);
    var m := FirstRequest(env, a + b, input).messages;
    var f := Seqs.Filter(a + b, NotSystem);
    assert m == [SystemMessage(env.systemPrompt)] + f + [UserMessage(input)];
    assert m[1..|m| - 1] == f;
    forall i | 1 <= i < |m| - 1 ensures m[i].role != System {
      assert m[i] == f[i - 1];
    }
  }

  /** A round-1 reply without tool calls is returned unchanged after one call. */
  lemma ReplyWithoutToolCalls(env: Env, history: seq<Message>, events: seq<Event>, input: string, m: Message)
    requires env.complete(FirstRequest(env, history, input)) == Completed(m)
    requires m.toolCalls.None?
    ensures ProcessAIResponse(env, history, events, input)
         == Exchange(m, events, [FirstRequest(env, history, input)])
  {
  }

  /** With tool calls that all complete, a second call follows the loop; its
      answer, or the apology if it fails, is the reply. */
  lemma ReplyAfterToolCalls(env: Env, history: seq<Message>, events: seq<Event>, input: string,
                            m: Message, toolMessages: seq<Message>, next: seq<Event>)
    requires env.complete(FirstRequest(env, history, input)) == Completed(m)
    requires m.toolCalls.Some?
    requires Dispatch(env, events, m.toolCalls.value, events) == Dispatched(toolMessages, next)
    ensures var x := ProcessAIResponse(env, history, events, input);
            var second := SecondRequest(env, history, input, m, toolMessages);
            && |toolMessages| == |m.toolCalls.value|
            && x.requests == [FirstRequest(env, history, input), second]
            && x.events == next
            && x.reply == (if env.complete(second).Completed? then env.complete(second).message else Apology)
  {
  }

  /** Every exception yields the fixed apology; store changes made before it stay. */
  lemma ErrorsCollapse(env: Env, history: seq<Message>, events: seq<Event>, input: string)
    ensures var first := FirstRequest(env, history, input);
            var x := ProcessAIResponse(env, history, events, input);
            && (env.complete(first).Failed? ==> x == Exchange(Apology, events, [first]))
            && (env.complete(first).Completed? && env.complete(first).message.toolCalls.Some?
                && Dispatch(env, events, env.complete(first).message.toolCalls.value, events).DispatchThrew?
                ==> x == Exchange(Apology,
                                  Dispatch(env, events, env.complete(first).message.toolCalls.value, events).events,
                                  [first]))
            && (|x.requests| == 2 && env.complete(x.requests[1]).Failed? ==> x.reply == Apology)
  {
  }

  /** Runs `d`'s continuation with the calls `b`. */
  function AndThen(d: DispatchOutcome, env: Env, snapshot: seq<Event>, b: seq<ToolCall>): DispatchOutcome {
    match d
    case DispatchThrew(e) => d
    case Dispatched(ms, e) =>
      match Dispatch(env, snapshot, b, e)
      case DispatchThrew(e2) => DispatchThrew(e2)
      case Dispatched(ms2, e2) => Dispatched(ms + ms2, e2)
  }

  /** The calls run strictly one after another: running `a + b` runs `a`, then
      `b` on the store `a` left, and concatenates their tool messages. */
  lemma {:induction false} DispatchSequential(env: Env, snapshot: seq<Event>, a: seq<ToolCall>,
                                              b: seq<ToolCall>, events: seq<Event>)
    ensures Dispatch(env, snapshot, a + b, events) == AndThen(Dispatch(env, snapshot, a, events), env, snapshot, b)
    decreases |a|
  {
    if |a| == 0 {
      assert a + b == b;
      match Dispatch(env, snapshot, b, events)
      case DispatchThrew(e2) =>
      case Dispatched(ms2, e2) => assert [] + ms2 == ms2;
    } else {
      assert (a + b)[0] == a[0];
      assert (a + b)[1..] == a[1..] + b;
      match RunToolCall(env, snapshot, a[0], events)
      case StepThrew(next) =>
      case StepDone(result, next) =>
        DispatchSequential(env, snapshot, a[1..], b, next);
        match Dispatch(env, snapshot, a[1..], next)
        case DispatchThrew(e) =>
        case Dispatched(ms, e) =>
          match Dispatch(env, snapshot, b, e)
          case DispatchThrew(e2) =>
          case Dispatched(ms2, e2) =>
            assert [ToolMessage(a[0], result)] + (ms + ms2) == ([ToolMessage(a[0], result)] + ms) + ms2;
    }
  }

  /** The result of a `create_event` call. */
  lemma CreateEventResult(env: Env, snapshot: seq<Event>, call: ToolCall, events: seq<Event>)
    requires call.name == CreateName
    requires !env.parseArgs(call.arguments).Unparsable?
    ensures var args := Argument(env.parseArgs(call.arguments));
            var r := RunToolCall(env, snapshot, call, events);
            && (env.add(events, args).AddThrew? ==> r == StepThrew(events))
            && (env.add(events, args).AddReturned? && env.add(events, args).created.None? ==>
                  r == StepDone(CreateFailedText, env.add(events, args).events))
            && (env.add(events, args).AddReturned? && env.add(events, args).created.Some? ==>
                  var e := env.add(events, args).created.value;
                  r.events == env.add(events, args).events
                  && (env.formatStart(e.start).Some? ==> r.result == CreatedText(e.title, env.formatStart(e.start).value))
                  && (env.formatStart(e.start).None? ==> r.StepThrew?))
  {
  }

  /** The failure text of `create_event` claims nothing was created and asks
      the user to sign in. */
  lemma CreateFailedAsksToSignIn()
    ensures Text.Contains(CreateFailedText, SignedIn)
    ensures forall title, when :: CreateFailedText != CreatedText(title, when)
  {
    Text.ContainsInfix("Failed" + " to create event. Please make sure you are ", SignedIn, " with Google.");
    forall title, when ensures CreateFailedText != CreatedText(title, when) {
      assert CreateFailedText[0] != CreatedText(title, when)[0];
    }
  }

  /** The result of a `list_events` call: with sign-in, the count and the titles
      of the rendered snapshot; without, one fixed text that names no event. */
  lemma ListEventsResult(env: Env, snapshot: seq<Event>, call: ToolCall, events: seq<Event>)
    requires call.name == ListName
    requires !env.parseArgs(call.arguments).Unparsable?
    ensures var r := RunToolCall(env, snapshot, call, events);
            && r.StepDone? && r.events == events
            && (env.isAuthenticated ==>
                  exists count :: r.result == "You have " + count + " events: " + Text.Join(Titles(snapshot), ", ")
                                  && |count| >= 1 && (forall i :: 0 <= i < |count| ==> Text.IsDigit(count[i]))
                                  && (|count| > 1 ==> count[0] != '0')
                                  && Text.DecimalValue(count) == |snapshot|)
            && (!env.isAuthenticated ==>
                  r.result == SignInToListText
                  && forall other: seq<Event> :: RunToolCall(env, other, call, events) == r)
  {
    if env.isAuthenticated {
      var count := Text.NatToString(|snapshot|);
      assert ListedText(snapshot) == "You have " + count + " events: " + Text.Join(Titles(snapshot), ", ");
    }
  }

  /** The sign-in text of `list_events` asks the user to sign in. */
  lemma ListSignInText()
    ensures Text.Contains(SignInToListText, SignedIn)
  {
    Text.ContainsInfix("I can't list your events because you're not ", SignedIn,
                       " with Google. Please sign in using the button in the header.");
  }

  /** `list_events` reports the events the component rendered with, even after
      a `create_event` earlier in the same reply has added one. */
  lemma ListingIsStale(env: Env, snapshot: seq<Event>, create: ToolCall, list: ToolCall)
    requires create.name == CreateName && list.name == ListName && env.isAuthenticated
    requires !env.parseArgs(create.arguments).Unparsable? && !env.parseArgs(list.arguments).Unparsable?
    requires Dispatch(env, snapshot, [create, list], snapshot).Dispatched?
    ensures Dispatch(env, snapshot, [create, list], snapshot).messages[1].content == ListedText(snapshot)
  {
    assert [create, list][1..] == [list];
    assert [list][1..] == [];
  }

  /** The result of a `delete_event` call: the id is confirmed whether or not
      any event carried it. */
  lemma DeleteEventResult(env: Env, snapshot: seq<Event>, call: ToolCall, events: seq<Event>)
    requires call.name == DeleteName
    requires !env.parseArgs(call.arguments).Unparsable?
    ensures var parsed := env.parseArgs(call.arguments);
            var r := RunToolCall(env, snapshot, call, events);
            && (parsed.JsonNull? ==> r == StepThrew(events))
            && (parsed.JsonValue? ==>
                  var id := parsed.fields.id;
                  && (env.delete(events, id).Some? ==> r == StepDone(DeletedText(id), env.delete(events, id).value))
                  && (env.delete(events, id).None? ==> r == StepThrew(events)))
  {
  }

  /** Any other name, `set_timezone` included although the catalogue advertises
      it, yields an empty result and leaves the store alone. */
  lemma UnhandledNames(env: Env, snapshot: seq<Event>, call: ToolCall, events: seq<Event>)
    requires call.name != CreateName && call.name != ListName && call.name != DeleteName
    requires !env.parseArgs(call.arguments).Unparsable?
    ensures RunToolCall(env, snapshot, call, events) == StepDone("", events)
  {
  }

  /** `set_timezone` is advertised to the model yet has no handler. */
  lemma TimezoneAdvertisedButUnhandled(env: Env, snapshot: seq<Event>, call: ToolCall, events: seq<Event>)
    requires call.name == "set_timezone"
    requires !env.parseArgs(call.arguments).Unparsable?
    ensures ToolRegistry.FindTool(ToolRegistry.CalendarTools(), call.name).Some?
    ensures RunToolCall(env, snapshot, call, events) == StepDone("", events)
  {
    assert ToolRegistry.ToolNames(ToolRegistry.CalendarTools())[3] == "set_timezone";
  }

  /** The context's `addEvent`: appends a record with a fresh id and returns it.
      Given `null`, reading `event.color` throws before the store is touched. */
  function ContextAdd(freshId: seq<Event> -> string): (add: (seq<Event>, Option<Fields>) -> AddOutcome)
    ensures forall evs: seq<Event> :: add(evs, None) == AddThrew
    ensures forall evs: seq<Event>, f: Fields ::
              add(evs, Some(f)) == AddReturned(evs + [NewEvent(f, freshId(evs))], Some(NewEvent(f, freshId(evs))))
  {
    (evs: seq<Event>, f: Option<Fields>) =>
      if f.None? then AddThrew
      else AddReturned(AddEvent(evs, f.value, freshId(evs)).events, Some(AddEvent(evs, f.value, freshId(evs)).created))
  }

  /** The context's `deleteEvent`: an absent id (`undefined`) matches no event. */
  function ContextDelete(): (delete: (seq<Event>, Option<string>) -> Option<seq<Event>>)
    ensures forall evs: seq<Event> :: delete(evs, None) == Some(evs)
    ensures forall evs: seq<Event>, id: string :: delete(evs, Some(id)) == Some(DeleteEvent(evs, id))
  {
    (evs: seq<Event>, id: Option<string>) => Some(if id.Some? then DeleteEvent(evs, id.value) else evs)
  }

  /** The environment the component actually runs in: the context's store
      operations, and `isAuthenticated` read from a context that never sets it. */
  function AsWrittenEnv(complete: Request -> Completion, parseArgs: string -> Parsed,
                        formatStart: Option<string> -> Option<string>, freshId: seq<Event> -> string,
                        prompt: string): Env {
    Env(complete, parseArgs, ContextAdd(freshId), ContextDelete(), formatStart, false, prompt)
  }

  /** With the context's store, `create_event` never takes the failure branch. */
  lemma ContextCreateNeverFails(env: Env, freshId: seq<Event> -> string, snapshot: seq<Event>,
                                call: ToolCall, events: seq<Event>)
    requires env.add == ContextAdd(freshId)
    requires call.name == CreateName
    requires env.parseArgs(call.arguments).JsonValue?
    ensures var args := env.parseArgs(call.arguments).fields;
            var e := NewEvent(args, freshId(events));
            var r := RunToolCall(env, snapshot, call, events);
            && r.events == events + [e]
            && r != StepDone(CreateFailedText, r.events)
            && (env.formatStart(args.start).Some? ==>
                  r == StepDone(CreatedText(args.title, env.formatStart(args.start).value), events + [e]))
  {
    var args := env.parseArgs(call.arguments).fields;
    var e := NewEvent(args, freshId(events));
    assert env.add(events, Some(args)) == AddReturned(events + [e], Some(e));
    CreateFailedAsksToSignIn();
  }

  /** Arguments that parse to `null`: `create_event` throws inside the context's
      `addEvent` and `delete_event` throws at `args.id`, both before the store
      changes; `list_events` and every other name never read the arguments. */
  lemma NullArguments(env: Env, freshId: seq<Event> -> string, snapshot: seq<Event>,
                      call: ToolCall, events: seq<Event>)
    requires env.add == ContextAdd(freshId)
    requires env.parseArgs(call.arguments).JsonNull?
    ensures TouchesStore(call) ==> RunToolCall(env, snapshot, call, events) == StepThrew(events)
    ensures !TouchesStore(call) ==> RunToolCall(env, snapshot, call, events).StepDone?
  {
    if call.name == CreateName {
      assert env.add(events, None) == AddThrew;
    }
  }

  /** As written, `list_events` always answers with the sign-in text, however
      many events the calendar holds. */
  lemma AsWrittenListNeverLists(complete: Request -> Completion, parseArgs: string -> Parsed,
                                formatStart: Option<string> -> Option<string>, freshId: seq<Event> -> string,
                                prompt: string, snapshot: seq<Event>, call: ToolCall, events: seq<Event>)
    requires call.name == ListName && !parseArgs(call.arguments).Unparsable?
    ensures RunToolCall(AsWrittenEnv(complete, parseArgs, formatStart, freshId, prompt), snapshot, call, events)
         == StepDone(SignInToListText, events)
  {
  }

  /** An event added by an earlier call survives a later call that throws, and
      the exchange still ends with the apology. */
  lemma MutationsSurviveFailure(env: Env, freshId: seq<Event> -> string, history: seq<Message>,
                                events: seq<Event>, input: string, m: Message, create: ToolCall, bad: ToolCall)
    requires env.add == ContextAdd(freshId)
    requires env.complete(FirstRequest(env, history, input)) == Completed(m)
    requires m.toolCalls == Some([create, bad])
    requires create.name == CreateName && env.parseArgs(create.arguments).JsonValue?
    requires env.formatStart(env.parseArgs(create.arguments).fields.start).Some?
    requires env.parseArgs(bad.arguments).Unparsable?
    ensures var x := ProcessAIResponse(env, history, events, input);
            && x.reply == Apology
            && x.events == events + [NewEvent(env.parseArgs(create.arguments).fields, freshId(events))]
            && |x.requests| == 1
  {
    var args := env.parseArgs(create.arguments).fields;
    var e := NewEvent(args, freshId(events));
    assert env.add(events, Some(args)) == AddReturned(events + [e], Some(e));
    var step := RunToolCall(env, events, create, events);
    assert step.StepDone? && step.events == events + [e];
    assert [create, bad][1..] == [bad];
    assert Dispatch(env, events, [bad], events + [e]) == DispatchThrew(events + [e]);
    assert Dispatch(env, events, [create, bad], events) == DispatchThrew(events + [e]);
  }
}
