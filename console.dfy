/**
 * The console interpreter (`static class DebugConsole`): the registry, the
 * message log, the pending question callback, the autocomplete state and the
 * history cursor, and the operations that read and update them. Command
 * bodies, callbacks and the network are outside the model: an action is
 * named by a `HandlerId`, its invocation is recorded in `trace`, and what it
 * does that the console itself sees (the questions it asks, the exception it
 * throws) is given by `react`.
 */
module Console {
  import opened Wrappers
  import opened Text
  import opened Tokenizer
  import opened Commands
  import opened MessageLog

  type ClientId = nat

  /** A world position (`Vector2`). */
  datatype Position = Position(x: real, y: real)

  /** A remote client as the server sees it: its `ConsoleCommands`
      permission and its list of permitted console commands. */
  datatype Requester = Requester(
    id: ClientId,
    name: string,
    hasConsoleCommands: bool,
    permittedConsoleCommands: seq<Command>)

  /** This process connected to a server as a client (`GameMain.Client`):
      the permission queries it answers. */
  datatype ClientSession = ClientSession(
    hasConsoleCommandPermission: string -> bool,
    isCommandPermitted: string -> bool)

  /** An invocation of an opaque action. */
  datatype Call =
    | Execute(handler: HandlerId, args: seq<string>)
    | OnRequest(handler: HandlerId, requester: ClientId, position: Position, args: seq<string>)
    | Answer(callback: HandlerId, answer: string)

  /** An exception: the one the console raises itself, or one an action throws. */
  datatype Fault =
    | IndexOutOfRange
    | Thrown(message: string, stackTrace: string)

  datatype Prompt = Prompt(question: string, callback: HandlerId)

  /** What an action does that the console sees: the questions it asks, in
      order, and then the exception it throws, if any. */
  datatype Reaction = Reaction(prompts: seq<Prompt>, fault: Option<Fault>)

  /** What leaves the console: invocations of actions and network messages. */
  datatype Event =
    | Invoked(call: Call)
    | SentConsoleCommand(text: string)
    | SentChatMessage(text: string, to: ClientId)

  /** The part of the console's state that actions can change. */
  datatype World = World(messages: seq<ColoredText>, pending: seq<HandlerId>, trace: seq<Event>)

  /** `ShowQuestionPrompt` on the server: the question is logged and the
      callback is added to the pending invocation list (`+=`). */
  function Ask(w: World, p: Prompt): World {
    w.(messages := Append(w.messages, "   >>" + p.question, Cyan), pending := w.pending + [p.callback])
  }

  function AskAll(w: World, prompts: seq<Prompt>): World
    decreases |prompts|
  {
    if prompts == [] then w else AskAll(Ask(w, prompts[0]), prompts[1..])
  }

  function Callbacks(prompts: seq<Prompt>): seq<HandlerId>
    decreases |prompts|
  {
    if prompts == [] then [] else [prompts[0].callback] + Callbacks(prompts[1..])
  }

  /** Asking questions logs them and queues their callbacks in order; it
      invokes nothing. */
  lemma {:induction false} AskAllQueues(w: World, prompts: seq<Prompt>)
    ensures AskAll(w, prompts).pending == w.pending + Callbacks(prompts)
    ensures AskAll(w, prompts).trace == w.trace
    decreases |prompts|
  {
    if prompts != [] {
      AskAllQueues(Ask(w, prompts[0]), prompts[1..]);
    }
  }

  /** An action runs: it is recorded, asks its questions and may throw. */
  function Perform(w: World, call: Call, react: Call -> Reaction): (World, Option<Fault>) {
    var r := react(call);
    (AskAll(w.(trace := w.trace + [Invoked(call)]), r.prompts), r.fault)
  }

  /** A multicast callback receives an answer: its callbacks run in order
      with the same answer until one throws. */
  function AnswerAll(w: World, callbacks: seq<HandlerId>, answer: string, react: Call -> Reaction): (World, Option<Fault>)
    decreases |callbacks|
  {
    if callbacks == [] then (w, None)
    else
      var step := Perform(w, Answer(callbacks[0], answer), react);
      if step.1.Some? then step else AnswerAll(step.0, callbacks[1..], answer, react)
  }

  /** The line echoed before dispatch, except for the `admin` command. */
  function Echo(log: seq<ColoredText>, command: string, first: string): seq<ColoredText> {
    if ToLower(first) == "admin" then log else Append(log, command, White)
  }

  /** `ThrowError(error, e)`: the error, with the exception's message and
      stack trace when there is one, logged in red. */
  function ErrorText(error: string, e: Option<Fault>): string {
    match e
    case None => error
    case Some(f) => error + " {" + FaultMessage(f) + "}\n" + FaultStackTrace(f)
  }

  function FaultMessage(f: Fault): string {
    match f
    case IndexOutOfRange => "Index was outside the bounds of the array."
    case Thrown(message, _) => message
  }

  function FaultStackTrace(f: Fault): string {
    match f
    case IndexOutOfRange => []
    case Thrown(_, stackTrace) => stackTrace
  }

  /** `Command.ServerExecuteOnClientRequest`: the request handler with the
      requester and position, or else the default action. */
  function ServerRequestCall(c: Command, requester: Requester, position: Position, args: seq<string>): (call: Call)
    ensures c.onClientRequestExecute.None? ==> call == Execute(c.onExecute, args)
    ensures c.onClientRequestExecute.Some? ==> call == OnRequest(c.onClientRequestExecute.value, requester.id, position, args)
  {
    if c.onClientRequestExecute.None? then Execute(c.onExecute, args)
    else OnRequest(c.onClientRequestExecute.value, requester.id, position, args)
  }

  /** One `Invoked(Answer(..))` per callback, in order. */
  function AnswerEvents(callbacks: seq<HandlerId>, answer: string): (r: seq<Event>)
    ensures |r| == |callbacks|
    decreases |callbacks|
  {
    if callbacks == [] then [] else [Invoked(Answer(callbacks[0], answer))] + AnswerEvents(callbacks[1..], answer)
  }

  /** The k-th event is the k-th callback receiving the answer. */
  lemma {:induction false} AnswerEventAt(callbacks: seq<HandlerId>, answer: string, k: nat)
    requires k < |callbacks|
    ensures AnswerEvents(callbacks, answer)[k] == Invoked(Answer(callbacks[k], answer))
    decreases k
  {
    if k > 0 {
      AnswerEventAt(callbacks[1..], answer, k - 1);
    }
  }

  /** The callbacks the answered callbacks queue, in order. */
  function FollowUps(callbacks: seq<HandlerId>, answer: string, react: Call -> Reaction): seq<HandlerId>
    decreases |callbacks|
  {
    if callbacks == [] then []
    else Callbacks(react(Answer(callbacks[0], answer)).prompts) + FollowUps(callbacks[1..], answer, react)
  }

  /** The callback returns normally when it receives `answer`. */
  predicate Quiet(callback: HandlerId, answer: string, react: Call -> Reaction) {
    react(Answer(callback, answer)).fault.None?
  }

  predicate NoneThrow(callbacks: seq<HandlerId>, answer: string, react: Call -> Reaction) {
    forall k :: 0 <= k < |callbacks| ==> Quiet(callbacks[k], answer, react)
  }

  /** When no callback throws, every callback receives the answer, in
      subscription order, and the questions they ask are queued in that order. */
  lemma {:induction false} AnswerReachesEveryCallback(w: World, callbacks: seq<HandlerId>, answer: string, react: Call -> Reaction)
    requires NoneThrow(callbacks, answer, react)
    ensures AnswerAll(w, callbacks, answer, react).1.None?
    ensures AnswerAll(w, callbacks, answer, react).0.trace == w.trace + AnswerEvents(callbacks, answer)
    ensures AnswerAll(w, callbacks, answer, react).0.pending == w.pending + FollowUps(callbacks, answer, react)
    decreases |callbacks|
  {
    if callbacks != [] {
      var call := Answer(callbacks[0], answer);
      var p := Perform(w, call, react);
      var w' := p.0;
      AskAllQueues(w.(trace := w.trace + [Invoked(call)]), react(call).prompts);
      assert react(call).fault.None?;
      assert AnswerAll(w, callbacks, answer, react) == AnswerAll(w', callbacks[1..], answer, react);
      assert NoneThrow(callbacks[1..], answer, react) by {
        forall k | 0 <= k < |callbacks[1..]|
          ensures Quiet(callbacks[1..][k], answer, react)
        {
          assert callbacks[1..][k] == callbacks[k + 1];
        }
      }
      AnswerReachesEveryCallback(w', callbacks[1..], answer, react);
      assert AnswerEvents(callbacks, answer) == [Invoked(call)] + AnswerEvents(callbacks[1..], answer);
      assert FollowUps(callbacks, answer, react) == Callbacks(react(call).prompts) + FollowUps(callbacks[1..], answer, react);
    }
  }

  /** One step of `AnswerAll`: the first callback runs and is recorded. */
  lemma AnswerFirst(w: World, callbacks: seq<HandlerId>, answer: string, react: Call -> Reaction)
    requires callbacks != []
    ensures var step := Perform(w, Answer(callbacks[0], answer), react);
            && step.0.trace == w.trace + [Invoked(Answer(callbacks[0], answer))]
            && AnswerAll(w, callbacks, answer, react)
               == if Quiet(callbacks[0], answer, react) then AnswerAll(step.0, callbacks[1..], answer, react) else step
  {
    var call := Answer(callbacks[0], answer);
    AskAllQueues(w.(trace := w.trace + [Invoked(call)]), react(call).prompts);
  }

  /** The first callback that throws ends the invocation: the ones after it
      never receive the answer and its exception is the result. */
  lemma {:induction false} AnswerStopsAtFirstFault(w: World, callbacks: seq<HandlerId>, answer: string, react: Call -> Reaction, k: nat)
    requires k < |callbacks|
    requires forall j :: 0 <= j < k ==> Quiet(callbacks[j], answer, react)
    requires !Quiet(callbacks[k], answer, react)
    ensures AnswerAll(w, callbacks, answer, react).1 == react(Answer(callbacks[k], answer)).fault
    ensures AnswerAll(w, callbacks, answer, react).0.trace == w.trace + AnswerEvents(callbacks[..k + 1], answer)
    decreases k
  {
    var event := Invoked(Answer(callbacks[0], answer));
    var w' := Perform(w, Answer(callbacks[0], answer), react).0;
    AnswerFirst(w, callbacks, answer, react);
    if k == 0 {
      assert AnswerEvents(callbacks[..1], answer) == [event];
    } else {
      var rest := callbacks[1..];
      assert forall j :: 0 <= j < k - 1 ==> rest[j] == callbacks[j + 1];
      AnswerStopsAtFirstFault(w', rest, answer, react, k - 1);
      assert callbacks[..k + 1] == [callbacks[0]] + rest[..k];
      assert AnswerEvents(callbacks[..k + 1], answer) == [event] + AnswerEvents(rest[..k], answer);
    }
  }

  /** Two questions asked before an answer are composed, not replaced: the
      answer reaches the first callback and then, unless it throws, the second. */
  lemma PromptsCompose(w: World, p1: Prompt, p2: Prompt, answer: string, react: Call -> Reaction)
    requires w.pending == []
    ensures Ask(Ask(w, p1), p2).pending == [p1.callback, p2.callback]
    ensures var asked := Ask(Ask(w, p1), p2);
            var r := AnswerAll(asked.(pending := []), asked.pending, answer, react);
            if Quiet(p1.callback, answer, react) then
              r.0.trace == w.trace + [Invoked(Answer(p1.callback, answer)), Invoked(Answer(p2.callback, answer))]
              && r.1 == react(Answer(p2.callback, answer)).fault
            else
              r.0.trace == w.trace + [Invoked(Answer(p1.callback, answer))]
              && r.1 == react(Answer(p1.callback, answer)).fault
  {
    var asked := Ask(Ask(w, p1), p2);
    var cbs := asked.pending;
    assert cbs == [p1.callback, p2.callback];
    if !Quiet(p1.callback, answer, react) {
      AnswerStopsAtFirstFault(asked.(pending := []), cbs, answer, react, 0);
      assert cbs[..1] == [p1.callback];
    } else if !Quiet(p2.callback, answer, react) {
      AnswerStopsAtFirstFault(asked.(pending := []), cbs, answer, react, 1);
      assert cbs[..2] == cbs;
    } else {
      AnswerReachesEveryCallback(asked.(pending := []), cbs, answer, react);
    }
  }

  /** Because the slot is cleared before the callback runs, a question the
      callback asks while answering is the only one pending afterwards. */
  lemma FollowUpQuestion(w: World, callback: HandlerId, answer: string, react: Call -> Reaction, followUp: Prompt)
    requires react(Answer(callback, answer)) == Reaction([followUp], None)
    ensures AnswerAll(w.(pending := []), [callback], answer, react).0.pending == [followUp.callback]
    ensures AnswerAll(w.(pending := []), [callback], answer, react).1.None?
  {
    AnswerReachesEveryCallback(w.(pending := []), [callback], answer, react);
    assert Callbacks([followUp]) == [followUp.callback];
  }

  /** The one event `Dispatch` emits, if any: the relayed line, or the
      action that runs. */
  function DispatchEvent(commands: seq<Command>, command: string, tokens: seq<string>,
                         client: Option<ClientSession>, debugBuild: bool): seq<Event>
    requires tokens != []
  {
    var name := ToLower(tokens[0]);
    var found := FindByName(commands, name);
    if client.Some? && client.value.hasConsoleCommandPermission(name) then
      if found.None? || RelayToServer(commands[found.value]) then [SentConsoleCommand(command)]
      else [Invoked(Execute(commands[found.value].onClientExecute.value, tokens[1..]))]
    else if client.Some? && !debugBuild && !client.value.isCommandPermitted(name) then []
    else if found.Some? then [Invoked(Execute(commands[found.value].onExecute, tokens[1..]))]
    else []
  }

  /** A dispatched line leaves exactly its `DispatchEvent` in the trace, and
      queues only the questions of the action it runs. */
  lemma DispatchEmits(w: World, commands: seq<Command>, command: string, tokens: seq<string>,
                      client: Option<ClientSession>, debugBuild: bool, react: Call -> Reaction)
    requires tokens != []
    ensures Dispatch(w, commands, command, tokens, client, debugBuild, react).0.trace
            == w.trace + DispatchEvent(commands, command, tokens, client, debugBuild)
    ensures var e := DispatchEvent(commands, command, tokens, client, debugBuild);
            Dispatch(w, commands, command, tokens, client, debugBuild, react).0.pending
            == w.pending + if e != [] && e[0].Invoked? then Callbacks(react(e[0].call).prompts) else []
  {
    var e := DispatchEvent(commands, command, tokens, client, debugBuild);
    if e != [] && e[0].Invoked? {
      AskAllQueues(w.(trace := w.trace + e), react(e[0].call).prompts);
    }
  }

  /** The permission gate: an action runs on a line only when the line names a
      registered command and, on a client, the client may use it (or the
      build is a debug build); a client relays only what it has the console
      permission for. */
  lemma DispatchGate(commands: seq<Command>, command: string, tokens: seq<string>,
                     client: Option<ClientSession>, debugBuild: bool)
    requires tokens != []
    ensures var e := DispatchEvent(commands, command, tokens, client, debugBuild);
            var name := ToLower(tokens[0]);
            var found := FindByName(commands, name);
            |e| <= 1
            && (e != [] && e[0].Invoked? ==>
                  found.Some? && e[0].call.args == tokens[1..]
                  && (client.None? || debugBuild || client.value.hasConsoleCommandPermission(name)
                      || client.value.isCommandPermitted(name)))
            && (e != [] && e[0].SentConsoleCommand? ==>
                  client.Some? && client.value.hasConsoleCommandPermission(name) && e[0].text == command)
            && ((client.Some? && !debugBuild && !client.value.hasConsoleCommandPermission(name)
                 && !client.value.isCommandPermitted(name)) ==> e == [])
  {
  }

  /** Every alias, across the registry in order, that starts with `stem`. */
  function AliasesWithPrefix(commands: seq<Command>, stem: string): seq<string>
    decreases |commands|
  {
    if commands == [] then []
    else AliasesWithPrefix(commands[..|commands| - 1], stem) + NamesWithPrefix(commands[|commands| - 1].names, stem)
  }

  function NamesWithPrefix(names: seq<string>, stem: string): seq<string>
    decreases |names|
  {
    if names == [] then []
    else NamesWithPrefix(names[..|names| - 1], stem) + (if stem <= names[|names| - 1] then [names[|names| - 1]] else [])
  }

  /** An alias is offered exactly when it starts with the stem. */
  lemma {:induction false} NamesWithPrefixExact(names: seq<string>, stem: string, s: string)
    ensures s in NamesWithPrefix(names, stem) <==> s in names && stem <= s
    decreases |names|
  {
    if names != [] {
      var init := names[..|names| - 1];
      NamesWithPrefixExact(init, stem, s);
      assert names == init + [names[|names| - 1]];
    }
  }

  /** The match list holds exactly the aliases, of any registered command,
      that start with the stem. */
  lemma {:induction false} AliasesWithPrefixExact(commands: seq<Command>, stem: string, s: string)
    ensures s in AliasesWithPrefix(commands, stem)
            <==> stem <= s && exists i :: 0 <= i < |commands| && s in commands[i].names
    decreases |commands|
  {
    if commands != [] {
      var init := commands[..|commands| - 1];
      var last := |commands| - 1;
      AliasesWithPrefixExact(init, stem, s);
      NamesWithPrefixExact(commands[last].names, stem, s);
      if stem <= s && exists i :: 0 <= i < |commands| && s in commands[i].names {
        var i :| 0 <= i < |commands| && s in commands[i].names;
        if i < last {
          assert init[i] == commands[i];
        }
      }
      if s in AliasesWithPrefix(init, stem) {
        var i :| 0 <= i < |init| && s in init[i].names;
        assert commands[i] == init[i];
      }
    }
  }

  /** What `count` successive completions return, starting from the stored
      index, while the stem and the registry stay the same. */
  function Completions(matches: seq<string>, index: nat, count: nat): seq<string>
    requires matches != []
    decreases count
  {
    if count == 0 then []
    else [matches[index % |matches|]] + Completions(matches, index % |matches| + 1, count - 1)
  }

  /** Completions from position `i` run to the end of the matches and then
      start over from the first. */
  lemma {:induction false} CompletionsWrap(matches: seq<string>, i: nat, count: nat)
    requires matches != [] && i <= |matches|
    ensures Completions(matches, i, |matches| - i + count) == matches[i..] + Completions(matches, 0, count)
    decreases |matches| - i
  {
    var n := |matches|;
    if i == n {
      if count > 0 {
        assert n % n == 0 && 0 % n == 0;
      }
    } else {
      assert i % n == i;
      CompletionsWrap(matches, i + 1, count);
      assert matches[i..] == [matches[i]] + matches[i + 1..];
    }
  }

  /** From a reset index, as many completions as there are matches return
      every match once, in registry order, and the next one starts over. */
  lemma CompletionsCycle(matches: seq<string>, count: nat)
    requires matches != []
    ensures Completions(matches, 0, |matches|) == matches
    ensures Completions(matches, 0, |matches| + count) == matches + Completions(matches, 0, count)
  {
    CompletionsWrap(matches, 0, 0);
    CompletionsWrap(matches, 0, count);
  }

  /** What `ExecuteCommand` does with a tokenized, echoed line: on a client
      with the console permission for it, relay the line or run the client-side
      action; on a client without either permission, refuse; otherwise run the
      first command with the first token as an alias. */
  function Dispatch(w: World, commands: seq<Command>, command: string, tokens: seq<string>,
                    client: Option<ClientSession>, debugBuild: bool, react: Call -> Reaction): (World, Option<Fault>)
    requires tokens != []
  {
    var name := ToLower(tokens[0]);
    var found := FindByName(commands, name);
    if client.Some? && client.value.hasConsoleCommandPermission(name) then
      if found.None? || RelayToServer(commands[found.value]) then
        (w.(messages := Append(w.messages, "Server command: " + command, White),
            trace := w.trace + [SentConsoleCommand(command)]), None)
      else
        var (w', f) := Perform(w, Execute(commands[found.value].onClientExecute.value, tokens[1..]), react);
        if f.Some? then (w', f) else (w'.(messages := Append(w'.messages, "Server command: " + command, White)), None)
    else if client.Some? && !debugBuild && !client.value.isCommandPermitted(name) then
      (w.(messages := Append(w.messages, ErrorText("You're not permitted to use the command \"" + name + "\"!", None), Red)), None)
    else if found.Some? then
      Perform(w, Execute(commands[found.value].onExecute, tokens[1..]), react)
    else
      (w.(messages := Append(w.messages, ErrorText("Command \"" + tokens[0] + "\" not found.", None), Red)), None)
  }
  /** A client holding the console permission for the name sends the raw line,
      unchanged, when the command is unknown locally or runs on the server:
      the only event is that send, the log gains "Server command: " and the
      line, and nothing faults. Otherwise it runs the client action on the
      arguments after the first token. */
  lemma ClientRelaySendsLine(w: World, commands: seq<Command>, command: string, tokens: seq<string>,
                             client: Option<ClientSession>, debugBuild: bool, react: Call -> Reaction)
    requires tokens != []
    requires client.Some? && client.value.hasConsoleCommandPermission(ToLower(tokens[0]))
    ensures var found := FindByName(commands, ToLower(tokens[0]));
            (found.None? || RelayToServer(commands[found.value])) ==>
              && DispatchEvent(commands, command, tokens, client, debugBuild) == [SentConsoleCommand(command)]
              && Dispatch(w, commands, command, tokens, client, debugBuild, react)
                 == (w.(messages := Append(w.messages, "Server command: " + command, White),
                        trace := w.trace + [SentConsoleCommand(command)]), None)
    ensures var found := FindByName(commands, ToLower(tokens[0]));
            !(found.None? || RelayToServer(commands[found.value])) ==>
              DispatchEvent(commands, command, tokens, client, debugBuild)
              == [Invoked(Execute(commands[found.value].onClientExecute.value, tokens[1..]))]
  {
  }


  class DebugConsole {
    /** What each action does that the console sees. */
    const react: Call -> Reaction
    /** A DEBUG build: permission checks on the client are skipped. */
    const debugBuild: bool

    var commands: seq<Command>
    var messages: seq<ColoredText>
    /** The pending question callback as its invocation list; empty is null. */
    var activeQuestionCallback: seq<HandlerId>
    /** The autocomplete stem; null and "" behave alike, so null is "". */
    var currentAutoCompletedCommand: string
    var currentAutoCompletedIndex: nat
    var selectedIndex: int
    /** Actions invoked and messages sent, in order. */
    var trace: seq<Event>

    ghost predicate Valid()
      reads this
    {
      WellFormed(commands) && |messages| <= MaxMessages
    }

    function Snapshot(): World
      reads this
    {
      World(messages, activeQuestionCallback, trace)
    }

    /** The static constructor: the registered commands sorted by first alias. */
    constructor (registered: seq<Command>, react: Call -> Reaction, debugBuild: bool)
      requires WellFormed(registered)
      ensures Valid()
      ensures commands == SortByFirstName(registered)
      ensures this.react == react && this.debugBuild == debugBuild
      ensures messages == [] && activeQuestionCallback == [] && trace == []
      ensures currentAutoCompletedCommand == [] && currentAutoCompletedIndex == 0 && selectedIndex == 0
    {
      this.react := react;
      this.debugBuild := debugBuild;
      commands := SortByFirstName(registered);
      messages := [];
      activeQuestionCallback := [];
      currentAutoCompletedCommand := [];
      currentAutoCompletedIndex := 0;
      selectedIndex := 0;
      trace := [];
    }

    method NewMessage(msg: string, color: Color)
      requires Valid()
      modifies this`messages
      ensures Valid()
      ensures messages == Append(old(messages), msg, color)
    {
      if msg == [] {
        return;
      }
      messages := messages + [ColoredText(msg, color)];
      if |messages| > MaxMessages {
        messages := messages[|messages| - MaxMessages..];
      }
    }

    method ThrowError(error: string, e: Option<Fault>)
      requires Valid()
      modifies this`messages
      ensures Valid()
      ensures messages == Append(old(messages), ErrorText(error, e), Red)
    {
      var text := error;
      if e.Some? {
        text := text + " {" + FaultMessage(e.value) + "}\n" + FaultStackTrace(e.value);
      }
      NewMessage(text, Red);
    }

    method ShowQuestionPrompt(question: string, onAnswered: HandlerId)
      requires Valid()
      modifies this`messages, this`activeQuestionCallback
      ensures Valid()
      ensures Snapshot() == Ask(old(Snapshot()), Prompt(question, onAnswered))
    {
      NewMessage("   >>" + question, Cyan);
      activeQuestionCallback := activeQuestionCallback + [onAnswered];
    }

    /** Runs an action: records the call, then lets it ask its questions. */
    method Invoke(call: Call) returns (fault: Option<Fault>)
      requires Valid()
      modifies this`messages, this`activeQuestionCallback, this`trace
      ensures Valid()
      ensures (Snapshot(), fault) == Perform(old(Snapshot()), call, react)
    {
      trace := trace + [Invoked(call)];
      var reaction := react(call);
      ghost var start := Snapshot();
      for i := 0 to |reaction.prompts|
        invariant Valid()
        invariant AskAll(Snapshot(), reaction.prompts[i..]) == AskAll(start, reaction.prompts)
      {
        assert reaction.prompts[i..][1..] == reaction.prompts[i + 1..];
        ShowQuestionPrompt(reaction.prompts[i].question, reaction.prompts[i].callback);
      }
      assert reaction.prompts[|reaction.prompts|..] == [];
      fault := reaction.fault;
    }

    /** Invokes a multicast callback with one answer. */
    method InvokeCallbacks(callbacks: seq<HandlerId>, answer: string) returns (fault: Option<Fault>)
      requires Valid()
      modifies this`messages, this`activeQuestionCallback, this`trace
      ensures Valid()
      ensures (Snapshot(), fault) == AnswerAll(old(Snapshot()), callbacks, answer, react)
    {
      ghost var start := Snapshot();
      fault := None;
      var i := 0;
      while i < |callbacks|
        invariant 0 <= i <= |callbacks|
        invariant Valid() && fault.None?
        invariant AnswerAll(Snapshot(), callbacks[i..], answer, react) == AnswerAll(start, callbacks, answer, react)
      {
        assert callbacks[i..][0] == callbacks[i] && callbacks[i..][1..] == callbacks[i + 1..];
        ghost var before := Snapshot();
        fault := Invoke(Answer(callbacks[i], answer));
        assert AnswerAll(before, callbacks[i..], answer, react)
            == if fault.Some? then (Snapshot(), fault) else AnswerAll(Snapshot(), callbacks[i + 1..], answer, react);
        if fault.Some? {
          return;
        }
        i := i + 1;
      }
      assert callbacks[i..] == [];
    }

    /** `ExecuteCommand`: one line typed at this console. */
    method ExecuteCommand(command: string, client: Option<ClientSession>) returns (fault: Option<Fault>)
      requires Valid()
      modifies this`messages, this`activeQuestionCallback, this`trace
      ensures Valid()
      // a pending question takes the line verbatim; the slot is cleared first
      ensures old(activeQuestionCallback) != [] ==>
        (Snapshot(), fault)
        == AnswerAll(World(Append(old(messages), command, White), [], old(trace)),
                     old(activeQuestionCallback), command, react)
      ensures old(activeQuestionCallback) == [] && IsBlank(command) ==>
        Snapshot() == old(Snapshot()) && fault.None?
      // a line of only quotes or escapes has no first token to index
      ensures old(activeQuestionCallback) == [] && !IsBlank(command) && Tokenize(command) == [] ==>
        Snapshot() == old(Snapshot()) && fault == Some(IndexOutOfRange)
      ensures old(activeQuestionCallback) == [] && !IsBlank(command) && Tokenize(command) != [] ==>
        (Snapshot(), fault)
        == Dispatch(World(Echo(old(messages), command, Tokenize(command)[0]), [], old(trace)),
                    commands, command, Tokenize(command), client, debugBuild, react)
    {
      if activeQuestionCallback != [] {
        NewMessage(command, White);
        var temp := activeQuestionCallback;
        activeQuestionCallback := [];
        fault := InvokeCallbacks(temp, command);
        return;
      }
      fault := None;
      if IsBlank(command) {
        return;
      }
      var splitCommand := SplitCommand(command);
      if |splitCommand| == 0 {
        return Some(IndexOutOfRange);
      }
      if ToLower(splitCommand[0]) != "admin" {
        NewMessage(command, White);
      }
      fault := DispatchCommand(command, splitCommand, client);
    }

    /** The rest of `ExecuteCommand` once the line is tokenized and echoed. */
    method DispatchCommand(command: string, splitCommand: seq<string>, client: Option<ClientSession>)
      returns (fault: Option<Fault>)
      requires Valid() && splitCommand != []
      modifies this`messages, this`activeQuestionCallback, this`trace
      ensures Valid()
      ensures (Snapshot(), fault) == Dispatch(old(Snapshot()), commands, command, splitCommand, client, debugBuild, react)
    {
      fault := None;
      var name := ToLower(splitCommand[0]);
      if client.Some? {
        if client.value.hasConsoleCommandPermission(name) {
          var found := FindByName(commands, name);
          if found.None? || RelayToServer(commands[found.value]) {
            trace := trace + [SentConsoleCommand(command)];
          } else {
            fault := Invoke(Execute(commands[found.value].onClientExecute.value, splitCommand[1..]));
            if fault.Some? {
              return;
            }
          }
          NewMessage("Server command: " + command, White);
          return;
        }
        if !debugBuild && !client.value.isCommandPermitted(name) {
          ThrowError("You're not permitted to use the command \"" + name + "\"!", None);
          return;
        }
      }
      var i := 0;
      while i < |commands| && name !in commands[i].names
        invariant 0 <= i <= |commands|
        invariant forall j :: 0 <= j < i ==> name !in commands[j].names
      {
        i := i + 1;
      }
      if i < |commands| {
        fault := Invoke(Execute(commands[i].onExecute, splitCommand[1..]));
      } else {
        ThrowError("Command \"" + splitCommand[0] + "\" not found.", None);
      }
    }

    /** `ExecuteClientCommand`: the server runs a line a remote client sent. */
    method ExecuteClientCommand(requester: Requester, cursorWorldPos: Position, command: string, serverRunning: bool)
      returns (fault: Option<Fault>)
      requires Valid()
      modifies this`messages, this`activeQuestionCallback, this`trace
      ensures Valid()
      ensures !serverRunning || IsBlank(command) ==> Snapshot() == old(Snapshot()) && fault.None?
      ensures serverRunning && !IsBlank(command) && !requester.hasConsoleCommands ==>
        fault.None?
        && Snapshot() == old(Snapshot()).(trace := old(trace) + [SentChatMessage("You are not permitted to use console commands!", requester.id)])
      ensures serverRunning && !IsBlank(command) && requester.hasConsoleCommands && Tokenize(command) == [] ==>
        Snapshot() == old(Snapshot()) && fault == Some(IndexOutOfRange)
      ensures serverRunning && !IsBlank(command) && requester.hasConsoleCommands && Tokenize(command) != [] ==>
        var tokens := Tokenize(command);
        var found := FindByName(commands, ToLower(tokens[0]));
        fault.None?
        && if found.None? then
             Snapshot() == old(Snapshot()).(trace := old(trace) + [SentChatMessage("Command \"" + tokens[0] + "\" not found.", requester.id)])
           else
             var c := commands[found.value];
             if c !in requester.permittedConsoleCommands then
               Snapshot() == old(Snapshot()).(trace := old(trace) + [SentChatMessage("You are not permitted to use the command\"" + c.names[0] + "\"!", requester.id)])
             else
               // the action runs; an exception it throws is logged, never rethrown
               var (w, f) := Perform(old(Snapshot()), ServerRequestCall(c, requester, cursorWorldPos, tokens[1..]), react);
               Snapshot() == if f.None? then w
                             else w.(messages := Append(w.messages, ErrorText("Executing the command \"" + c.names[0] + "\" by request from \"" + requester.name + "\" failed.", f), Red))
      // the gate: an action runs only for a client with the ConsoleCommands
      // permission and the matched command on its list
      ensures |trace| > |old(trace)| && trace[|old(trace)|].Invoked? ==>
        && requester.hasConsoleCommands
        && Tokenize(command) != []
        && FindByName(commands, ToLower(Tokenize(command)[0])).Some?
        && commands[FindByName(commands, ToLower(Tokenize(command)[0])).value] in requester.permittedConsoleCommands
    {
      fault := None;
      if !serverRunning || IsBlank(command) {
        return;
      }
      if !requester.hasConsoleCommands {
        trace := trace + [SentChatMessage("You are not permitted to use console commands!", requester.id)];
        return;
      }
      var splitCommand := SplitCommand(command);
      if |splitCommand| == 0 {
        return Some(IndexOutOfRange);
      }
      var found := FindByName(commands, ToLower(splitCommand[0]));
      if found.Some? && commands[found.value] !in requester.permittedConsoleCommands {
        trace := trace + [SentChatMessage("You are not permitted to use the command\"" + commands[found.value].names[0] + "\"!", requester.id)];
        return;
      } else if found.None? {
        trace := trace + [SentChatMessage("Command \"" + splitCommand[0] + "\" not found.", requester.id)];
        return;
      }
      var matchingCommand := commands[found.value];
      ghost var before := Snapshot();
      var thrown := Invoke(ServerRequestCall(matchingCommand, requester, cursorWorldPos, splitCommand[1..]));
      AskAllQueues(before.(trace := before.trace + [Invoked(ServerRequestCall(matchingCommand, requester, cursorWorldPos, splitCommand[1..]))]),
                   react(ServerRequestCall(matchingCommand, requester, cursorWorldPos, splitCommand[1..])).prompts);
      if thrown.Some? {
        ThrowError("Executing the command \"" + matchingCommand.names[0] + "\" by request from \"" + requester.name + "\" failed.", thrown);
      }
    }

    /** `AutoComplete`: the next alias that starts with the captured stem. */
    method AutoComplete(command: string) returns (r: string)
      requires Valid()
      modifies this`currentAutoCompletedCommand, this`currentAutoCompletedIndex
      ensures Valid()
      ensures currentAutoCompletedCommand
              == if IsBlank(old(currentAutoCompletedCommand)) then command else old(currentAutoCompletedCommand)
      ensures var matches := AliasesWithPrefix(commands, currentAutoCompletedCommand);
              if matches == [] then
                r == command && currentAutoCompletedIndex == old(currentAutoCompletedIndex)
              else
                r == matches[old(currentAutoCompletedIndex) % |matches|]
                && currentAutoCompletedIndex == old(currentAutoCompletedIndex) % |matches| + 1
    {
      if IsBlank(currentAutoCompletedCommand) {
        currentAutoCompletedCommand := command;
      }
      var stem := currentAutoCompletedCommand;
      var matchingCommands: seq<string> := [];
      for i := 0 to |commands|
        invariant matchingCommands == AliasesWithPrefix(commands[..i], stem)
      {
        var names := commands[i].names;
        for j := 0 to |names|
          invariant matchingCommands == AliasesWithPrefix(commands[..i], stem) + NamesWithPrefix(names[..j], stem)
        {
          assert names[..j + 1][..j] == names[..j];
          if |stem| > |names[j]| {
            continue;
          }
          if stem == names[j][..|stem|] {
            matchingCommands := matchingCommands + [names[j]];
          }
        }
        assert names[..|names|] == names;
        assert commands[..i + 1][..i] == commands[..i];
      }
      assert commands[..|commands|] == commands;
      if |matchingCommands| == 0 {
        return command;
      }
      currentAutoCompletedIndex := currentAutoCompletedIndex % |matchingCommands|;
      r := matchingCommands[currentAutoCompletedIndex];
      currentAutoCompletedIndex := currentAutoCompletedIndex + 1;
    }

    method ResetAutoComplete()
      requires Valid()
      modifies this`currentAutoCompletedCommand, this`currentAutoCompletedIndex
      ensures Valid()
      ensures currentAutoCompletedCommand == [] && currentAutoCompletedIndex == 0
    {
      currentAutoCompletedCommand := [];
      currentAutoCompletedIndex := 0;
    }

    /** `SelectMessage`: steps through the logged lines, wrapping at both ends. */
    method SelectMessage(direction: int) returns (r: string)
      requires Valid()
      modifies this`selectedIndex
      ensures Valid()
      ensures messages == [] ==> r == [] && selectedIndex == old(selectedIndex)
      ensures messages != [] ==>
        selectedIndex == NextSelected(old(selectedIndex), direction, |messages|)
        && 0 <= selectedIndex < |messages| && r == messages[selectedIndex].text
    {
      if |messages| == 0 {
        return [];
      }
      var d := Clamp(direction);
      selectedIndex := selectedIndex + d;
      if selectedIndex < 0 {
        selectedIndex := |messages| - 1;
      }
      selectedIndex := selectedIndex % |messages|;
      r := messages[selectedIndex].text;
    }
  }
}
