# Barotrauma debug console: a verified model of the command interpreter

This project models the command interpreter of Barotrauma's `DebugConsole`
(`Barotrauma/BarotraumaShared/Source/DebugConsole.cs`). That is the part that
turns a typed line into a call of a registered command and keeps the
console's bookkeeping. The model covers:

- the tokenizer `SplitCommand`, with its escape counter and quote flag;
- the ban-duration parser `TryParseTimeSpan`;
- the `Command` descriptor: `|`-separated aliases, `RelayToServer` and
  `ServerExecuteOnClientRequest`;
- the registry sort by first alias, the exact lookup used by dispatch, and
  the case-insensitive `FindCommand`;
- the message log `NewMessage` / `ThrowError` with its 200-entry cap, and
  the history cursor `SelectMessage`;
- tab completion `AutoComplete` / `ResetAutoComplete`;
- the question prompt: `ShowQuestionPrompt` composes callbacks with `+=`,
  and `ExecuteCommand` diverts the next line to them;
- local and client-side dispatch in `ExecuteCommand`;
- the server-side permission gate `ExecuteClientCommand`;
- three small argument rules inside registered commands: the `;` split of
  `setclientcharacter`, the trailing-index rule of `FindMatchingCharacter`,
  and the `autorestartinterval` / `autorestarttimer` pair.

Files and modules:

| file | module | contents |
|---|---|---|
| `wrappers.dfy` | `Wrappers` | `Option` |
| `text.dfy` | `Text` | `char.IsWhiteSpace`, ASCII `IsDigit` and `ToLowerInvariant`, `Trim`, `IsNullOrWhiteSpace`, `Split`/`Join` and their round trips |
| `tokenizer.dfy` | `Tokenizer` | the scanner state, one step of the loop, `SplitCommand` as a loop proved against the step function, and the escape and quote laws |
| `tokenizer_examples.dfy` | `TokenizerExamples` | general lemmas for `word "arg"` and `word \"w\"`, plus concrete lines |
| `duration.dfy` | `Duration` | `TryParseTimeSpan` as a loop proved against a scan function; the scan agrees with an independent grammar of number–unit groups |
| `commands.dfy` | `Commands` | `Command`, its two constructors, relay, lookups, and the insertion sort of the registry |
| `message_log.dfy` | `MessageLog` | `NewMessage` on the log as a value, the 200-entry window, and the history-cursor arithmetic |
| `console.dfy` | `Console` | the `DebugConsole` class with its static fields, its methods, and the lemmas about prompts, dispatch and completion |
| `helpers.dfy` | `Helpers` | `int.TryParse`, `setclientcharacter`, `FindMatchingCharacter`, autorestart |

How effects are represented:

- Command bodies, question callbacks and the network are not modelled.
- An action (`onExecute`, `onClientExecute`, `onClientRequestExecute`, a
  question callback) is a `HandlerId`. Running it appends an `Invoked(call)`
  event to the console's `trace`.
- What the action does that the console itself sees is given by the
  console's `react` function: the questions it asks, in order, and the
  exception it throws, if any.
- `SendConsoleCommand` and `SendChatMessage` are also events in `trace`.
- A multicast `QuestionCallback` is the sequence of its subscribers.
- The permission queries `HasConsoleCommandPermission`, `IsCommandPermitted`,
  `HasPermission(ConsoleCommands)` and `PermittedConsoleCommands` are
  inputs: functions and a list held by the client session or the requester.
- `GameMain.Server != null` is a `serverRunning` flag, and the
  `#if DEBUG` build is the `debugBuild` constant.

Behaviour of the code that its comments and names do not suggest, modelled as written:

- A client that lacks the console permission for a command but passes
  `IsCommandPermitted` falls through to local dispatch (:1128-1172). It is
  not refused.
- `ExecuteCommand` has no `try`/`catch`. An exception thrown by a handler or
  a callback therefore ends the call. `ExecuteCommand` returns it as its
  `Option<Fault>` result.
- In `ExecuteClientCommand`, a handler's exception is only logged through
  `ThrowError` on the server. Nothing is sent to the requester.
- A non-blank line that yields no tokens (`""`, or a lone `\`) makes both
  entry points index an empty array (:1123, :1186). This is the
  `IndexOutOfRange` fault.

## Model

| member | source | states |
|---|---|---|
| Text.TrimTrimmed | Barotrauma/BarotraumaShared/Source/DebugConsole.cs:1025 | trimming text that neither starts nor ends with white space returns it unchanged |
| Text.JoinSplitOn | Barotrauma/BarotraumaShared/Source/DebugConsole.cs:59 | joining the pieces of `Split(sep)` with `sep` gives back the original text |
| Text.SplitOnJoin | Barotrauma/BarotraumaShared/Source/DebugConsole.cs:59 | splitting a join of non-empty, separator-free pieces gives back the pieces |
| Tokenizer.SplitCommand | Barotrauma/BarotraumaShared/Source/DebugConsole.cs:1023-1057 | the loop over the trimmed line returns exactly `Tokenize(command)`, the step function run over it with the final piece flushed |
| Tokenizer.RunNonBlank | Barotrauma/BarotraumaShared/Source/DebugConsole.cs:1044-1054 | scanning from a state with only non-blank tokens never adds a blank one |
| Tokenizer.TokensNeverBlank | Barotrauma/BarotraumaShared/Source/DebugConsole.cs:1044-1054 | no returned token is empty or white space only |
| Tokenizer.RunPlain | Barotrauma/BarotraumaShared/Source/DebugConsole.cs:1044-1049 | on text without `\` or `"`, the scan splits on spaces and drops blank pieces |
| Tokenizer.PlainTokens | Barotrauma/BarotraumaShared/Source/DebugConsole.cs:1025-1054 | for a line without `\` or `"`, the tokens are the trimmed line split on `' '` with empty and blank pieces removed |
| Tokenizer.EscapedQuote | Barotrauma/BarotraumaShared/Source/DebugConsole.cs:1034-1042 | `\"` appends a literal `"` to the token and does not toggle quoting |
| Tokenizer.EscapedBackslash | Barotrauma/BarotraumaShared/Source/DebugConsole.cs:1034-1037 | `\\` appends one literal backslash |
| Tokenizer.EscapedCharDropped | Barotrauma/BarotraumaShared/Source/DebugConsole.cs:1049-1051 | an escaped ordinary character is dropped and the escape is used up on it |
| Tokenizer.EscapedSpaceSplits | Barotrauma/BarotraumaShared/Source/DebugConsole.cs:1044-1047 | an escaped space outside quotes still ends the token |
| Tokenizer.TrailingBackslash | Barotrauma/BarotraumaShared/Source/DebugConsole.cs:1034-1054 | a trailing backslash is ignored and the scan does not fail |
| Tokenizer.EscapeLastsOneCharacter | Barotrauma/BarotraumaShared/Source/DebugConsole.cs:1036-1051 | between iterations the counter is 0 or 1; it is 1 exactly after an unescaped `\`, and it is back to 0 after the next character |
| Tokenizer.WordRun | Barotrauma/BarotraumaShared/Source/DebugConsole.cs:1049 | a run of ordinary characters, inside quotes or without spaces, is appended to the current piece |
| Tokenizer.QuotedSpan | Barotrauma/BarotraumaShared/Source/DebugConsole.cs:1039-1049 | `"w"` adds `w` to the current piece verbatim, spaces included |
| Tokenizer.UnterminatedQuote | Barotrauma/BarotraumaShared/Source/DebugConsole.cs:1039-1054 | an unmatched `"` keeps the rest of the line, spaces included, as the last piece; no failure |
| TokenizerExamples.FirstWord | Barotrauma/BarotraumaShared/Source/DebugConsole.cs:1044-1049 | a first word followed by a space becomes the first token |
| TokenizerExamples.WordThenQuoted | Barotrauma/BarotraumaShared/Source/DebugConsole.cs:1023-1057 | `word "arg"` tokenizes to `[word, arg]`, spaces inside `arg` kept |
| TokenizerExamples.WordThenEscapedQuotes | Barotrauma/BarotraumaShared/Source/DebugConsole.cs:1023-1057 | `word \"w\"` tokenizes to `[word, "w"]` with the quote characters kept |
| TokenizerExamples.SpawnLine | Barotrauma/BarotraumaShared/Source/DebugConsole.cs:1023-1057 | `spawn mudraptor outside` gives its three words |
| TokenizerExamples.KickQuotedName | Barotrauma/BarotraumaShared/Source/DebugConsole.cs:1023-1057 | `kick "Long Name"` gives `kick` and `Long Name` |
| TokenizerExamples.SayEscapedQuotes | Barotrauma/BarotraumaShared/Source/DebugConsole.cs:1023-1057 | `say \"hi\"` gives `say` and `"hi"` |
| Duration.TryParseTimeSpan | Barotrauma/BarotraumaShared/Source/DebugConsole.cs:1440-1487 | the loop with early returns yields `ParseDuration(s)`: `None` for false, otherwise the span in seconds |
| Duration.RunSkipsWhiteSpace | Barotrauma/BarotraumaShared/Source/DebugConsole.cs:1452-1455 | white space anywhere, even inside a number, does not affect the result |
| Duration.RunMatchesGroups | Barotrauma/BarotraumaShared/Source/DebugConsole.cs:1446-1484 | on white-space-free text the scan equals the grammar `Groups`, offset by the total so far |
| Duration.GroupAfterNumber | Barotrauma/BarotraumaShared/Source/DebugConsole.cs:1456-1482 | after the digits, a non-digit fails when there are no digits, when it is not a unit, or when the number exceeds `int.MaxValue`; otherwise it adds number × unit |
| Duration.DurationGrammar | Barotrauma/BarotraumaShared/Source/DebugConsole.cs:1440-1487 | blank input fails; anything else parses as the sum of n × unit over its number–unit groups, with white space removed |
| Duration.UnitWithoutNumberFails | Barotrauma/BarotraumaShared/Source/DebugConsole.cs:1458-1462 | a unit letter with no digits right before it fails wherever it stands, at the start or after another unit (the `h` of `2d h`) |
| Duration.StrayCharacterFails | Barotrauma/BarotraumaShared/Source/DebugConsole.cs:1478-1479 | any character that is not a digit, white space or one of d/h/m/s makes the parse fail |
| Duration.TrailingDigitsIgnored | Barotrauma/BarotraumaShared/Source/DebugConsole.cs:1446-1486 | digits after the last unit are ignored and the parse still succeeds |
| Duration.TwoDaysThreeHours | Barotrauma/BarotraumaShared/Source/DebugConsole.cs:1464-1471 | `2d 3h` is 2 days plus 3 hours |
| Duration.UnknownUnitFails | Barotrauma/BarotraumaShared/Source/DebugConsole.cs:1478-1479 | `10x` fails |
| Duration.EmptyFails | Barotrauma/BarotraumaShared/Source/DebugConsole.cs:1443 | the empty string fails |
| Commands.NewCommand | Barotrauma/BarotraumaShared/Source/DebugConsole.cs:57-66 | there is at least one alias, no alias holds the pipe character, and joining the aliases with it gives back the name; the actions are stored as given |
| Commands.NewSharedCommand | Barotrauma/BarotraumaShared/Source/DebugConsole.cs:71-78 | the same as the five-argument constructor with `onExecute` as the client action and no request action |
| Commands.SharedCommandsRunOnClient | Barotrauma/BarotraumaShared/Source/DebugConsole.cs:47-78 | a command built with three arguments is never relayed |
| Commands.FindByName | Barotrauma/BarotraumaShared/Source/DebugConsole.cs:1133 | the first command that has the name as an alias, or none when no command has it |
| Commands.FindCommand | Barotrauma/BarotraumaShared/Source/DebugConsole.cs:1489-1493 | the first command with an alias equal to the name once both are lower-cased, or none |
| Commands.EveryAliasFindsItsCommand | Barotrauma/BarotraumaShared/Source/DebugConsole.cs:1489-1493 | every alias of a command finds that command, unless an earlier command also matches it ignoring case |
| Commands.FindCommandNoLaterThanExact | Barotrauma/BarotraumaShared/Source/DebugConsole.cs:1489-1493 | whenever the exact lookup succeeds, `FindCommand` succeeds at that command or an earlier one |
| Commands.LexLeTotal | Barotrauma/BarotraumaShared/Source/DebugConsole.cs:1020 | the ordinal comparison is total |
| Commands.LexLeTransitive | Barotrauma/BarotraumaShared/Source/DebugConsole.cs:1020 | the ordinal comparison is transitive |
| Commands.Insert | Barotrauma/BarotraumaShared/Source/DebugConsole.cs:1020 | inserting adds exactly the one command |
| Commands.InsertKeepsOrder | Barotrauma/BarotraumaShared/Source/DebugConsole.cs:1020 | inserting into a registry sorted by first alias keeps it sorted |
| Commands.RegistrySorted | Barotrauma/BarotraumaShared/Source/DebugConsole.cs:1020 | the sorted registry is ordered by first alias and is a permutation of the registered commands |
| MessageLog.AppendIsWindow | Barotrauma/BarotraumaShared/Source/DebugConsole.cs:1402-1417 | one `NewMessage` keeps the most recent 200 entries; an empty message is not logged; a non-empty one becomes the last entry |
| MessageLog.WindowOfWindow | Barotrauma/BarotraumaShared/Source/DebugConsole.cs:1414-1417 | capping, appending more and capping again is the same as capping once |
| MessageLog.LogKeepsMostRecent | Barotrauma/BarotraumaShared/Source/DebugConsole.cs:1402-1417 | after any sequence of `NewMessage` calls the log is the most recent 200 non-empty messages, oldest first |
| MessageLog.Clamp | Barotrauma/BarotraumaShared/Source/DebugConsole.cs:1095 | the direction is clamped to [-1, 1]: unchanged inside that range, 1 above it and -1 below it |
| MessageLog.NextSelected | Barotrauma/BarotraumaShared/Source/DebugConsole.cs:1095-1099 | the new cursor lies in [0, Count) |
| MessageLog.SelectWrapsAtBothEnds | Barotrauma/BarotraumaShared/Source/DebugConsole.cs:1097-1099 | any negative direction from 0 goes to the last entry, any positive one from the last goes to 0, and a one-entry log always selects 0 |
| MessageLog.SelectStepsByOne | Barotrauma/BarotraumaShared/Source/DebugConsole.cs:1095-1099 | inside the log the cursor moves by exactly one in the clamped direction, or stays for 0 |
| Console.AskAllQueues | Barotrauma/BarotraumaShared/Source/DebugConsole.cs:1427-1438 | asking questions queues their callbacks in order after the pending ones and invokes nothing |
| Console.ServerRequestCall | Barotrauma/BarotraumaShared/Source/DebugConsole.cs:90-100 | the request action with the requester and cursor position, or else `onExecute` with the arguments only |
| Console.AnswerReachesEveryCallback | Barotrauma/BarotraumaShared/Source/DebugConsole.cs:1113-1115 | when no subscriber throws, every subscriber receives the same line, in subscription order, and the questions they ask are queued in that order |
| Console.AnswerEventAt | Barotrauma/BarotraumaShared/Source/DebugConsole.cs:1115 | the k-th event of an answer is the k-th subscriber receiving that answer |
| Console.AnswerFirst | Barotrauma/BarotraumaShared/Source/DebugConsole.cs:1115 | the first subscriber runs first; the rest run only if it returns normally |
| Console.AnswerStopsAtFirstFault | Barotrauma/BarotraumaShared/Source/DebugConsole.cs:1115 | the first subscriber that throws ends the invocation: later ones never see the line, and its exception is the result |
| Console.PromptsCompose | Barotrauma/BarotraumaShared/Source/DebugConsole.cs:1106-1117 | two questions asked before an answer are both pending; the answer reaches the first and then, unless the first throws, the second |
| Console.FollowUpQuestion | Barotrauma/BarotraumaShared/Source/DebugConsole.cs:1112-1115 | since the slot is cleared before the callback runs, a question the callback asks is the only one pending afterwards |
| Console.DispatchEmits | Barotrauma/BarotraumaShared/Source/DebugConsole.cs:1128-1172 | a dispatched line leaves exactly one relay or one action invocation (or nothing) in the trace, and queues only that action's questions |
| Console.DispatchGate | Barotrauma/BarotraumaShared/Source/DebugConsole.cs:1128-1172 | an action runs only for a registered alias, on the arguments after the first token, and on a client only with console permission, command permission or a debug build; a relay carries the raw line and happens only with the console permission; a client with neither permission in a release build emits nothing |
| Console.ClientRelaySendsLine | Barotrauma/BarotraumaShared/Source/DebugConsole.cs:1129-1147 | a client with console permission sends exactly the raw line, logs "Server command: " and the line, and does not fault, when the command is unknown locally or runs on the server; otherwise it runs the client action on the arguments after the first token |
| Console.NamesWithPrefixExact | Barotrauma/BarotraumaShared/Source/DebugConsole.cs:1070-1078 | an alias is offered exactly when the stem is a case-sensitive prefix of it |
| Console.AliasesWithPrefixExact | Barotrauma/BarotraumaShared/Source/DebugConsole.cs:1067-1080 | the match list holds exactly the aliases, of any registered command, that have the stem as a prefix |
| Console.CompletionsWrap | Barotrauma/BarotraumaShared/Source/DebugConsole.cs:1084-1085 | completions from position i run to the end of the matches and then start again from the first |
| Console.CompletionsCycle | Barotrauma/BarotraumaShared/Source/DebugConsole.cs:1084-1085 | from a reset index, n completions return each of the n matches once, in registry order, and then repeat |
| Console.DebugConsole.constructor | Barotrauma/BarotraumaShared/Source/DebugConsole.cs:1020 | the registry is the registered commands sorted by first alias; the log, prompt, completion and trace state start empty |
| Console.DebugConsole.NewMessage | Barotrauma/BarotraumaShared/Source/DebugConsole.cs:1402-1417 | the log becomes `Append(old log, msg, color)` and stays within 200 entries |
| Console.DebugConsole.ThrowError | Barotrauma/BarotraumaShared/Source/DebugConsole.cs:1501-1513 | logs the error in red, followed by the exception's message and stack trace when there is one |
| Console.DebugConsole.ShowQuestionPrompt | Barotrauma/BarotraumaShared/Source/DebugConsole.cs:1427-1438 | logs `   >>question` in cyan and adds the callback to the pending invocation list |
| Console.DebugConsole.Invoke | Barotrauma/BarotraumaShared/Source/DebugConsole.cs:80-88 | records the call, lets the action ask its questions in order, and returns its exception |
| Console.DebugConsole.InvokeCallbacks | Barotrauma/BarotraumaShared/Source/DebugConsole.cs:1115 | invokes the subscribers in order with the answer and stops at the first exception, as `AnswerAll` says |
| Console.DebugConsole.ExecuteCommand | Barotrauma/BarotraumaShared/Source/DebugConsole.cs:1104-1173 | a pending prompt takes the line verbatim after the slot is cleared; a blank line does nothing; a line without tokens is an index fault; otherwise the line is echoed unless its first token is `admin`, and then dispatched |
| Console.DebugConsole.DispatchCommand | Barotrauma/BarotraumaShared/Source/DebugConsole.cs:1128-1172 | client relay, client action, refusal, or the first command whose alias matches the lower-cased first token, run on the rest, else a red "not found" |
| Console.DebugConsole.ExecuteClientCommand | Barotrauma/BarotraumaShared/Source/DebugConsole.cs:1175-1206 | no server or a blank line does nothing; each refusal or "not found" sends exactly one chat reply; otherwise the request action runs, and its exception is logged, not propagated; an action runs only with the `ConsoleCommands` permission and the matched command on the requester's list |
| Console.DebugConsole.AutoComplete | Barotrauma/BarotraumaShared/Source/DebugConsole.cs:1059-1083 | the stem is captured only while the stored one is blank; with no match the input comes back and the index is unchanged; otherwise the result is `matches[index mod n]` and the index becomes `index mod n + 1` |
| Console.DebugConsole.ResetAutoComplete | Barotrauma/BarotraumaShared/Source/DebugConsole.cs:1085-1089 | the stem becomes "" and the index 0 |
| Console.DebugConsole.SelectMessage | Barotrauma/BarotraumaShared/Source/DebugConsole.cs:1091-1102 | returns "" on an empty log; otherwise moves the cursor to `NextSelected`, inside [0, Count), and returns that entry's text |
| Helpers.ParseInt32 | Barotrauma/BarotraumaShared/Source/DebugConsole.cs:1215 | a parsed value lies in the 32-bit range |
| Helpers.TrailingNulsIgnored | Barotrauma/BarotraumaShared/Source/DebugConsole.cs:1215 | NUL characters at the end of the text do not change the result, so a number followed by NULs still parses to itself |
| Helpers.ParseInt32RejectsStray | Barotrauma/BarotraumaShared/Source/DebugConsole.cs:1215 | a character other than a digit, a sign or the white space U+0009 to U+000D and U+0020 makes the parse fail wherever it stands, unless it is a NUL followed only by NULs |
| Helpers.NoBreakSpaceRejected | Barotrauma/BarotraumaShared/Source/DebugConsole.cs:1215 | a leading no-break space fails the parse, while a leading tab is skipped |
| Helpers.ParseInt32RoundTrip | Barotrauma/BarotraumaShared/Source/DebugConsole.cs:1215 | every 32-bit integer written in decimal, with a `-` when negative, parses back to itself |
| Helpers.IndexOf | Barotrauma/BarotraumaShared/Source/DebugConsole.cs:819 | the first position of the element, or -1 exactly when it is absent |
| Helpers.SplitAssignment | Barotrauma/BarotraumaShared/Source/DebugConsole.cs:819-828 | refused exactly when there is no `;` argument or there are fewer than three arguments |
| Helpers.SplitAssignmentReassembles | Barotrauma/BarotraumaShared/Source/DebugConsole.cs:819-828 | the arguments are the left part, the first `;` and the character arguments; the client name is the left part joined with spaces, and splitting it on spaces gives the left part back when its words hold no space |
| Helpers.Matches | Barotrauma/BarotraumaShared/Source/DebugConsole.cs:1226 | the positions, in increasing order, of exactly the characters whose lower-cased name is the query and that are not excluded as remote players |
| Helpers.FindMatchingCharacter | Barotrauma/BarotraumaShared/Source/DebugConsole.cs:1209-1254 | no arguments gives null; "not found" exactly when no character is eligible under the queried name; with no index the first match, ambiguous when there are several; an index inside the matches selects that match; any other index is out of range |
| Helpers.NoIndexPicksFirst | Barotrauma/BarotraumaShared/Source/DebugConsole.cs:1233-1242 | without a trailing index the character returned is the first eligible one, and the lookup is ambiguous exactly when another character is eligible too |
| Helpers.TrailingIndexSelects | Barotrauma/BarotraumaShared/Source/DebugConsole.cs:1215-1252 | with the corrected rule, an index after the name selects the match at that position, and any index outside the matches is refused |
| Helpers.IntendedAgreesExceptMinusOne | Barotrauma/BarotraumaShared/Source/DebugConsole.cs:1215-1252 | the corrected rule agrees with the code on every query except an explicit index of -1 |
| Helpers.MinusOneSelectsFirst | Barotrauma/BarotraumaShared/Source/DebugConsole.cs:1215-1242 | as written, `bob -1` with two Bobs returns the first one; the corrected rule refuses it as out of range |
| Helpers.AutoRestartSettingKeepsTimerWithinInterval | Barotrauma/BarotraumaShared/Source/DebugConsole.cs:270-306 | after either command with a non-negative value the restart is on, the value is stored, and the timer does not exceed the interval |
| Helpers.AutoRestartInvariant | Barotrauma/BarotraumaShared/Source/DebugConsole.cs:265-320 | both commands preserve timer ≤ interval; a negative value only switches the restart off |

## Left out

- Command bodies (:124-1016): they act on game entities, physics, cameras and the network. They are opaque actions here.
- Network sends: `SendConsoleCommand` and `SendChatMessage` are trace events. Kick and ban are not modelled.
- `NewMessage` on the client build: its `queuedMessages` queue and lock are concurrency plumbing. Every build is modelled with the server's append-and-cap behaviour.
- Terminal colour writes and `System.Diagnostics.Debug.WriteLine`: output only.
- GUI state: `activeQuestionText`, `isOpen` and the list box.
- Console.DebugConsole.ShowQuestionPrompt: every build logs `   >>question` in cyan, as the server build does. The client build shows the question in `activeQuestionText` instead and does not add it to the log.
- The `ColoredText.Time` timestamp: it is taken from the clock, so it is not deterministic.
- The sort's culture-sensitive `string.CompareTo`: it is modelled as ordinal (code point) order, and `List.Sort`'s unspecified order of equal keys as a stable insertion sort.
- The permission predicates and lists are defined in other files. They are inputs to the model.
- `#if DEBUG`-only commands such as `spamevents`.
- Digits, white space and lower-casing: `char.IsDigit` and `ToLowerInvariant` cover ASCII only. `char.IsWhiteSpace` covers the full .NET set. `int.TryParse` skips only U+0009 to U+000D and U+0020 around the number and accepts NUL characters after it, and the current culture's signs are taken to be `-` and `+`.
- Duration.TryParseTimeSpan: the span is whole seconds. The `TimeSpan` range check (an overflow exception for huge spans) is not modelled, and neither is the partially built span left in the `out` parameter when the parse fails.
- Console.DebugConsole.AutoComplete: a null stem is the empty string, which `IsNullOrWhiteSpace` treats alike.
- Console.DebugConsole.ExecuteClientCommand: the `PermittedConsoleCommands.Contains` reference comparison is modelled as value equality of command descriptors.
- Console.DebugConsole.Invoke: an action's own effects on the log, other than the questions it asks, are not modelled.
- Faults: a handler's exception carries only its message and stack trace. The runtime's `IndexOutOfRangeException` is a distinct fault value.
- `Log` (verbose logging) and the remaining console commands are not part of this model.

## Findings

| source | as written | input that shows it | evidently intended | confidence | as-written member | corrected member |
|---|---|---|---|---|---|---|
| Barotrauma/BarotraumaShared/Source/DebugConsole.cs:1215-1247 | `-1` is both the "no index" marker and a parsed trailing index, so `name -1` drops the `-1` from the name and returns the first match | `bob -1` with two characters named Bob: returns the first Bob, where `bob -2` reports "index out of range" | every negative index is refused, as the `characterIndex < 0` test suggests | medium, not executed | Helpers.MinusOneSelectsFirst | Helpers.TrailingIndexSelects |
