# console_lexico — a Dafny model of the command pipeline and the SSH relay

console_lexico is a web console in two parts. In the browser, the user types a
line. The line is trimmed and split into a command and its arguments, and
Spanish alias names (`listar`, `buscar`, …) are translated into shell commands.
The result is sent over a socket as a `command` message, and each token is
classified for a lexical table (reserved word, non-reserved word, identifier,
error). On the server, a relay holds one shared SSH client. A command is
refused unless a host has been configured and the connection is up. Otherwise
the relay executes `command + ' ' + args.join(' ')` remotely. It accumulates
stdout and stderr separately and answers with one `output` event. Any stderr
text wins over stdout.

The project has five modules:

- `Text.dfy`: JavaScript's `trim`, `split(' ')` and `join(' ')` over `string`,
  with their round-trip lemmas.
- `Protocol.dfy`: the `command` and `output` messages.
- `Terminal.dfy`: the client.
  - `ParseCommand`, the alias table, and `Classify`, the lexical classifier.
  - `BuildAnalysis`, the loop that builds one call's entries.
  - Class `TerminalComponent`, whose methods append to the component's lists:
    sent commands, `output`, `errorOutputs` and the lexical log.
- `Relay.dfy`: the server.
  - A pure transition function `Step` over `RelayState`, and its iterate
    `Replay` over a sequence of events.
  - Class `Server`, with one method per handler and the same state as
    fields: `sshConfig`, `isConnected`, and logs of the SSH requests (`End`,
    `Connect`, `Exec`), the emitted `output` events and the HTTP statuses.
  - `RunStream`, the loop that accumulates a stream's chunks.
- `Pipeline.dfy`: lemmas across both halves, and the example sessions replayed
  through the relay.

The SSH client and the sockets are not modelled as code. What the relay asks
of the SSH client is recorded as `SshCall` values. What the client and the
network deliver is an explicit input: the `ready`/`error`/`end`/`close`
events, and an `ExecOutcome` that is a start error, the stream's chunks
in arrival order up to its close, or the chunks of a stream that never closes. The model is sequential. A command request and its
exec callback are handled as one step.

Where a reader might expect otherwise, the model follows the code:

- Posting a configuration does not change the connected flag. The flag stays
  set until the old connection's `end`/`close` event arrives. The
  configuration handler never passes through a "connecting" state.
- The old connection is ended only if the flag is set. A connection attempt
  still pending when a new configuration arrives is not ended.
- "Configured" means `sshConfig.host` is truthy. A posted body with an empty
  or missing host counts as not configured.
- Any client's disconnect ends the shared connection if it is up. There is
  no check that this was the last client.

## Model

| member | source | states |
|---|---|---|
| Text.TrimStartSpec | front_console/src/TerminalComponent.jsx:64 | the result is the suffix of the input after its leading whitespace; everything dropped is whitespace and the result does not start with whitespace |
| Text.TrimEndSpec | front_console/src/TerminalComponent.jsx:64 | the result is the prefix of the input before its trailing whitespace; everything dropped is whitespace and the result does not end with whitespace |
| Text.TrimSpec | front_console/src/TerminalComponent.jsx:64 | `trim()` leaves neither end as whitespace and never lengthens the line |
| Text.TrimIdempotent | front_console/src/TerminalComponent.jsx:71-72 | trimming an already trimmed line changes nothing |
| Text.TrimEmptyIff | front_console/src/TerminalComponent.jsx:71 | a line trims to `''` exactly when every character of it is whitespace |
| Text.JoinSplit | front_console/src/TerminalComponent.jsx:64 | joining the pieces of `split(' ')` with `' '` gives back the string |
| Text.SplitCount | front_console/src/TerminalComponent.jsx:64 | `split(' ')` yields one more piece than there are spaces |
| Text.SplitPiecesAvoidSeparator | front_console/src/TerminalComponent.jsx:64 | no piece of `split(' ')` contains a space |
| Text.SplitFreePrefix | front_console/src/TerminalComponent.jsx:64 | a space-free prefix is glued to the first piece of what follows it |
| Text.SplitJoin | front_console/src/TerminalComponent.jsx:64 | splitting the join of space-free parts gives back the parts |
| Text.JoinCons | back_console/server-terminal.js:75 | `join` puts exactly one separator between a first part and the join of the rest |
| Terminal.ParseCommandRoundTrip | front_console/src/TerminalComponent.jsx:63-67 | `command` and `args` re-joined with `' '` are exactly the trimmed line; there are as many args as spaces in it (so runs of spaces give empty args, in order); no token contains a space |
| Terminal.ParseTrimmed | front_console/src/TerminalComponent.jsx:72 | parsing the trimmed line, as `sendCommand` does, gives the same result as parsing the raw line |
| Terminal.ParseCommandUnique | front_console/src/TerminalComponent.jsx:63-67 | any command and space-free arguments that join to the trimmed line are the parse; the parse is the only such split |
| Terminal.TranslateSpec | front_console/src/TerminalComponent.jsx:48-61 | with the fallback to the name itself, a key of the 12-entry table maps to its value and any other name is sent unchanged |
| Terminal.AliasTable | front_console/src/TerminalComponent.jsx:48-61 | sample entries: `listar`→`ls`, `buscar`→`grep`, `cd`→`cd`; `ls` is not a key and passes unchanged |
| Terminal.ClassifyShape | front_console/src/TerminalComponent.jsx:80-99 | on error: exactly one entry `{message, Error, true}`, whatever the line; otherwise one entry more than there are args: the command, reserved exactly when it is a key of the table, then each arg in order as an identifier; every entry's `error` flag equals `isError`, and its `type` label is "Error", "Palabra reservada", "Palabra no reservada" or "Identificador" accordingly |
| Terminal.ClassifyCountsSpaces | front_console/src/TerminalComponent.jsx:81-98 | without an error, one entry more than there are spaces in the trimmed line |
| Terminal.BuildAnalysis | front_console/src/TerminalComponent.jsx:80-99 | the entries pushed one at a time, the args in a loop, are exactly `Classify`'s |
| Terminal.TerminalComponent.constructor | front_console/src/TerminalComponent.jsx:6-18 | the hooks start empty |
| Terminal.TerminalComponent.EditInput | front_console/src/TerminalComponent.jsx:206 | the input box holds the typed value |
| Terminal.TerminalComponent.AnalyzeLexically | front_console/src/TerminalComponent.jsx:80-102 | the log grows by exactly `Classify`'s entries; the previous log is an unchanged prefix |
| Terminal.TerminalComponent.SendCommand | front_console/src/TerminalComponent.jsx:70-78 | without a socket or with a blank line nothing changes; otherwise exactly one `command` message (translated command, parsed args) is sent, the line's classification is logged and the input is cleared |
| Terminal.TerminalComponent.OnOutput | front_console/src/TerminalComponent.jsx:33-41 | an error message is appended to `errorOutputs` only, any other to `output` only; the captured line is then classified with the message |
| Relay.FullCommandJoins | back_console/server-terminal.js:75 | the executed line is the command and args joined by single spaces, with a trailing space when there are no args |
| Relay.StdoutTextAppend | back_console/server-terminal.js:87-89 | stdout accumulates in arrival order: the text of two stretches of a stream is the first's followed by the second's |
| Relay.StderrTextAppend | back_console/server-terminal.js:91-93 | stderr accumulates in arrival order, separately from stdout: the text of two stretches of a stream is the first's followed by the second's |
| Relay.StderrTextEmptyIff | back_console/server-terminal.js:91-96 | the accumulated stderr is empty exactly when every stderr chunk is empty |
| Relay.CloseEventPolicy | back_console/server-terminal.js:95-100 | on close, the result is an error exactly when some stderr chunk was non-empty, and then carries all the stderr whatever stdout holds; otherwise it is a success carrying all the stdout |
| Relay.RunStream | back_console/server-terminal.js:84-100 | the `+=` loop over chunks, then the final branch, produce the close event of the concatenated stdout and stderr |
| Relay.CommandGate | back_console/server-terminal.js:63-100 | at most one answer per request, to the requester, and none only when the request is executed and its stream never closes; "not configured" whenever no host is set, whatever the flag; "not connected" when a host is set but the flag is clear; exec is called once, with the full line, only when both checks pass; a start failure is reported as the fixed prefix followed by the error text |
| Relay.ConnectedIffLastLifecycleReady | back_console/server-terminal.js:40-58 | after any trace, the flag is set exactly when the last of `ready`/`error`/`end`/`close` was `ready`, or there was none and it was set before |
| Relay.ClosedCommandsAllAnswered | back_console/server-terminal.js:63-100 | no more requests are answered than were made, and when every stream in a trace closes, every request is answered, in order |
| Relay.OneAnswerPerCommand | back_console/server-terminal.js:63-111 | over any trace, the logs only grow and the recipients of `output` events are exactly the requesting clients, one per request, in order, leaving out each request that was executed and whose stream never closed |
| Relay.NoExecWithoutReady | back_console/server-terminal.js:69-72 | with the flag clear and no `ready` event, nothing is executed and every answer is a "not configured" or "not connected" error |
| Relay.NoExecWithoutHost | back_console/server-terminal.js:22 | from the initial `{}` (or any host-less configuration) and without a configuration that has a host, nothing is executed and every answer is the "not configured" error |
| Relay.Server.constructor | back_console/server-terminal.js:22-24 | start-up state: `{}` configuration, not connected, nothing asked or sent |
| Relay.Server.SetSshConfig | back_console/server-terminal.js:27-38 | the configuration is replaced wholesale, 200 is answered, `end` is requested only if connected, then `connect` with the new configuration always; the flag is untouched |
| Relay.Server.OnReady | back_console/server-terminal.js:40-43 | `ready` sets the flag |
| Relay.Server.OnError | back_console/server-terminal.js:45-48 | `error` clears the flag |
| Relay.Server.OnEnd | back_console/server-terminal.js:50-53 | `end` clears the flag |
| Relay.Server.OnClose | back_console/server-terminal.js:55-58 | `close` clears the flag |
| Relay.Server.OnCommand | back_console/server-terminal.js:63-104 | the three-way gate: exactly one error event and no exec without a host, then without a connection; otherwise one exec of the full line and one event with its result, or none when the stream never closes |
| Relay.Server.OnDisconnect | back_console/server-terminal.js:106-111 | a client's disconnect requests `end` only if connected |
| Relay.Server.Dispatch | back_console/server-terminal.js:27-111 | each handler changes the state exactly as `Step` says |
| Relay.Server.Run | back_console/server-terminal.js:27-111 | handling a sequence of events leaves the state `Replay` gives |
| Pipeline.ExecutedLineOfTypedLine | back_console/server-terminal.js:74-75 | for a typed line whose command is not an alias, the server executes the trimmed line itself, plus a trailing space when it has no args |
| Pipeline.ExecutedLineOfAlias | back_console/server-terminal.js:74-75 | for an alias, the server executes the translation followed by the same args |
| Pipeline.ListingScenario | back_console/server-terminal.js:27-100 | configure, `ready`, `ls` with stdout `a.txt\nb.txt\n`: one success event with that text; `ls ` is what ran |
| Pipeline.StderrScenario | back_console/server-terminal.js:87-100 | with the connection up, `grep foo missing.txt` whose process writes stdout and then a non-empty stderr text is answered with exactly that stderr text as an error; `grep foo missing.txt` is what ran |
| Pipeline.FollowScenario | back_console/server-terminal.js:84-100 | with the connection up, `final -f app.log` runs `tail -f app.log`, whose stream never closes, and the client gets no answer whatever it prints |
| Pipeline.UnconfiguredScenario | back_console/server-terminal.js:64-67 | with no configuration ever posted, a command is refused as not configured even after `ready`, and nothing is executed |

## Left out

- Express, the HTTP route wiring, CORS, `server.listen` and `console.log`: plumbing with no decisions in it.
- The ssh2 client and the socket.io transport (handshake, authentication, the network, remote execution). These are foreign libraries. Their events and the exec outcome are inputs to the model.
- Asynchrony. A command request and its exec callback are one step. A stream that never closes is an explicit outcome that sends nothing; when it would have closed is not modelled. Requests in flight while the relay is reconfigured, and results that arrive later from an old connection, are not modelled.
- Relay.Server.SetSshConfig: the HTTP reply and the SSH requests are kept in separate logs, so the model does not record that 200 is sent before `end`/`connect`.
- UTF-8 decoding of byte chunks. Chunks are strings.
- Non-string JSON values in the posted configuration, and a `command` message without an `args` array. The model's message types do not admit them.
- The React rendering, the drawer and form state, `useEffect`, `handleModalSubmit` (axios) and the `disabled` flags: user interface.
- JavaScript prototype lookups in `comandoTraducido[command]` (such as `toString`). The table is the finite map of its 12 entries.
- The stale `inputValue` captured by the `output` listener. `OnOutput` takes the captured line as an explicit argument.
