/**
 The server side of the console: the relay between the browser's socket and
 the single shared SSH client. Its state is the submitted SSH configuration
 and a connected flag; the SSH client and the sockets are seen only through
 what the relay asks of them (connect, end, exec) and what it emits ('output'
 events to the requesting client, HTTP statuses to the configuring one).
 */
module Relay {
  import opened Text
  import opened Protocol

  datatype Option<T> = None | Some(value: T)

  /** The JSON body of a `/set-ssh-config` request; a field the body lacks is `None`. */
  datatype SshConfig = SshConfig(host: Option<string>, port: Option<string>,
                                 username: Option<string>, password: Option<string>)

  /** The initial configuration, the empty object `{}`. */
  const NoConfig := SshConfig(None, None, None, None)

  /** `sshConfig.host` is truthy: present and not the empty string. */
  predicate HostConfigured(config: SshConfig) {
    config.host.Some? && config.host.value != ""
  }

  const NotConfiguredMessage: string := "No se ha configurado la conexión SSH"
  const NotConnectedMessage: string := "Conexión SSH no establecida"
  const ExecErrorPrefix: string := "Error al ejecutar el comando: "
  const StatusOk: int := 200

  /** A piece of remote output, from standard output or from standard error. */
  datatype Chunk = Stdout(text: string) | Stderr(text: string)

  /**
   What `exec` delivers: a start error; a stream's chunks in arrival order up
   to its close; or the chunks of a stream that never closes (a `tail -f`, or a
   program left waiting on its open standard input), whose `close` handler
   never runs.
   */
  datatype ExecOutcome = StartFailed(error: string) | Streamed(chunks: seq<Chunk>) | Unclosed(chunks: seq<Chunk>)

  /** A request the relay makes of the SSH client. */
  datatype SshCall = End | Connect(config: SshConfig) | Exec(line: string)

  /** An 'output' event sent to one client socket. */
  datatype Emission = Emission(client: nat, event: OutputEvent)

  /** Everything that drives the relay: HTTP requests, SSH client events, socket events. */
  datatype Event =
    | ConfigPosted(config: SshConfig)
    | SshReady
    | SshError(message: string)
    | SshEnd
    | SshClose
    | CommandReceived(client: nat, data: CommandData, outcome: ExecOutcome)
    | ClientDisconnected(client: nat)

  // ---------------------------------------------------------------------------
  // The command line
  // ---------------------------------------------------------------------------

  /** `${command} ${args.join(' ')}`: no quoting, no escaping. */
  function FullCommand(command: string, args: seq<string>): string {
    command + " " + Join(args, ' ')
  }

  /**
   The executed line is the command and its arguments joined by single spaces,
   with one trailing space when there are no arguments.
   */
  lemma FullCommandJoins(command: string, args: seq<string>)
    ensures FullCommand(command, args) == Join([command] + args, ' ') + (if args == [] then " " else "")
  {
    if args == [] {
      assert [command] + args == [command];
    } else {
      JoinCons(command, args, ' ');
    }
  }

  // ---------------------------------------------------------------------------
  // Accumulating a stream
  // ---------------------------------------------------------------------------

  /** The standard-output text of a stream: its stdout chunks concatenated in arrival order. */
  function StdoutText(chunks: seq<Chunk>): string {
    if chunks == [] then ""
    else (if chunks[0].Stdout? then chunks[0].text else "") + StdoutText(chunks[1..])
  }

  /** The standard-error text of a stream: its stderr chunks concatenated in arrival order. */
  function StderrText(chunks: seq<Chunk>): string {
    if chunks == [] then ""
    else (if chunks[0].Stderr? then chunks[0].text else "") + StderrText(chunks[1..])
  }

  /** Standard output accumulates in arrival order: the text of two stretches of a stream is the first's followed by the second's. */
  lemma {:induction false} StdoutTextAppend(a: seq<Chunk>, b: seq<Chunk>)
    ensures StdoutText(a + b) == StdoutText(a) + StdoutText(b)
    decreases |a|
  {
    if a == [] {
      assert a + b == b;
    } else {
      var head := if a[0].Stdout? then a[0].text else "";
      assert (a + b)[0] == a[0] && (a + b)[1..] == a[1..] + b;
      StdoutTextAppend(a[1..], b);
      calc {
        StdoutText(a + b);
        head + StdoutText(a[1..] + b);
        head + (StdoutText(a[1..]) + StdoutText(b));
        (head + StdoutText(a[1..])) + StdoutText(b);
      }
    }
  }

  /** Standard error accumulates in arrival order: the text of two stretches of a stream is the first's followed by the second's. */
  lemma {:induction false} StderrTextAppend(a: seq<Chunk>, b: seq<Chunk>)
    ensures StderrText(a + b) == StderrText(a) + StderrText(b)
    decreases |a|
  {
    if a == [] {
      assert a + b == b;
    } else {
      var head := if a[0].Stderr? then a[0].text else "";
      assert (a + b)[0] == a[0] && (a + b)[1..] == a[1..] + b;
      StderrTextAppend(a[1..], b);
      calc {
        StderrText(a + b);
        head + StderrText(a[1..] + b);
        head + (StderrText(a[1..]) + StderrText(b));
        (head + StderrText(a[1..])) + StderrText(b);
      }
    }
  }

  /** The standard-error text is empty exactly when every stderr chunk is empty. */
  lemma {:induction false} StderrTextEmptyIff(chunks: seq<Chunk>)
    ensures StderrText(chunks) == "" <==>
              forall i :: 0 <= i < |chunks| && chunks[i].Stderr? ==> chunks[i].text == ""
    decreases |chunks|
  {
    if chunks != [] {
      StderrTextEmptyIff(chunks[1..]);
      assert forall i :: 1 <= i < |chunks| ==> chunks[i] == chunks[1..][i - 1];
    }
  }

  /** The event sent when the stream closes: any stderr text wins over stdout. */
  function CloseEvent(output: string, errorOutput: string): OutputEvent {
    if errorOutput != "" then OutputEvent(errorOutput, true) else OutputEvent(output, false)
  }

  /**
   The result of a command that ran: an error carrying the whole stderr text
   exactly when some stderr chunk was non-empty, whatever stdout holds;
   otherwise a success carrying the whole stdout text.
   */
  lemma CloseEventPolicy(chunks: seq<Chunk>)
    ensures CloseEvent(StdoutText(chunks), StderrText(chunks)).isError <==>
              exists i :: 0 <= i < |chunks| && chunks[i].Stderr? && chunks[i].text != ""
    ensures CloseEvent(StdoutText(chunks), StderrText(chunks)).isError ==>
              CloseEvent(StdoutText(chunks), StderrText(chunks)).message == StderrText(chunks)
    ensures !CloseEvent(StdoutText(chunks), StderrText(chunks)).isError ==>
              CloseEvent(StdoutText(chunks), StderrText(chunks)).message == StdoutText(chunks)
  {
    StderrTextEmptyIff(chunks);
  }

  /**
   The `stream` handlers of one exec: `output` and `errorOutput` grow chunk by
   chunk with `+=`; on close, one event is built from them.
   */
  method RunStream(chunks: seq<Chunk>) returns (event: OutputEvent)
    ensures event == CloseEvent(StdoutText(chunks), StderrText(chunks))
  {
    var output, errorOutput := "", "";
    var i := 0;
    while i < |chunks|
      invariant 0 <= i <= |chunks|
      invariant output == StdoutText(chunks[..i])
      invariant errorOutput == StderrText(chunks[..i])
    {
      assert chunks[..i + 1] == chunks[..i] + [chunks[i]];
      StdoutTextAppend(chunks[..i], [chunks[i]]);
      StderrTextAppend(chunks[..i], [chunks[i]]);
      match chunks[i] {
        case Stdout(text) =>
          output := output + text;
        case Stderr(text) =>
          errorOutput := errorOutput + text;
      }
      i := i + 1;
    }
    assert chunks[..i] == chunks;
    if errorOutput != "" {
      event := OutputEvent(errorOutput, true);
    } else {
      event := OutputEvent(output, false);
    }
  }

  /**
   The event one exec produces, if any: a start error with its text, or the
   stream's close event; a stream that never closes produces none, since
   nothing times it out.
   */
  function ExecResult(outcome: ExecOutcome): Option<OutputEvent> {
    match outcome
    case StartFailed(error) => Some(OutputEvent(ExecErrorPrefix + error, true))
    case Streamed(chunks) => Some(CloseEvent(StdoutText(chunks), StderrText(chunks)))
    case Unclosed(_) => None
  }

  /** The 'output' events an exec result sends to `client`: none or one. */
  function Reply(client: nat, result: Option<OutputEvent>): seq<Emission> {
    if result.Some? then [Emission(client, result.value)] else []
  }

  // ---------------------------------------------------------------------------
  // The relay's state and its transitions
  // ---------------------------------------------------------------------------

  /** The module-level variables and the logs of what the relay asked for and sent. */
  datatype RelayState = RelayState(config: SshConfig, isConnected: bool, calls: seq<SshCall>,
                                   emitted: seq<Emission>, statuses: seq<int>)

  /** At start-up: `sshConfig = {}`, `isConnected = false`, nothing asked or sent. */
  const Initial := RelayState(NoConfig, false, [], [], [])

  /** How the relay answers a command request in state `s`. */
  function CommandStep(s: RelayState, client: nat, data: CommandData, outcome: ExecOutcome): RelayState {
    if !HostConfigured(s.config) then
      s.(emitted := s.emitted + [Emission(client, OutputEvent(NotConfiguredMessage, true))])
    else if !s.isConnected then
      s.(emitted := s.emitted + [Emission(client, OutputEvent(NotConnectedMessage, true))])
    else
      s.(calls := s.calls + [Exec(FullCommand(data.command, data.args))],
         emitted := s.emitted + Reply(client, ExecResult(outcome)))
  }

  /** A request that is executed and whose stream never closes: the one kind of request left unanswered. */
  predicate Hangs(s: RelayState, e: Event) {
    e.CommandReceived? && HostConfigured(s.config) && s.isConnected && e.outcome.Unclosed?
  }

  /**
   A command request gets at most one answer, sent to the requesting client,
   and gets none only when it is executed and its stream never closes; the
   host check comes before the connection check, and exec is called, once,
   only when both pass. A start failure is reported with its text after a
   fixed prefix.
   */
  lemma CommandGate(s: RelayState, client: nat, data: CommandData, outcome: ExecOutcome)
    ensures var t := CommandStep(s, client, data, outcome);
      && t.emitted[..|s.emitted|] == s.emitted
      && |t.emitted| == |s.emitted| + (if Hangs(s, CommandReceived(client, data, outcome)) then 0 else 1)
      && (|t.emitted| > |s.emitted| ==> t.emitted[|s.emitted|].client == client)
      && t.calls == s.calls + (if HostConfigured(s.config) && s.isConnected
                               then [Exec(FullCommand(data.command, data.args))] else [])
      && (!HostConfigured(s.config) ==> t.emitted[|s.emitted|].event == OutputEvent(NotConfiguredMessage, true))
      && (HostConfigured(s.config) && !s.isConnected ==>
            t.emitted[|s.emitted|].event == OutputEvent(NotConnectedMessage, true))
      && (HostConfigured(s.config) && s.isConnected && outcome.StartFailed? ==>
            t.emitted[|s.emitted|].event == OutputEvent(ExecErrorPrefix + outcome.error, true))
      && (HostConfigured(s.config) && s.isConnected && outcome.Streamed? ==>
            t.emitted[|s.emitted|].event == CloseEvent(StdoutText(outcome.chunks), StderrText(outcome.chunks)))
      && t.config == s.config && t.isConnected == s.isConnected && t.statuses == s.statuses
  {
  }

  /** One event's effect on the relay. */
  function Step(s: RelayState, e: Event): RelayState {
    match e
    case ConfigPosted(config) =>
      s.(config := config, statuses := s.statuses + [StatusOk],
         calls := s.calls + (if s.isConnected then [End] else []) + [Connect(config)])
    case SshReady => s.(isConnected := true)
    case SshError(_) => s.(isConnected := false)
    case SshEnd => s.(isConnected := false)
    case SshClose => s.(isConnected := false)
    case CommandReceived(client, data, outcome) => CommandStep(s, client, data, outcome)
    case ClientDisconnected(_) => if s.isConnected then s.(calls := s.calls + [End]) else s
  }

  /** The state after a sequence of events, applied in order. */
  function Replay(s: RelayState, events: seq<Event>): RelayState
    decreases |events|
  {
    if events == [] then s else Step(Replay(s, events[..|events| - 1]), events[|events| - 1])
  }

  /** The events that touch the connected flag. */
  predicate IsLifecycle(e: Event) {
    e.SshReady? || e.SshError? || e.SshEnd? || e.SshClose?
  }

  /**
   The connected flag follows the SSH client's events and nothing else: after a
   trace it is set exactly when the last lifecycle event was `ready`, or there
   was none and it was set before.
   */
  lemma {:induction false} ConnectedIffLastLifecycleReady(s: RelayState, events: seq<Event>)
    ensures Replay(s, events).isConnected <==>
              || (exists i :: 0 <= i < |events| && events[i].SshReady? &&
                    forall j :: i < j < |events| ==> !IsLifecycle(events[j]))
              || (s.isConnected && forall j :: 0 <= j < |events| ==> !IsLifecycle(events[j]))
    decreases |events|
  {
    if events != [] {
      var n := |events| - 1;
      var prefix := events[..n];
      ConnectedIffLastLifecycleReady(s, prefix);
      assert forall j :: 0 <= j < n ==> prefix[j] == events[j];
      if IsLifecycle(events[n]) {
        if events[n].SshReady? {
          assert 0 <= n < |events| && events[n].SshReady?;
        }
      } else {
        if exists i :: 0 <= i < n && prefix[i].SshReady? && forall j :: i < j < n ==> !IsLifecycle(prefix[j]) {
          var i :| 0 <= i < n && prefix[i].SshReady? && forall j :: i < j < n ==> !IsLifecycle(prefix[j]);
          assert events[i].SshReady? && forall j :: i < j < |events| ==> !IsLifecycle(events[j]);
        }
      }
    }
  }

  /** Each event only appends to the logs. */
  predicate Extends(s: RelayState, t: RelayState) {
    s.calls <= t.calls && s.emitted <= t.emitted && s.statuses <= t.statuses
  }

  /** The clients of the command requests in a trace, in order. */
  function CommandClients(events: seq<Event>): seq<nat>
    decreases |events|
  {
    if events == [] then []
    else CommandClients(events[..|events| - 1]) +
         (if events[|events| - 1].CommandReceived? then [events[|events| - 1].client] else [])
  }

  /**
   The clients of the command requests in a trace that get an answer, in
   order: every request except one that is executed and whose stream never
   closes.
   */
  function AnsweredClients(s: RelayState, events: seq<Event>): seq<nat>
    decreases |events|
  {
    if events == [] then []
    else
      var n := |events| - 1;
      AnsweredClients(s, events[..n]) +
      (if events[n].CommandReceived? && !Hangs(Replay(s, events[..n]), events[n]) then [events[n].client] else [])
  }

  /** The recipients of a list of emissions. */
  function Recipients(emitted: seq<Emission>): seq<nat> {
    seq(|emitted|, i requires 0 <= i < |emitted| => emitted[i].client)
  }

  /**
   Every command request is answered by one 'output' event, sent to the client
   that asked, in the order of the requests, except a request that is executed
   and whose stream never closes, which gets none; nothing else emits, and the
   logs only grow.
   */
  lemma {:induction false} OneAnswerPerCommand(s: RelayState, events: seq<Event>)
    ensures Extends(s, Replay(s, events))
    ensures Recipients(Replay(s, events).emitted) == Recipients(s.emitted) + AnsweredClients(s, events)
    decreases |events|
  {
    if events != [] {
      var n := |events| - 1;
      var t := Replay(s, events[..n]);
      OneAnswerPerCommand(s, events[..n]);
      var u := Step(t, events[n]);
      if events[n].CommandReceived? && !Hangs(t, events[n]) {
        assert |u.emitted| == |t.emitted| + 1 && u.emitted[..|t.emitted|] == t.emitted;
        assert Recipients(u.emitted) == Recipients(t.emitted) + [events[n].client];
      } else {
        assert u.emitted == t.emitted;
      }
    }
  }

  /**
   When every stream in a trace closes, every command request is answered: the
   answered clients are all the requesting clients, in order. A request left
   unanswered is always one whose stream never closed.
   */
  lemma {:induction false} ClosedCommandsAllAnswered(s: RelayState, events: seq<Event>)
    ensures |AnsweredClients(s, events)| <= |CommandClients(events)|
    ensures (forall i :: 0 <= i < |events| && events[i].CommandReceived? ==> !events[i].outcome.Unclosed?) ==>
              AnsweredClients(s, events) == CommandClients(events)
    decreases |events|
  {
    if events != [] {
      var n := |events| - 1;
      assert forall i :: 0 <= i < n ==> events[..n][i] == events[i];
      ClosedCommandsAllAnswered(s, events[..n]);
    }
  }

  /**
   While the connection has not become ready, no command is executed: every
   request in the trace is refused with an error event instead.
   */
  lemma {:induction false} NoExecWithoutReady(s: RelayState, events: seq<Event>)
    requires !s.isConnected
    requires forall i :: 0 <= i < |events| ==> !events[i].SshReady?
    ensures !Replay(s, events).isConnected
    ensures s.calls <= Replay(s, events).calls && s.emitted <= Replay(s, events).emitted
    ensures forall i :: |s.calls| <= i < |Replay(s, events).calls| ==> !Replay(s, events).calls[i].Exec?
    ensures forall i :: |s.emitted| <= i < |Replay(s, events).emitted| ==>
              Replay(s, events).emitted[i].event.isError &&
              Replay(s, events).emitted[i].event.message in {NotConfiguredMessage, NotConnectedMessage}
    decreases |events|
  {
    if events != [] {
      var n := |events| - 1;
      assert forall i :: 0 <= i < n ==> events[..n][i] == events[i];
      NoExecWithoutReady(s, events[..n]);
    }
  }

  /**
   Without a configured host, every command request is refused with the
   "not configured" error and nothing is executed, as long as no configuration
   with a host is posted.
   */
  lemma {:induction false} NoExecWithoutHost(s: RelayState, events: seq<Event>)
    requires !HostConfigured(s.config)
    requires forall i :: 0 <= i < |events| && events[i].ConfigPosted? ==> !HostConfigured(events[i].config)
    ensures !HostConfigured(Replay(s, events).config)
    ensures s.calls <= Replay(s, events).calls && s.emitted <= Replay(s, events).emitted
    ensures forall i :: |s.calls| <= i < |Replay(s, events).calls| ==> !Replay(s, events).calls[i].Exec?
    ensures forall i :: |s.emitted| <= i < |Replay(s, events).emitted| ==>
              Replay(s, events).emitted[i].event == OutputEvent(NotConfiguredMessage, true)
    decreases |events|
  {
    if events != [] {
      var n := |events| - 1;
      assert forall i :: 0 <= i < n ==> events[..n][i] == events[i];
      NoExecWithoutHost(s, events[..n]);
    }
  }

  // ---------------------------------------------------------------------------
  // The server
  // ---------------------------------------------------------------------------

  /** The relay process: the module-level `sshConfig` and `isConnected`, and the logs of its requests and replies. */
  class Server {
    var sshConfig: SshConfig
    var isConnected: bool
    /** What the relay asked of the SSH client, in order. */
    var calls: seq<SshCall>
    /** The 'output' events sent, in order. */
    var emitted: seq<Emission>
    /** The HTTP statuses answered to `/set-ssh-config`, in order. */
    var statuses: seq<int>

    /** The abstract state. */
    function State(): RelayState
      reads this
    {
      RelayState(sshConfig, isConnected, calls, emitted, statuses)
    }

    /** Start-up: `sshConfig = {}`, `isConnected = false`. */
    constructor ()
      ensures State() == Initial
    {
      sshConfig := NoConfig;
      isConnected := false;
      calls, emitted, statuses := [], [], [];
    }

    /**
     The `/set-ssh-config` route: replace the configuration wholesale, answer
     200, end the current connection only if it is up, then always connect.
     The flag itself is left to the SSH client's events.
     */
    method SetSshConfig(body: SshConfig)
      modifies this`sshConfig, this`statuses, this`calls
      ensures sshConfig == body
      ensures statuses == old(statuses) + [StatusOk]
      ensures calls == old(calls) + (if isConnected then [End, Connect(body)] else [Connect(body)])
    {
      sshConfig := body;
      statuses := statuses + [StatusOk];
      if isConnected {
        calls := calls + [End];
      }
      calls := calls + [Connect(sshConfig)];
    }

    /** `ssh.on('ready')`. */
    method OnReady()
      modifies this`isConnected
      ensures isConnected
    {
      isConnected := true;
    }

    /** `ssh.on('error')`; the error text is only logged. */
    method OnError(message: string)
      modifies this`isConnected
      ensures !isConnected
    {
      isConnected := false;
    }

    /** `ssh.on('end')`. */
    method OnEnd()
      modifies this`isConnected
      ensures !isConnected
    {
      isConnected := false;
    }

    /** `ssh.on('close')`. */
    method OnClose()
      modifies this`isConnected
      ensures !isConnected
    {
      isConnected := false;
    }

    /**
     The socket's 'command' handler, together with the exec callback it
     registers: refuse when no host is configured, then when not connected,
     each with exactly one error event and no exec; otherwise exec the full
     command line and send exactly one event with its result.
     */
    method OnCommand(client: nat, data: CommandData, outcome: ExecOutcome)
      modifies this`calls, this`emitted
      ensures !HostConfigured(sshConfig) ==>
                calls == old(calls) &&
                emitted == old(emitted) + [Emission(client, OutputEvent(NotConfiguredMessage, true))]
      ensures HostConfigured(sshConfig) && !isConnected ==>
                calls == old(calls) &&
                emitted == old(emitted) + [Emission(client, OutputEvent(NotConnectedMessage, true))]
      ensures HostConfigured(sshConfig) && isConnected ==>
                calls == old(calls) + [Exec(FullCommand(data.command, data.args))] &&
                emitted == old(emitted) + Reply(client, ExecResult(outcome))
    {
      if !HostConfigured(sshConfig) {
        emitted := emitted + [Emission(client, OutputEvent(NotConfiguredMessage, true))];
        return;
      }
      if !isConnected {
        emitted := emitted + [Emission(client, OutputEvent(NotConnectedMessage, true))];
        return;
      }
      var fullCommand := data.command + " " + Join(data.args, ' ');
      calls := calls + [Exec(fullCommand)];
      match outcome
      case StartFailed(error) =>
        emitted := emitted + [Emission(client, OutputEvent(ExecErrorPrefix + error, true))];
      case Streamed(chunks) =>
        var event := RunStream(chunks);
        emitted := emitted + [Emission(client, event)];
      case Unclosed(_) =>
        // The stream's handlers accumulate, but 'close' never fires: nothing is sent.
    }

    /** The socket's 'disconnect' handler: end the connection only if it is up. */
    method OnDisconnect(client: nat)
      modifies this`calls
      ensures calls == old(calls) + (if isConnected then [End] else [])
    {
      if isConnected {
        calls := calls + [End];
      }
    }

    /** Hands one event to its handler. */
    method Dispatch(e: Event)
      modifies this
      ensures State() == Step(old(State()), e)
    {
      match e
      case ConfigPosted(config) => SetSshConfig(config);
      case SshReady => OnReady();
      case SshError(message) => OnError(message);
      case SshEnd => OnEnd();
      case SshClose => OnClose();
      case CommandReceived(client, data, outcome) => OnCommand(client, data, outcome);
      case ClientDisconnected(client) => OnDisconnect(client);
    }

    /** Handles a sequence of events one after the other. */
    method Run(events: seq<Event>)
      modifies this
      ensures State() == Replay(old(State()), events)
    {
      var i := 0;
      while i < |events|
        invariant 0 <= i <= |events|
        invariant State() == Replay(old(State()), events[..i])
      {
        assert events[..i + 1][..i] == events[..i];
        Dispatch(events[i]);
        i := i + 1;
      }
      assert events[..i] == events;
    }
  }
}
