/**
 The two halves together: what the server executes for a line typed in the
 browser, and the documented example sessions replayed through the relay.
 */
module Pipeline {
  import opened Text
  import opened Protocol
  import opened Terminal
  import opened Relay

  /**
   For a typed line whose command is not an alias, the server executes the
   trimmed line itself, with a trailing space when it has no arguments.
   */
  lemma ExecutedLineOfTypedLine(line: string)
    requires ParseCommand(line).command !in Aliases
    ensures FullCommand(Translate(ParseCommand(line).command), ParseCommand(line).args)
            == Trim(line) + (if ParseCommand(line).args == [] then " " else "")
  {
    var p := ParseCommand(line);
    TranslateSpec(p.command);
    ParseCommandRoundTrip(line);
    FullCommandJoins(p.command, p.args);
  }

  /** For a typed line whose command is an alias, the server executes the translation followed by the same arguments. */
  lemma ExecutedLineOfAlias(line: string)
    requires ParseCommand(line).command in Aliases
    ensures FullCommand(Translate(ParseCommand(line).command), ParseCommand(line).args)
            == Join([Aliases[ParseCommand(line).command]] + ParseCommand(line).args, ' ')
               + (if ParseCommand(line).args == [] then " " else "")
  {
    var p := ParseCommand(line);
    TranslateSpec(p.command);
    FullCommandJoins(Translate(p.command), p.args);
  }

  /** A configuration with a host, as a client submits it. */
  const Ops := SshConfig(Some("10.0.0.5"), Some("22"), Some("ops"), Some("x"))

  /** Configure, connect, run `ls`: the one stdout chunk comes back as a success, and `ls ` is what ran. */
  lemma ListingScenario()
    ensures var t := Replay(Initial, [ConfigPosted(Ops), SshReady,
                                      CommandReceived(0, CommandData("ls", []), Streamed([Stdout("a.txt\nb.txt\n")]))]);
      t.emitted == [Emission(0, OutputEvent("a.txt\nb.txt\n", false))] &&
      t.calls == [Connect(Ops), Exec("ls ")] && t.statuses == [StatusOk] && t.isConnected
  {
    var chunks := [Stdout("a.txt\nb.txt\n")];
    var events := [ConfigPosted(Ops), SshReady, CommandReceived(0, CommandData("ls", []), Streamed(chunks))];
    assert events[..2] == [ConfigPosted(Ops), SshReady] && events[..2][..1] == [ConfigPosted(Ops)];
    var s1 := Step(Initial, ConfigPosted(Ops));
    assert Replay(Initial, [ConfigPosted(Ops)]) == s1;
    var s2 := Step(s1, SshReady);
    assert Replay(Initial, events[..2]) == s2;
    assert StdoutText(chunks) == "a.txt\nb.txt\n" && StderrText(chunks) == "";
    assert FullCommand("ls", []) == "ls ";
  }

  /**
   With the connection up, `grep foo missing.txt` whose remote process writes
   some stdout and then a non-empty stderr text (such as "grep: missing.txt:
   No such file or directory") is answered with exactly that stderr text as an
   error.
   */
  lemma StderrScenario(s: RelayState, out: string, err: string)
    requires HostConfigured(s.config) && s.isConnected
    requires err != ""
    ensures var t := Step(s, CommandReceived(1, CommandData("grep", ["foo", "missing.txt"]),
                                             Streamed([Stdout(out), Stderr(err)])));
      t.emitted == s.emitted + [Emission(1, OutputEvent(err, true))] &&
      t.calls == s.calls + [Exec("grep foo missing.txt")]
  {
    StderrAfterStdout(out, err);
    GrepLine();
  }

  /** A stream of some stdout followed by some stderr has that stderr as its whole stderr text. */
  lemma StderrAfterStdout(out: string, err: string)
    ensures StderrText([Stdout(out), Stderr(err)]) == err
  {
    var chunks := [Stdout(out), Stderr(err)];
    assert chunks[1..] == [Stderr(err)] && chunks[1..][1..] == [];
    assert StderrText(chunks[1..]) == err + "";
  }

  /** The line the server builds for `grep foo missing.txt`. */
  lemma GrepLine()
    ensures FullCommand("grep", ["foo", "missing.txt"]) == "grep foo missing.txt"
  {
    assert Join(["missing.txt"], ' ') == "missing.txt";
    assert Join(["foo", "missing.txt"], ' ') == "foo missing.txt";
  }

  /**
   With the connection up, `tail -f app.log` (what `final -f app.log` becomes)
   is executed, but its stream never closes, so whatever it prints, the client
   gets no answer.
   */
  lemma FollowScenario(s: RelayState, chunks: seq<Chunk>)
    requires HostConfigured(s.config) && s.isConnected
    ensures var t := Step(s, CommandReceived(2, CommandData(Translate("final"), ["-f", "app.log"]), Unclosed(chunks)));
      t.emitted == s.emitted && t.calls == s.calls + [Exec("tail -f app.log")]
  {
    var data := CommandData(Translate("final"), ["-f", "app.log"]);
    TranslateSpec("final");
    assert FullCommand(data.command, data.args) == "tail -f app.log" by {
      assert Join(["app.log"], ' ') == "app.log";
      assert Join(["-f", "app.log"], ' ') == "-f app.log";
    }
  }

  /** With no configuration ever submitted, any command is refused as not configured, even if the client reports ready. */
  lemma UnconfiguredScenario(data: CommandData, outcome: ExecOutcome)
    ensures var t := Replay(Initial, [SshReady, CommandReceived(0, data, outcome)]);
      t.emitted == [Emission(0, OutputEvent(NotConfiguredMessage, true))] && t.calls == []
  {
    var events := [SshReady, CommandReceived(0, data, outcome)];
    assert events[..1] == [SshReady];
    assert Replay(Initial, events[..1]) == Step(Initial, SshReady);
  }
}
