/**
 The browser side of the console: splitting a typed line into a command and
 its arguments, translating Spanish alias names into shell commands, the
 lexical classification shown beside the terminal, and the append-only lists
 the component keeps (standard output, errors, the lexical log, and the
 'command' messages sent to the server).
 */
module Terminal {
  import opened Text
  import opened Protocol

  // ---------------------------------------------------------------------------
  // Parsing a line
  // ---------------------------------------------------------------------------

  /** `parseCommand`: trim the line, split it on single spaces; the first token is the command, the rest its arguments. */
  function ParseCommand(input: string): CommandData
  {
    var tokens := Split(Trim(input), ' ');
    CommandData(tokens[0], tokens[1..])
  }

  /**
   Re-joining the command and the arguments with single spaces gives back the
   trimmed line exactly; there are as many arguments as spaces in the trimmed
   line (a run of spaces yields empty arguments), and no token holds a space.
   */
  lemma ParseCommandRoundTrip(input: string)
    ensures Join([ParseCommand(input).command] + ParseCommand(input).args, ' ') == Trim(input)
    ensures |ParseCommand(input).args| == CountChar(Trim(input), ' ')
    ensures ' ' !in ParseCommand(input).command
    ensures forall i :: 0 <= i < |ParseCommand(input).args| ==> ' ' !in ParseCommand(input).args[i]
  {
    var tokens := Split(Trim(input), ' ');
    assert [tokens[0]] + tokens[1..] == tokens;
    JoinSplit(Trim(input), ' ');
    SplitCount(Trim(input), ' ');
    SplitPiecesAvoidSeparator(Trim(input), ' ');
    assert forall i :: 0 <= i < |tokens| - 1 ==> tokens[1..][i] == tokens[i + 1];
  }

  /** Parsing is a function of the trimmed line: parsing an already trimmed line changes nothing. */
  lemma ParseTrimmed(input: string)
    ensures ParseCommand(Trim(input)) == ParseCommand(input)
  {
    TrimIdempotent(input);
  }

  /**
   The parse is the only split of the trimmed line into space-free tokens:
   any command and arguments without spaces that join to the trimmed line are
   the ones `ParseCommand` returns.
   */
  lemma ParseCommandUnique(input: string, command: string, args: seq<string>)
    requires ' ' !in command
    requires forall i :: 0 <= i < |args| ==> ' ' !in args[i]
    requires Join([command] + args, ' ') == Trim(input)
    ensures ParseCommand(input) == CommandData(command, args)
  {
    var parts := [command] + args;
    assert forall i :: 0 <= i < |parts| ==> ' ' !in parts[i] by {
      forall i | 0 <= i < |parts| ensures ' ' !in parts[i] {
        if i > 0 { assert parts[i] == args[i - 1]; }
      }
    }
    SplitJoin(parts, ' ');
    assert parts[1..] == args;
  }

  // ---------------------------------------------------------------------------
  // The alias table
  // ---------------------------------------------------------------------------

  /** `comandoTraducido`: Spanish short names and the shell commands they stand for. */
  const Aliases: map<string, string> := map[
    "buscar" := "grep",
    "encontrar" := "find",
    "localizar" := "locate",
    "editor" := "nano",
    "final" := "tail",
    "inicio" := "head",
    "descargar" := "wget",
    "crar" := "touch",
    "crdir" := "mkdir",
    "listar" := "ls",
    "cd" := "cd",
    "diract" := "pwd"
  ]

  /** A reserved word is a name of the alias table (a key, not a translation). */
  predicate IsReserved(name: string) {
    name in Aliases
  }

  /**
   `comandoTraducido[command] || command`: the table's entry, falling back to
   the name itself when the entry is missing or empty.
   */
  function Translate(name: string): string
  {
    if name in Aliases && Aliases[name] != "" then Aliases[name] else name
  }

  /**
   Every entry of the table is non-empty, so the fallback never hides one: a
   key maps to its value and any other name passes unchanged.
   */
  lemma TranslateSpec(name: string)
    ensures name in Aliases ==> Translate(name) == Aliases[name]
    ensures name !in Aliases ==> Translate(name) == name
    ensures Translate(name) != "" || name == ""
  {
    assert forall k :: k in Aliases ==> Aliases[k] != "";
  }

  /** Sample translations from the table. */
  lemma AliasTable()
    ensures Translate("listar") == "ls" && Translate("buscar") == "grep" && Translate("cd") == "cd"
    ensures Translate("ls") == "ls" && !IsReserved("ls")
  {
  }

  // ---------------------------------------------------------------------------
  // Lexical classification
  // ---------------------------------------------------------------------------

  /** The `type` labels of the lexical log. */
  datatype TokenKind = Reserved | NotReserved | Identifier | ErrorToken

  /** The label the component shows for each kind. */
  function KindLabel(k: TokenKind): string {
    match k
    case Reserved => "Palabra reservada"
    case NotReserved => "Palabra no reservada"
    case Identifier => "Identificador"
    case ErrorToken => "Error"
  }

  /** One row of the lexical log: `{input, type, error}`. */
  datatype Entry = Entry(input: string, kind: TokenKind, error: bool)

  /** The entries `analyzeLexically` appends for one call. */
  function Classify(input: string, isError: bool, message: string): seq<Entry>
  {
    if isError then [Entry(message, ErrorToken, true)]
    else
      var p := ParseCommand(input);
      [CommandEntry(p.command)] + IdentifierEntries(p.args)
  }

  /**
   On an error, one `Error` entry carrying the message, whatever the line.
   Otherwise one entry more than there are arguments: the command, reserved
   exactly when it is a name of the alias table, then each argument in order as
   an identifier. Every entry's `error` flag is `isError`, and its `type` label
   is "Error", "Palabra reservada", "Palabra no reservada" or "Identificador"
   accordingly.
   */
  lemma ClassifyShape(input: string, isError: bool, message: string)
    ensures var r := Classify(input, isError, message);
      && (isError ==> r == [Entry(message, ErrorToken, true)])
      && (!isError ==> |r| == 1 + |ParseCommand(input).args|)
      && (!isError ==> r[0].input == ParseCommand(input).command)
      && (!isError ==> (r[0].kind == Reserved <==> ParseCommand(input).command in Aliases))
      && (!isError ==> (r[0].kind == NotReserved <==> ParseCommand(input).command !in Aliases))
      && (!isError ==> forall j :: 1 <= j < |r| ==> r[j] == Entry(ParseCommand(input).args[j - 1], Identifier, false))
      && (forall j :: 0 <= j < |r| ==> r[j].error == isError)
      && (isError ==> KindLabel(r[0].kind) == "Error")
      && (!isError ==> KindLabel(r[0].kind) ==
                         (if ParseCommand(input).command in Aliases then "Palabra reservada" else "Palabra no reservada"))
      && (!isError ==> forall j :: 1 <= j < |r| ==> KindLabel(r[j].kind) == "Identificador")
  {
  }

  /** The first entry of a successful classification. */
  function CommandEntry(command: string): Entry {
    Entry(command, if IsReserved(command) then Reserved else NotReserved, false)
  }

  /** One `Identificador` entry per argument, in order. */
  function IdentifierEntries(args: seq<string>): seq<Entry> {
    seq(|args|, j requires 0 <= j < |args| => Entry(args[j], Identifier, false))
  }

  /** Without an error, the number of entries is one more than the number of spaces in the trimmed line. */
  lemma ClassifyCountsSpaces(input: string, message: string)
    ensures |Classify(input, false, message)| == 1 + CountChar(Trim(input), ' ')
  {
    ParseCommandRoundTrip(input);
    ClassifyShape(input, false, message);
  }

  /**
   `analyzeLexically` without the final append: builds the entries one push at
   a time, the arguments in a loop as `args.forEach` does.
   */
  method BuildAnalysis(input: string, isError: bool, message: string) returns (result: seq<Entry>)
    ensures result == Classify(input, isError, message)
  {
    var p := ParseCommand(input);
    result := [];
    if isError {
      result := result + [Entry(message, ErrorToken, true)];
    } else {
      if IsReserved(p.command) {
        result := result + [Entry(p.command, Reserved, false)];
      } else {
        result := result + [Entry(p.command, NotReserved, false)];
      }
      var i := 0;
      while i < |p.args|
        invariant 0 <= i <= |p.args|
        invariant |result| == 1 + i
        invariant result[0] == CommandEntry(p.command)
        invariant forall j :: 0 <= j < i ==> result[1 + j] == Entry(p.args[j], Identifier, false)
      {
        result := result + [Entry(p.args[i], Identifier, false)];
        i := i + 1;
      }
      assert result == [CommandEntry(p.command)] + IdentifierEntries(p.args);
    }
  }

  // ---------------------------------------------------------------------------
  // The component's state
  // ---------------------------------------------------------------------------

  /** The state `TerminalComponent` keeps in its hooks and updates by appending. */
  class TerminalComponent {
    /** Whether the socket has been created (`socket` is not null). */
    var hasSocket: bool
    /** The text in the input box. */
    var inputValue: string
    /** Messages of non-error 'output' events, in arrival order. */
    var output: seq<string>
    /** Messages of error 'output' events, in arrival order. */
    var errorOutputs: seq<string>
    /** The lexical log. */
    var lexicalAnalysis: seq<Entry>
    /** The 'command' messages emitted on the socket, in order. */
    var sent: seq<CommandData>

    /** The initial hook values; the socket may or may not exist yet. */
    constructor (hasSocket: bool)
      ensures this.hasSocket == hasSocket && inputValue == ""
      ensures output == [] && errorOutputs == [] && lexicalAnalysis == [] && sent == []
    {
      this.hasSocket := hasSocket;
      inputValue := "";
      output, errorOutputs, lexicalAnalysis, sent := [], [], [], [];
    }

    /** The input box's change handler. */
    method EditInput(value: string)
      modifies this`inputValue
      ensures inputValue == value
    {
      inputValue := value;
    }

    /** `analyzeLexically`: appends this call's entries to the log and leaves every earlier entry in place. */
    method AnalyzeLexically(input: string, isError: bool, message: string)
      modifies this`lexicalAnalysis
      ensures lexicalAnalysis == old(lexicalAnalysis) + Classify(input, isError, message)
      ensures old(lexicalAnalysis) <= lexicalAnalysis
    {
      var analysisResult := BuildAnalysis(input, isError, message);
      lexicalAnalysis := lexicalAnalysis + analysisResult;
    }

    /**
     `sendCommand`: with a socket and a line that is not blank, emits exactly one
     'command' message (translated command, parsed arguments), logs the line's
     classification and clears the box; otherwise nothing changes.
     */
    method SendCommand()
      modifies this
      ensures hasSocket == old(hasSocket)
      ensures output == old(output) && errorOutputs == old(errorOutputs)
      ensures !old(hasSocket) || Trim(old(inputValue)) == "" ==>
                sent == old(sent) && lexicalAnalysis == old(lexicalAnalysis) && inputValue == old(inputValue)
      ensures old(hasSocket) && Trim(old(inputValue)) != "" ==>
                && sent == old(sent) + [CommandData(Translate(ParseCommand(old(inputValue)).command),
                                                    ParseCommand(old(inputValue)).args)]
                && lexicalAnalysis == old(lexicalAnalysis) + Classify(old(inputValue), false, "")
                && inputValue == ""
    {
      var line := inputValue;
      var trimmed := Trim(line);
      if hasSocket && trimmed != "" {
        ParseTrimmed(line);
        var p := ParseCommand(trimmed);
        var translated := Translate(p.command);
        sent := sent + [CommandData(translated, p.args)];
        AnalyzeLexically(line, false, "");
        inputValue := "";
      }
    }

    /**
     The 'output' listener: an error message is appended to `errorOutputs`, any
     other to `output`, the other list untouched; then the line the listener
     captured is classified together with the message.
     */
    method OnOutput(event: OutputEvent, capturedInput: string)
      modifies this`output, this`errorOutputs, this`lexicalAnalysis
      ensures event.isError ==> errorOutputs == old(errorOutputs) + [event.message] && output == old(output)
      ensures !event.isError ==> output == old(output) + [event.message] && errorOutputs == old(errorOutputs)
      ensures lexicalAnalysis == old(lexicalAnalysis) + Classify(capturedInput, event.isError, event.message)
    {
      if event.isError {
        errorOutputs := errorOutputs + [event.message];
      } else {
        output := output + [event.message];
      }
      AnalyzeLexically(capturedInput, event.isError, event.message);
    }
  }
}
