/**
 * The code-generation workflow: one run turns a request into files written
 * in a sandbox and a saved fragment. The run-scoped agent state (summary and
 * files), the progress counter, the three tool handlers, the response hook,
 * the router, the history formatter and the finalisation are modelled here.
 *
 * The sandbox service, the language models and the durable step runner are
 * outside the model: what they answer is given as oracle parameters (a
 * `Turn` per agent invocation, an `Attempt` per sandbox operation). Every
 * `step.run` is executed exactly once; replay and retry are not modelled.
 */
module CodeAgent {
  import opened Common
  import opened Text
  import opened FileMap
  import opened Store

  /** The denominator shown with every progress update. */
  const TotalSteps: int := 7
  /** The cap on agent invocations in one network run. */
  const MaxIter: nat := 15
  /** The text whose presence marks an agent reply as the final summary. */
  const SummaryMarker: string := "<task_summary>"
  /** The placeholder for a model output that is not text, and the title the run returns. */
  const FallbackText: string := "Fragment"

  const StartingContent: string := "Starting generation..."
  const InitialStep: string := "Initializing"
  const CreatingSandbox: string := "Creating sandbox environment"
  const LoadingHistory: string := "Loading conversation history"
  const Generating: string := "Analyzing your request and generating code"
  const Titling: string := "Generating title for your project"
  const Responding: string := "Preparing response"
  const Deploying: string := "Deploying to sandbox"
  const ErrorContent: string := "Something went wrong. Please try again later."

  // ------------------------------------------------------------ oracles

  /** The outcome of one sandbox operation: it completed, or it threw `error` (its string form). */
  datatype Attempt = Succeeded | Failed(error: string)

  /** A piece of output streamed by a running command. */
  datatype Chunk = Stdout(data: string) | Stderr(data: string)

  /** What running a command does: the chunks streamed before it ends, then whether it threw. */
  datatype CommandRun = CommandRun(chunks: seq<Chunk>, exit: Attempt)

  /**
   * A tool call the agent issues, with the sandbox's behaviour for it:
   * `connect` is reconnecting to the sandbox by id, `writes`/`results` hold
   * one outcome per entry.
   */
  datatype ToolCall =
    | TerminalCall(command: string, connect: Attempt, run: CommandRun)
    | CreateOrUpdateFilesCall(input: seq<Entry>, connect: Attempt, writes: seq<Attempt>)
    | ReadFilesCall(paths: seq<string>, connect: Attempt, results: seq<Result<string, string>>)

  /** One agent invocation: its tool calls in order, then the text of its last assistant message. */
  datatype Turn = Turn(calls: seq<ToolCall>, reply: Option<string>)

  predicate WellFormedCall(c: ToolCall)
  {
    match c
    case TerminalCall(_, _, _) => true
    case CreateOrUpdateFilesCall(input, _, writes) => |writes| == |input|
    case ReadFilesCall(paths, _, results) => |results| == |paths|
  }

  predicate WellFormedTurns(turns: seq<Turn>)
  {
    forall k, j :: 0 <= k < |turns| && 0 <= j < |turns[k].calls| ==> WellFormedCall(turns[k].calls[j])
  }

  /** A model's output message: text (one string or an array of `{type, text}` parts), or a tool call or result. */
  datatype TextPart = TextPart(text: string)
  datatype TextContent = Plain(text: string) | Parts(parts: seq<TextPart>)
  datatype OutputMessage = TextOutput(content: TextContent) | ToolCallOutput | ToolResultOutput

  /** Everything the outside world answers during one run. */
  datatype Oracles = Oracles(
    provision: Result<string, string>,   // Sandbox.create: the new sandbox's id, or the error
    template: map<string, string>,       // the files the sandbox template starts with
    turns: seq<Turn>,                    // the code agent's invocations, in order
    titleOutput: seq<OutputMessage>,     // the title generator's output
    responseOutput: seq<OutputMessage>,  // the response generator's output
    urlConnect: Attempt,                 // reconnecting to the sandbox to resolve its host
    host: string)                        // the host of port 3000

  /** The trigger event's data. `value` is `None` when missing or null. */
  datatype RunEvent = RunEvent(value: Option<string>, projectId: string)

  /** `event.data.value ?? ""`. */
  function EventValue(e: RunEvent): string
  {
    if e.value.Some? then e.value.value else ""
  }

  // ------------------------------------------------------------ results

  datatype WriteStep = Stored(files: Files) | StoreError(message: string)
  datatype ReadStep = Contents(entries: seq<Entry>) | ReadError(message: string)

  datatype ChatRole = UserRole | AssistantRole
  /** A text message of the agent's history. */
  datatype ChatMessage = ChatMessage(role: ChatRole, content: string)

  datatype Failure = ProvisionFailed(error: string) | MissingValue | SandboxUnreachable(error: string) | UnreadableOutput
  datatype RunOutcome = Completed(url: string, title: string, files: Files, summary: string) | Threw(failure: Failure)

  /** The effects of a run, in the order they happen. */
  datatype Effect =
    | ProgressMessageCreated
    | ProgressAdvanced(step: string, current: nat)
    | SandboxProvisioned(id: string)
    | HistoryLoaded(count: nat)
    | NetworkRan(iterations: nat)
    | TitleGenerated
    | ResponseGenerated
    | UrlResolved(url: string)
    | ProgressDeleted
    | ErrorMessageCreated
    | ResultMessageCreated

  // ------------------------------------------------------------ terminal

  /** The data of one stream (stdout when `out`, stderr otherwise), in arrival order. */
  function Captured(chunks: seq<Chunk>, out: bool): string
  {
    if chunks == [] then ""
    else
      var last := chunks[|chunks| - 1];
      Captured(chunks[..|chunks| - 1], out) + if last.Stdout? == out then last.data else ""
  }

  function CommandFailedText(error: string, stdout: string, stderr: string): string
  {
    "Command failed: " + error + " \nstdout: " + stdout + " \nstderr: " + stderr
  }

  /** Capturing a stream is appending: what arrives later follows what arrived earlier. */
  lemma {:induction false} CapturedAppend(a: seq<Chunk>, b: seq<Chunk>, out: bool)
    ensures Captured(a + b, out) == Captured(a, out) + Captured(b, out)
  {
    if b == [] {
      assert a + b == a;
    } else {
      assert (a + b)[..|a + b| - 1] == a + b[..|b| - 1];
      CapturedAppend(a, b[..|b| - 1], out);
    }
  }

  // ------------------------------------------------------------ createOrUpdateFiles

  /** The number of leading writes that complete: all but those from the first failure on. */
  function FirstFailure(writes: seq<Attempt>): (k: nat)
    ensures k <= |writes|
    ensures forall j :: 0 <= j < k ==> writes[j].Succeeded?
    ensures k < |writes| ==> writes[k].Failed?
  {
    if writes == [] || writes[0].Failed? then 0 else 1 + FirstFailure(writes[1..])
  }

  /** How many entries of one createOrUpdateFiles call reach the sandbox and the state. */
  function WrittenCount(connect: Attempt, writes: seq<Attempt>): nat
  {
    if connect.Failed? then 0 else FirstFailure(writes)
  }

  function StoreErrorText(error: string): string
  {
    "Error creating/updating files: " + error
  }

  function ReadErrorText(error: string): string
  {
    "Error reading files: " + error
  }

  // ------------------------------------------------------------ effects of a network run

  function CallFiles(f: Files, c: ToolCall): Files
  {
    if c.CreateOrUpdateFilesCall? then PutAll(f, Take(c.input, WrittenCount(c.connect, c.writes))) else f
  }

  function CallFs(fs: map<string, string>, c: ToolCall): map<string, string>
  {
    if c.CreateOrUpdateFilesCall? then WriteAll(fs, Take(c.input, WrittenCount(c.connect, c.writes))) else fs
  }

  /** The state's files after a sequence of tool calls. */
  function CallsFiles(f: Files, calls: seq<ToolCall>): Files
  {
    if calls == [] then f else CallFiles(CallsFiles(f, calls[..|calls| - 1]), calls[|calls| - 1])
  }

  function CallsFs(fs: map<string, string>, calls: seq<ToolCall>): map<string, string>
  {
    if calls == [] then fs else CallFs(CallsFs(fs, calls[..|calls| - 1]), calls[|calls| - 1])
  }

  /** The state's files after a sequence of agent turns. */
  function TurnsFiles(f: Files, turns: seq<Turn>): Files
  {
    if turns == [] then f else CallsFiles(TurnsFiles(f, turns[..|turns| - 1]), turns[|turns| - 1].calls)
  }

  function TurnsFs(fs: map<string, string>, turns: seq<Turn>): map<string, string>
  {
    if turns == [] then fs else CallsFs(TurnsFs(fs, turns[..|turns| - 1]), turns[|turns| - 1].calls)
  }

  // ------------------------------------------------------------ router

  datatype AgentName = CodeAgentName

  /** The router: no agent (stop) once a summary exists, the code agent otherwise. */
  function Route(summary: string): (next: Option<AgentName>)
    ensures next.None? <==> summary != ""
  {
    if summary != "" then None else Some(CodeAgentName)
  }

  /** The response hook stores a reply as the summary exactly when this holds. */
  predicate Concludes(reply: Option<string>)
  {
    reply.Some? && reply.value != "" && Contains(reply.value, SummaryMarker)
  }

  /** The index of the first turn whose reply concludes, or the number of turns. */
  function FirstConcluding(turns: seq<Turn>): (k: nat)
    ensures k <= |turns|
    ensures forall j :: 0 <= j < k ==> !Concludes(turns[j].reply)
    ensures k < |turns| ==> Concludes(turns[k].reply)
  {
    if turns == [] || Concludes(turns[0].reply) then 0 else 1 + FirstConcluding(turns[1..])
  }

  /** How many turns a network run starting without a summary makes. */
  function Iterations(turns: seq<Turn>): nat
  {
    var k := FirstConcluding(Take(turns, MaxIter));
    if k < |Take(turns, MaxIter)| then k + 1 else |Take(turns, MaxIter)|
  }

  /** The summary such a run ends with. */
  function FinalSummary(turns: seq<Turn>): string
  {
    var k := FirstConcluding(Take(turns, MaxIter));
    if k < |Take(turns, MaxIter)| then turns[k].reply.value else ""
  }

  /**
   * A network run makes at most 15 turns; it stops early only at a concluding
   * reply, which becomes the summary; no turn follows the one that concludes;
   * without a concluding reply among the first 15 the summary stays empty.
   */
  lemma NetworkStopRule(turns: seq<Turn>)
    requires |turns| >= MaxIter
    ensures Iterations(turns) <= MaxIter
    ensures forall j :: 0 <= j < Iterations(turns) - 1 ==> !Concludes(turns[j].reply)
    ensures Iterations(turns) < MaxIter ==> Iterations(turns) > 0 && Concludes(turns[Iterations(turns) - 1].reply)
    ensures FinalSummary(turns) != "" <==> exists j :: 0 <= j < MaxIter && Concludes(turns[j].reply)
    ensures FinalSummary(turns) != "" ==>
      FinalSummary(turns) == turns[Iterations(turns) - 1].reply.value && Concludes(turns[Iterations(turns) - 1].reply)
  {
    var ts := Take(turns, MaxIter);
    var k := FirstConcluding(ts);
    assert |ts| == MaxIter;
    if k < MaxIter {
      assert ts[k] == turns[k];
    } else {
      forall j | 0 <= j < MaxIter ensures !Concludes(turns[j].reply) {
        assert ts[j] == turns[j];
      }
    }
    forall j | 0 <= j < Iterations(turns) - 1 ensures !Concludes(turns[j].reply) {
      assert ts[j] == turns[j];
    }
  }

  /** Where the router loop stops: the facts that hold when it exits pin down its count and summary. */
  lemma StopsWhere(turns: seq<Turn>, iterations: nat, summary: string)
    requires |turns| >= MaxIter && iterations <= MaxIter
    requires var k := FirstConcluding(turns[..MaxIter]);
      iterations <= k + 1 && summary == if iterations == k + 1 then turns[k].reply.value else ""
    requires summary == "" ==> iterations == MaxIter
    ensures iterations == Iterations(turns) && summary == FinalSummary(turns)
  {
    assert Take(turns, MaxIter) == turns[..MaxIter];
  }

  // ------------------------------------------------------------ history

  /** The code block appended for one file of an earlier fragment. */
  function FileBlock(e: Entry): string
  {
    "\n\nFile: " + e.path + "\n```\n" + e.content + "\n```"
  }

  /** The blocks of all files of a fragment, joined by newlines. */
  function FilesContext(files: Files): string
  {
    Join(seq(|files|, i requires 0 <= i < |files| => FileBlock(files[i])), "\n")
  }

  /** The history message made of one stored RESULT message. */
  function Formatted(m: Message): ChatMessage
  {
    var role := if m.role == Assistant then AssistantRole else UserRole;
    if m.role == Assistant && m.fragment.Some? then ChatMessage(role, m.content + FilesContext(m.fragment.value.files))
    else ChatMessage(role, m.content)
  }

  /** A fragment without files adds nothing; otherwise its listing starts at its first file. */
  lemma FilesContextShape(files: Files)
    ensures files == [] ==> FilesContext(files) == ""
    ensures files != [] ==> StartsWith(FilesContext(files), "\n\nFile: " + files[0].path + "\n```\n")
  {
    if files != [] {
      var blocks := seq(|files|, i requires 0 <= i < |files| => FileBlock(files[i]));
      JoinCons(blocks, "\n");
      assert FilesContext(files) == FileBlock(files[0]) + (if |blocks| == 1 then "" else "\n" + Join(blocks[1..], "\n"));
      var head := "\n\nFile: " + files[0].path + "\n```\n";
      assert FileBlock(files[0]) == head + (files[0].content + "\n```");
      assert FilesContext(files)[..|head|] == head;
    }
  }

  /** The initial progress message of a run. */
  function InitialProgressMessage(id: nat, projectId: string): Message
  {
    Message(id, projectId, Assistant, InProgressKind, StartingContent, Some(Progress(InitialStep, 0, TotalSteps)), None)
  }

  function ErrorMessage(id: nat, projectId: string): Message
  {
    Message(id, projectId, Assistant, ErrorKind, ErrorContent, None, None)
  }

  function ResultMessage(id: nat, projectId: string, content: string, fragment: Fragment): Message
  {
    Message(id, projectId, Assistant, ResultKind, content, None, Some(fragment))
  }

  // ------------------------------------------------------------ finalisation

  /** What `String(o)` gives for a plain object, as `join` converts each array element. */
  const ObjectText: string := "[object Object]"

  /** `parts.map((text) => text).join("")`: the identity map keeps the part objects, and `join` renders each one as `ObjectText`. */
  function JoinParts(parts: seq<TextPart>): (r: string)
    ensures |r| == |ObjectText| * |parts|
  {
    if parts == [] then "" else ObjectText + JoinParts(parts[1..])
  }

  /** Every block of `|ObjectText|` characters of the joined parts is `ObjectText`. */
  lemma {:induction false} JoinPartsBlocks(parts: seq<TextPart>)
    ensures forall k :: 0 <= k < |parts| ==>
      JoinParts(parts)[k * |ObjectText|..(k + 1) * |ObjectText|] == ObjectText
  {
    if parts != [] {
      JoinPartsBlocks(parts[1..]);
      var rest := JoinParts(parts[1..]);
      var r := JoinParts(parts);
      assert r == ObjectText + rest;
      forall k | 0 <= k < |parts| ensures r[k * |ObjectText|..(k + 1) * |ObjectText|] == ObjectText {
        if k > 0 {
          assert r[k * |ObjectText|..(k + 1) * |ObjectText|] == rest[(k - 1) * |ObjectText|..k * |ObjectText|];
        }
      }
    }
  }

  /** The joined text depends on the number of parts only. */
  lemma {:induction false} JoinPartsSameCount(a: seq<TextPart>, b: seq<TextPart>)
    requires |a| == |b|
    ensures JoinParts(a) == JoinParts(b)
  {
    if a != [] {
      JoinPartsSameCount(a[1..], b[1..]);
    }
  }

  /** `parseAgentOutput`: `None` stands for the TypeError of an empty output (`value[0]` is undefined). */
  function ParseAgentOutput(value: seq<OutputMessage>): (r: Option<string>)
    ensures r.None? <==> value == []
    ensures value != [] && !value[0].TextOutput? ==> r == Some(FallbackText)
    ensures value != [] && value[0].TextOutput? && value[0].content.Plain? ==> r == Some(value[0].content.text)
    ensures value != [] && value[0].TextOutput? && value[0].content.Parts? ==> r == Some(JoinParts(value[0].content.parts))
  {
    if value == [] then None
    else match value[0]
      case TextOutput(Plain(text)) => Some(text)
      case TextOutput(Parts(parts)) => Some(JoinParts(parts))
      case _ => Some(FallbackText)
  }

  /** Array content loses its texts: two outputs with the same number of parts parse to the same string, whatever the parts say. */
  lemma PartsTextIgnored(a: seq<TextPart>, b: seq<TextPart>, rest: seq<OutputMessage>)
    requires |a| == |b|
    ensures ParseAgentOutput([TextOutput(Parts(a))] + rest) == ParseAgentOutput([TextOutput(Parts(b))] + rest)
  {
    JoinPartsSameCount(a, b);
  }

  /** The run failed to produce a usable result: no summary, or a files object without keys. */
  function IsError(summary: string, files: Files): (r: bool)
    ensures r <==> summary == "" || files == []
  {
    summary == "" || |Paths(files)| == 0
  }

  /** A run whose agent never concluded within 15 turns is an error, whatever files it wrote. */
  lemma NoConclusionIsError(turns: seq<Turn>, files: Files)
    requires |turns| >= MaxIter
    requires forall j :: 0 <= j < MaxIter ==> !Concludes(turns[j].reply)
    ensures IsError(FinalSummary(turns), files)
  {
    NetworkStopRule(turns);
  }

  /** A run whose agent concluded and wrote at least one file is not an error. */
  lemma ConclusionWithFilesIsSuccess(turns: seq<Turn>, j: nat)
    requires |turns| >= MaxIter && j < MaxIter && Concludes(turns[j].reply)
    requires |TurnsFiles([], turns[..Iterations(turns)])| > 0
    ensures !IsError(FinalSummary(turns), TurnsFiles([], turns[..Iterations(turns)]))
  {
    NetworkStopRule(turns);
  }

  // ------------------------------------------------------------ durable objects

  /** A sandbox reached by its id: its file system is what the handlers write to. */
  class Sandbox {
    const id: string
    var fs: map<string, string>

    constructor (id: string, template: map<string, string>)
      ensures this.id == id && fs == template
    {
      this.id := id;
      fs := template;
    }

    /** `sandbox.files.write`, when it completes. */
    method Write(path: string, content: string)
      modifies this`fs
      ensures fs == old(fs)[path := content]
    {
      fs := fs[path := content];
    }
  }

  /**
   * One run of the workflow: the agent state shared by the tool handlers
   * and the response hook (`summary`, `files`), the progress counter, the
   * agent's history, and a ghost log of the effects in order.
   */
  class AgentRun {
    var summary: string
    var files: Files
    var currentStep: nat
    var history: seq<ChatMessage>
    ghost var log: seq<Effect>

    ghost predicate Fresh()
      reads this
    {
      summary == "" && files == [] && currentStep == 0 && history == [] && log == []
    }

    constructor ()
      ensures Fresh()
    {
      summary, files, currentStep, history := "", [], 0, [];
      log := [];
    }

    /** Appends one effect to the log. */
    ghost method Record(e: Effect)
      modifies this`log
      ensures log == old(log) + [e]
    {
      log := log + [e];
    }

    /** The `terminal` tool: never throws; a failure becomes text with what was captured so far. */
    method Terminal(command: string, connect: Attempt, run: CommandRun) returns (output: string)
      ensures connect.Failed? ==> output == CommandFailedText(connect.error, "", "")
      ensures connect.Succeeded? && run.exit.Succeeded? ==> output == Captured(run.chunks, true)
      ensures connect.Succeeded? && run.exit.Failed? ==>
        output == CommandFailedText(run.exit.error, Captured(run.chunks, true), Captured(run.chunks, false))
    {
      var stdout, stderr := "", "";
      if connect.Failed? {
        return CommandFailedText(connect.error, stdout, stderr);
      }
      var i := 0;
      while i < |run.chunks|
        invariant 0 <= i <= |run.chunks|
        invariant stdout == Captured(run.chunks[..i], true)
        invariant stderr == Captured(run.chunks[..i], false)
      {
        assert run.chunks[..i + 1][..i] == run.chunks[..i];
        match run.chunks[i] {
          case Stdout(data) => stdout := stdout + data;
          case Stderr(data) => stderr := stderr + data;
        }
        i := i + 1;
      }
      assert run.chunks[..i] == run.chunks;
      if run.exit.Succeeded? {
        output := stdout;
      } else {
        output := CommandFailedText(run.exit.error, stdout, stderr);
      }
    }

    /**
     * The `createOrUpdateFiles` tool. The map it assigns to is the state's
     * own `files` object, so every entry written before a failure stays in
     * the state although the error branch does not store the map back.
     */
    method CreateOrUpdateFiles(input: seq<Entry>, sb: Sandbox, connect: Attempt, writes: seq<Attempt>) returns (step: WriteStep)
      requires |writes| == |input|
      modifies this`files, sb`fs
      ensures files == PutAll(old(files), input[..WrittenCount(connect, writes)])
      ensures sb.fs == WriteAll(old(sb.fs), input[..WrittenCount(connect, writes)])
      ensures step.Stored? <==> connect.Succeeded? && WrittenCount(connect, writes) == |input|
      ensures step.Stored? ==> step.files == files
      ensures step.StoreError? && connect.Failed? ==> step.message == StoreErrorText(connect.error)
      ensures step.StoreError? && connect.Succeeded? ==> step.message == StoreErrorText(writes[WrittenCount(connect, writes)].error)
    {
      if connect.Failed? {
        assert input[..0] == [];
        return StoreError(StoreErrorText(connect.error));
      }
      var written := WriteEntries(input, sb, writes);
      if written < |input| {
        return StoreError(StoreErrorText(writes[written].error));
      }
      assert input[..written] == input;
      step := Stored(files);
    }

    /** The write loop of `createOrUpdateFiles`: each entry goes to the sandbox and then to the map, up to the first failed write. */
    method WriteEntries(input: seq<Entry>, sb: Sandbox, writes: seq<Attempt>) returns (written: nat)
      requires |writes| == |input|
      modifies this`files, sb`fs
      ensures written == FirstFailure(writes)
      ensures files == PutAll(old(files), input[..written])
      ensures sb.fs == WriteAll(old(sb.fs), input[..written])
    {
      written := 0;
      while written < |input| && writes[written].Succeeded?
        invariant 0 <= written <= FirstFailure(writes)
        invariant files == PutAll(old(files), input[..written])
        invariant sb.fs == WriteAll(old(sb.fs), input[..written])
      {
        NextEntry(old(files), old(sb.fs), input, written);
        sb.Write(input[written].path, input[written].content);
        files := Put(files, input[written].path, input[written].content);
        written := written + 1;
      }
    }

    /** The `readFiles` tool: the requested files in order, or one error text for the first failure. */
    method ReadFiles(paths: seq<string>, connect: Attempt, results: seq<Result<string, string>>) returns (r: ReadStep)
      requires |results| == |paths|
      ensures r.Contents? <==> connect.Succeeded? && forall i :: 0 <= i < |results| ==> results[i].Ok?
      ensures r.Contents? ==> |r.entries| == |paths| && forall i :: 0 <= i < |paths| ==> r.entries[i] == Entry(paths[i], results[i].value)
      ensures connect.Failed? ==> r == ReadError(ReadErrorText(connect.error))
      ensures connect.Succeeded? && r.ReadError? ==>
        exists k :: 0 <= k < |results| && results[k].Err? && (forall j :: 0 <= j < k ==> results[j].Ok?) && r.message == ReadErrorText(results[k].error)
    {
      if connect.Failed? {
        return ReadError(ReadErrorText(connect.error));
      }
      var contents: seq<Entry> := [];
      var i := 0;
      while i < |paths|
        invariant 0 <= i <= |paths|
        invariant forall j :: 0 <= j < i ==> results[j].Ok?
        invariant |contents| == i
        invariant forall j :: 0 <= j < i ==> contents[j] == Entry(paths[j], results[j].value)
      {
        if results[i].Err? {
          return ReadError(ReadErrorText(results[i].error));
        }
        contents := contents + [Entry(paths[i], results[i].value)];
        i := i + 1;
      }
      r := Contents(contents);
    }

    /** The `onResponse` hook: a reply that concludes becomes the summary; the result passes through. */
    method OnResponse(result: Turn, hasNetwork: bool) returns (r: Turn)
      modifies this`summary
      ensures r == result
      ensures summary == if hasNetwork && Concludes(result.reply) then result.reply.value else old(summary)
    {
      var text := result.reply;
      if text.Some? && text.value != "" && hasNetwork {
        if Contains(text.value, SummaryMarker) {
          summary := text.value;
        }
      }
      r := result;
    }

    /** One agent invocation: its tool calls in order, then the response hook. */
    method RunTurn(turn: Turn, sb: Sandbox)
      requires forall j :: 0 <= j < |turn.calls| ==> WellFormedCall(turn.calls[j])
      modifies this`files, this`summary, sb`fs
      ensures files == CallsFiles(old(files), turn.calls)
      ensures sb.fs == CallsFs(old(sb.fs), turn.calls)
      ensures summary == if Concludes(turn.reply) then turn.reply.value else old(summary)
    {
      var j := 0;
      while j < |turn.calls|
        invariant 0 <= j <= |turn.calls|
        invariant files == CallsFiles(old(files), turn.calls[..j])
        invariant sb.fs == CallsFs(old(sb.fs), turn.calls[..j])
        invariant summary == old(summary)
      {
        var call := turn.calls[j];
        assert turn.calls[..j + 1][..j] == turn.calls[..j];
        match call {
          case TerminalCall(command, connect, run) =>
            var _ := Terminal(command, connect, run);
          case CreateOrUpdateFilesCall(input, connect, writes) =>
            var _ := CreateOrUpdateFiles(input, sb, connect, writes);
            assert Take(input, WrittenCount(connect, writes)) == input[..WrittenCount(connect, writes)];
          case ReadFilesCall(paths, connect, results) =>
            var _ := ReadFiles(paths, connect, results);
        }
        j := j + 1;
      }
      assert turn.calls[..j] == turn.calls;
      var _ := OnResponse(turn, true);
    }

    /**
     * `network.run` with the router and `maxIter` 15: each iteration asks
     * the router, stops when it returns no agent, and otherwise runs one turn.
     */
    method RunNetwork(turns: seq<Turn>, sb: Sandbox) returns (iterations: nat)
      requires |turns| >= MaxIter && WellFormedTurns(turns)
      modifies this`files, this`summary, sb`fs
      ensures old(summary) != "" ==> iterations == 0 && summary == old(summary) && files == old(files) && sb.fs == old(sb.fs)
      ensures old(summary) == "" ==> iterations == Iterations(turns) && summary == FinalSummary(turns)
      ensures files == TurnsFiles(old(files), turns[..iterations])
      ensures sb.fs == TurnsFs(old(sb.fs), turns[..iterations])
    {
      ghost var start := summary;
      ghost var k := FirstConcluding(turns[..MaxIter]);
      iterations := 0;
      while iterations < MaxIter
        invariant iterations <= MaxIter
        invariant files == TurnsFiles(old(files), turns[..iterations])
        invariant sb.fs == TurnsFs(old(sb.fs), turns[..iterations])
        invariant start != "" ==> iterations == 0 && summary == start
        invariant start == "" ==> iterations <= k + 1 && summary == if iterations == k + 1 then turns[k].reply.value else ""
      {
        var next := Route(summary);
        if next.None? {
          break;
        }
        assert forall j :: 0 <= j < |turns[iterations].calls| ==> WellFormedCall(turns[iterations].calls[j]);
        assert turns[..MaxIter][iterations] == turns[iterations];
        ghost var done := turns[..iterations + 1];
        assert done[..iterations] == turns[..iterations] && done[iterations] == turns[iterations];
        RunTurn(turns[iterations], sb);
        assert files == TurnsFiles(old(files), done);
        assert sb.fs == TurnsFs(old(sb.fs), done);
        iterations := iterations + 1;
      }
      if start == "" {
        StopsWhere(turns, iterations, summary);
      }
    }

    /** `updateProgress`: the counter goes up by one and every progress message of the project shows it. */
    method UpdateProgress(db: Database, projectId: string, stepName: string)
      requires db.Valid()
      modifies this`currentStep, this`log, db`messages
      ensures db.Valid()
      ensures currentStep == old(currentStep) + 1
      ensures db.messages == WithProgress(old(db.messages), projectId, Progress(stepName, currentStep, TotalSteps))
      ensures WithoutProgress(db.messages, projectId) == WithoutProgress(old(db.messages), projectId)
      ensures Results(db.messages, projectId) == Results(old(db.messages), projectId)
      ensures log == old(log) + [ProgressAdvanced(stepName, currentStep)]
    {
      currentStep := currentStep + 1;
      DeleteAfterUpdate(db.messages, projectId, Progress(stepName, currentStep, TotalSteps));
      ResultsAfterUpdate(db.messages, projectId, Progress(stepName, currentStep, TotalSteps));
      db.UpdateProgress(projectId, Progress(stepName, currentStep, TotalSteps));
      Record(ProgressAdvanced(stepName, currentStep));
    }

    /** The history loop: one text message per stored message, in order. */
    method FormatHistory(messages: seq<Message>) returns (formatted: seq<ChatMessage>)
      ensures |formatted| == |messages|
      ensures forall i :: 0 <= i < |messages| ==>
        formatted[i].role == (if messages[i].role == Assistant then AssistantRole else UserRole)
      ensures forall i :: 0 <= i < |messages| ==>
        formatted[i].content == messages[i].content +
          (if messages[i].role == Assistant && messages[i].fragment.Some? then FilesContext(messages[i].fragment.value.files) else "")
    {
      formatted := [];
      for i := 0 to |messages|
        invariant |formatted| == i
        invariant forall j :: 0 <= j < i ==> formatted[j] == Formatted(messages[j])
      {
        var message := messages[i];
        var content := message.content;
        if message.role == Assistant && message.fragment.Some? {
          content := content + FilesContext(message.fragment.value.files);
        }
        formatted := formatted + [ChatMessage(if message.role == Assistant then AssistantRole else UserRole, content)];
      }
    }

    /** The save-result step: clear progress, then an error message if needed, then the result with its fragment. */
    method SaveResult(db: Database, projectId: string, isError: bool, url: string,
                      responseOutput: seq<OutputMessage>, titleOutput: seq<OutputMessage>) returns (saved: bool)
      requires db.Valid()
      modifies db, this`log
      ensures db.Valid()
      ensures saved <==> ParseAgentOutput(responseOutput).Some? && ParseAgentOutput(titleOutput).Some?
      ensures var errorId := old(db.nextId);
        var resultId := if isError then errorId + 1 else errorId;
        db.messages == WithoutProgress(old(db.messages), projectId)
          + (if isError then [ErrorMessage(errorId, projectId)] else [])
          + (if saved then [ResultMessage(resultId, projectId, ParseAgentOutput(responseOutput).value,
                                          Fragment(url, ParseAgentOutput(titleOutput).value, files))] else [])
      ensures log == old(log) + [ProgressDeleted]
        + (if isError then [ErrorMessageCreated] else []) + (if saved then [ResultMessageCreated] else [])
      ensures db.projects == old(db.projects)
      ensures db.nextId == old(db.nextId) + (if isError then 1 else 0) + (if saved then 1 else 0)
    {
      db.DeleteProgress(projectId);
      Record(ProgressDeleted);
      if isError {
        var _ := db.CreateMessage(projectId, Assistant, ErrorKind, ErrorContent, None, None);
        Record(ErrorMessageCreated);
      }
      var content := ParseAgentOutput(responseOutput);
      if content.None? {
        return false;
      }
      var title := ParseAgentOutput(titleOutput);
      if title.None? {
        return false;
      }
      var _ := db.CreateMessage(projectId, Assistant, ResultKind, content.value, None, Some(Fragment(url, title.value, files)));
      Record(ResultMessageCreated);
      saved := true;
    }

    /** The step "create-progress-message", then the first progress update. */
    method Begin(db: Database, projectId: string)
      requires db.Valid() && currentStep == 0
      modifies db, this`currentStep, this`log
      ensures db.Valid() && db.projects == old(db.projects) && db.nextId == old(db.nextId) + 1
      ensures currentStep == 1
      ensures log == old(log) + [ProgressMessageCreated, ProgressAdvanced(CreatingSandbox, 1)]
      ensures db.messages == WithProgress(old(db.messages), projectId, Progress(CreatingSandbox, 1, TotalSteps))
        + [InitialProgressMessage(old(db.nextId), projectId).(progress := Some(Progress(CreatingSandbox, 1, TotalSteps)))]
      ensures WithoutProgress(db.messages, projectId) == WithoutProgress(old(db.messages), projectId)
      ensures Results(db.messages, projectId) == Results(old(db.messages), projectId)
    {
      ghost var before := db.messages;
      var progressMessage := db.CreateMessage(projectId, Assistant, InProgressKind, StartingContent,
                                              Some(Progress(InitialStep, 0, TotalSteps)), None);
      Record(ProgressMessageCreated);
      WithoutProgressAppend(before, progressMessage, projectId);
      ResultsAppend(before, progressMessage, projectId);
      WithProgressAppend(before, progressMessage, projectId, Progress(CreatingSandbox, 1, TotalSteps));
      UpdateProgress(db, projectId, CreatingSandbox);
    }

    /** The second progress update, then the step "get-previous-messages". */
    method LoadHistory(db: Database, projectId: string)
      requires db.Valid() && currentStep == 1
      modifies db`messages, this`currentStep, this`log, this`history
      ensures db.Valid()
      ensures currentStep == 2
      ensures log == old(log) + [ProgressAdvanced(LoadingHistory, 2), HistoryLoaded(|ResultHistory(old(db.messages), projectId)|)]
      ensures db.messages == WithProgress(old(db.messages), projectId, Progress(LoadingHistory, 2, TotalSteps))
      ensures WithoutProgress(db.messages, projectId) == WithoutProgress(old(db.messages), projectId)
      ensures |history| == |ResultHistory(old(db.messages), projectId)|
      ensures forall i :: 0 <= i < |history| ==> history[i] == Formatted(ResultHistory(old(db.messages), projectId)[i])
    {
      UpdateProgress(db, projectId, LoadingHistory);
      var previous := ResultHistory(db.messages, projectId);
      history := FormatHistory(previous);
      Record(HistoryLoaded(|previous|));
    }

    /**
     * The steps before the agent runs: the progress message, provisioning the
     * sandbox and loading the history, each announced by a progress update.
     */
    method Prepare(db: Database, projectId: string, oracle: Oracles) returns (sandbox: Sandbox?)
      requires db.Valid() && Fresh()
      modifies this`currentStep, this`log, this`history, db
      ensures db.Valid() && db.projects == old(db.projects) && db.nextId == old(db.nextId) + 1
      ensures summary == "" && files == []
      ensures WithoutProgress(db.messages, projectId) == WithoutProgress(old(db.messages), projectId)
      ensures |db.messages| == |old(db.messages)| + 1
      ensures sandbox == null <==> oracle.provision.Err?
      ensures sandbox == null ==>
        && currentStep == 1 && log == [ProgressMessageCreated, ProgressAdvanced(CreatingSandbox, 1)]
        && db.messages == WithProgress(old(db.messages), projectId, Progress(CreatingSandbox, 1, TotalSteps))
             + [InitialProgressMessage(old(db.nextId), projectId).(progress := Some(Progress(CreatingSandbox, 1, TotalSteps)))]
      ensures sandbox != null ==>
        && fresh(sandbox) && sandbox.id == oracle.provision.value && sandbox.fs == oracle.template
        && currentStep == 2
        && log == PrepareLog(sandbox.id, |ResultHistory(old(db.messages), projectId)|)
        && db.messages[|old(db.messages)|] ==
             InitialProgressMessage(old(db.nextId), projectId).(progress := Some(Progress(LoadingHistory, 2, TotalSteps)))
        && |history| == |ResultHistory(old(db.messages), projectId)|
        && (forall i :: 0 <= i < |history| ==> history[i] == Formatted(ResultHistory(old(db.messages), projectId)[i]))
    {
      ghost var before := db.messages;
      Begin(db, projectId);
      // step "get-sandbox-id"
      if oracle.provision.Err? {
        return null;
      }
      sandbox := new Sandbox(oracle.provision.value, oracle.template);
      Record(SandboxProvisioned(sandbox.id));
      ghost var p1 := Progress(CreatingSandbox, 1, TotalSteps);
      ghost var m1 := InitialProgressMessage(old(db.nextId), projectId).(progress := Some(p1));
      WithProgressAppend(WithProgress(before, projectId, p1), m1, projectId, Progress(LoadingHistory, 2, TotalSteps));
      LoadHistory(db, projectId);
    }

    /**
     * The steps from the agent network to the last progress update: the
     * network run, then the title and response generators, whose outputs
     * are the oracle's.
     */
    method RunAgents(db: Database, projectId: string, turns: seq<Turn>, sandbox: Sandbox) returns (iterations: nat)
      requires db.Valid() && summary == "" && files == [] && currentStep == 2
      requires |turns| >= MaxIter && WellFormedTurns(turns)
      modifies this`currentStep, this`log, this`summary, this`files, db`messages, sandbox`fs
      ensures db.Valid()
      ensures iterations == Iterations(turns) && summary == FinalSummary(turns) && files == RunFiles(turns)
      ensures sandbox.fs == TurnsFs(old(sandbox.fs), turns[..iterations])
      ensures currentStep == 6
      ensures log == old(log) + GenerateLog(iterations)
      ensures |db.messages| == |old(db.messages)|
      ensures WithoutProgress(db.messages, projectId) == WithoutProgress(old(db.messages), projectId)
    {
      UpdateProgress(db, projectId, Generating);
      // network.run(value, { state }): the request and `history` are what the model sees; its turns are the oracle's
      iterations := RunNetwork(turns, sandbox);
      Record(NetworkRan(iterations));
      RunWriters(db, projectId);
    }

    /** The title and response generators, each announced by a progress update, and the update before deploying. */
    method RunWriters(db: Database, projectId: string)
      requires db.Valid() && currentStep == 3
      modifies this`currentStep, this`log, db`messages
      ensures db.Valid()
      ensures currentStep == 6
      ensures log == old(log) + WritersLog()
      ensures |db.messages| == |old(db.messages)|
      ensures WithoutProgress(db.messages, projectId) == WithoutProgress(old(db.messages), projectId)
    {
      UpdateProgress(db, projectId, Titling);
      Record(TitleGenerated);
      UpdateProgress(db, projectId, Responding);
      Record(ResponseGenerated);
      UpdateProgress(db, projectId, Deploying);
    }

    /**
     * The steps from the agent network on: the agents, the sandbox address
     * and the saved result.
     */
    method Generate(db: Database, projectId: string, oracle: Oracles, sandbox: Sandbox) returns (outcome: RunOutcome)
      requires db.Valid() && summary == "" && files == [] && currentStep == 2
      requires |oracle.turns| >= MaxIter && WellFormedTurns(oracle.turns)
      modifies this`currentStep, this`log, this`summary, this`files, db, sandbox`fs
      ensures db.Valid() && db.projects == old(db.projects)
      ensures summary == FinalSummary(oracle.turns) && files == RunFiles(oracle.turns)
      ensures sandbox.fs == TurnsFs(old(sandbox.fs), oracle.turns[..Iterations(oracle.turns)])
      ensures currentStep == 6
      ensures oracle.urlConnect.Failed? ==>
        && outcome == Threw(SandboxUnreachable(oracle.urlConnect.error))
        && log == old(log) + GenerateLog(Iterations(oracle.turns))
        && |db.messages| == |old(db.messages)| && db.nextId == old(db.nextId)
        && WithoutProgress(db.messages, projectId) == WithoutProgress(old(db.messages), projectId)
      ensures oracle.urlConnect.Succeeded? ==>
        var url := "https://" + oracle.host;
        var isError := IsError(FinalSummary(oracle.turns), RunFiles(oracle.turns));
        var content := ParseAgentOutput(oracle.responseOutput);
        var title := ParseAgentOutput(oracle.titleOutput);
        var saved := content.Some? && title.Some?;
        && outcome == (if saved then Completed(url, FallbackText, RunFiles(oracle.turns), FinalSummary(oracle.turns)) else Threw(UnreadableOutput))
        && log == old(log) + GenerateLog(Iterations(oracle.turns)) + [UrlResolved(url), ProgressDeleted]
             + (if isError then [ErrorMessageCreated] else []) + (if saved then [ResultMessageCreated] else [])
        && db.nextId == old(db.nextId) + (if isError then 1 else 0) + (if saved then 1 else 0)
        && db.messages == WithoutProgress(old(db.messages), projectId)
             + (if isError then [ErrorMessage(old(db.nextId), projectId)] else [])
             + (if saved then [ResultMessage(if isError then old(db.nextId) + 1 else old(db.nextId), projectId,
                                             content.value, Fragment(url, title.value, RunFiles(oracle.turns)))] else [])
    {
      var iterations := RunAgents(db, projectId, oracle.turns, sandbox);
      var isError := IsError(summary, files);
      // step "get-sandbox-url"
      if oracle.urlConnect.Failed? {
        return Threw(SandboxUnreachable(oracle.urlConnect.error));
      }
      var url := "https://" + oracle.host;
      Record(UrlResolved(url));

      // step "save-result"
      var saved := SaveResult(db, projectId, isError, url, oracle.responseOutput, oracle.titleOutput);
      if !saved {
        return Threw(UnreadableOutput);
      }
      outcome := Completed(url, FallbackText, files, summary);
    }

    /** The whole `code-agent/run` function, from a fresh agent state. */
    method Execute(db: Database, event: RunEvent, oracle: Oracles) returns (outcome: RunOutcome, sandbox: Sandbox?)
      requires db.Valid() && Fresh()
      requires |oracle.turns| >= MaxIter && WellFormedTurns(oracle.turns)
      modifies this, db
      ensures db.Valid() && db.projects == old(db.projects)
      ensures oracle.provision.Err? ==>
        && outcome == Threw(ProvisionFailed(oracle.provision.error)) && sandbox == null
        && log == [ProgressMessageCreated, ProgressAdvanced(CreatingSandbox, 1)]
        && db.messages == WithProgress(old(db.messages), event.projectId, Progress(CreatingSandbox, 1, TotalSteps))
             + [InitialProgressMessage(old(db.nextId), event.projectId).(progress := Some(Progress(CreatingSandbox, 1, TotalSteps)))]
        && WithoutProgress(db.messages, event.projectId) == WithoutProgress(old(db.messages), event.projectId)
      ensures oracle.provision.Err? || Trim(EventValue(event)) == "" || oracle.urlConnect.Failed? ==>
        db.nextId == old(db.nextId) + 1
      ensures oracle.provision.Ok? ==>
        && sandbox != null && fresh(sandbox) && sandbox.id == oracle.provision.value
        && |history| == |ResultHistory(old(db.messages), event.projectId)|
      ensures oracle.provision.Ok? && Trim(EventValue(event)) == "" ==>
        && outcome == Threw(MissingValue)
        && log == PrepareLog(oracle.provision.value, |ResultHistory(old(db.messages), event.projectId)|)
        && |db.messages| == |old(db.messages)| + 1
        && db.messages[|old(db.messages)|] ==
             InitialProgressMessage(old(db.nextId), event.projectId).(progress := Some(Progress(LoadingHistory, 2, TotalSteps)))
        && WithoutProgress(db.messages, event.projectId) == WithoutProgress(old(db.messages), event.projectId)
        && summary == "" && files == [] && sandbox.fs == oracle.template
      ensures oracle.provision.Ok? && Trim(EventValue(event)) != "" ==>
        && summary == FinalSummary(oracle.turns) && files == RunFiles(oracle.turns) && currentStep == 6
        && sandbox.fs == TurnsFs(oracle.template, oracle.turns[..Iterations(oracle.turns)])
      ensures oracle.provision.Ok? && Trim(EventValue(event)) != "" && oracle.urlConnect.Failed? ==>
        && outcome == Threw(SandboxUnreachable(oracle.urlConnect.error))
        && log == PrepareLog(oracle.provision.value, |ResultHistory(old(db.messages), event.projectId)|)
             + GenerateLog(Iterations(oracle.turns))
        && |db.messages| == |old(db.messages)| + 1
        && WithoutProgress(db.messages, event.projectId) == WithoutProgress(old(db.messages), event.projectId)
      ensures oracle.provision.Ok? && Trim(EventValue(event)) != "" && oracle.urlConnect.Succeeded? ==>
        var url := "https://" + oracle.host;
        var isError := IsError(FinalSummary(oracle.turns), RunFiles(oracle.turns));
        var content := ParseAgentOutput(oracle.responseOutput);
        var title := ParseAgentOutput(oracle.titleOutput);
        var saved := content.Some? && title.Some?;
        && outcome == (if saved then Completed(url, FallbackText, RunFiles(oracle.turns), FinalSummary(oracle.turns)) else Threw(UnreadableOutput))
        && log == PrepareLog(oracle.provision.value, |ResultHistory(old(db.messages), event.projectId)|)
             + GenerateLog(Iterations(oracle.turns)) + [UrlResolved(url), ProgressDeleted]
             + (if isError then [ErrorMessageCreated] else []) + (if saved then [ResultMessageCreated] else [])
        && db.nextId == old(db.nextId) + 1 + (if isError then 1 else 0) + (if saved then 1 else 0)
        && db.messages == WithoutProgress(old(db.messages), event.projectId)
             + (if isError then [ErrorMessage(old(db.nextId) + 1, event.projectId)] else [])
             + (if saved then [ResultMessage(if isError then old(db.nextId) + 2 else old(db.nextId) + 1, event.projectId,
                                             content.value, Fragment(url, title.value, RunFiles(oracle.turns)))] else [])
    {
      sandbox := Prepare(db, event.projectId, oracle);
      if sandbox == null {
        return Threw(ProvisionFailed(oracle.provision.error)), null;
      }
      var value := Trim(EventValue(event));
      if value == "" {
        return Threw(MissingValue), sandbox;
      }
      outcome := Generate(db, event.projectId, oracle, sandbox);
    }
  }

  /** The files a network run leaves in a fresh state. */
  function RunFiles(turns: seq<Turn>): Files
    requires |turns| >= MaxIter
  {
    TurnsFiles([], turns[..Iterations(turns)])
  }

  function PrepareLog(sandboxId: string, historySize: nat): seq<Effect>
  {
    [ProgressMessageCreated, ProgressAdvanced(CreatingSandbox, 1), SandboxProvisioned(sandboxId),
     ProgressAdvanced(LoadingHistory, 2), HistoryLoaded(historySize)]
  }

  function GenerateLog(iterations: nat): seq<Effect>
  {
    [ProgressAdvanced(Generating, 3), NetworkRan(iterations)] + WritersLog()
  }

  function WritersLog(): seq<Effect>
  {
    [ProgressAdvanced(Titling, 4), TitleGenerated, ProgressAdvanced(Responding, 5), ResponseGenerated,
     ProgressAdvanced(Deploying, 6)]
  }

  /** Progress updates never touch RESULT messages, so the history query sees the same rows. */
  lemma {:induction false} ResultsAfterUpdate(ms: seq<Message>, projectId: string, p: Progress)
    ensures forall q :: Results(WithProgress(ms, projectId, p), q) == Results(ms, q)
  {
    if ms != [] {
      ResultsAfterUpdate(ms[1..], projectId, p);
      assert WithProgress(ms, projectId, p)[1..] == WithProgress(ms[1..], projectId, p);
    }
  }

  // ------------------------------------------------------------ properties of whole runs

  /** After the save step no progress message of the project remains beside its terminal messages. */
  lemma NoProgressRemains(ms: seq<Message>, projectId: string, terminal: seq<Message>)
    requires forall k :: 0 <= k < |terminal| ==> terminal[k].kind != InProgressKind
    ensures forall m :: m in WithoutProgress(ms, projectId) + terminal ==> !IsProgressOf(m, projectId)
  {
    WithoutProgressMembers(ms, projectId);
  }

  /**
   * A createOrUpdateFiles call whose second write fails still leaves the
   * first file in the state and in the sandbox.
   */
  lemma PartialWriteKept(f: Files, fs: map<string, string>, first: Entry, second: Entry, error: string)
    ensures var call := CreateOrUpdateFilesCall([first, second], Succeeded, [Succeeded, Failed(error)]);
      && CallFiles(f, call) == Put(f, first.path, first.content)
      && Get(CallFiles(f, call), first.path) == Some(first.content)
      && CallFs(fs, call) == fs[first.path := first.content]
  {
    var call := CreateOrUpdateFilesCall([first, second], Succeeded, [Succeeded, Failed(error)]);
    assert FirstFailure([Succeeded, Failed(error)]) == 1 by {
      assert [Succeeded, Failed(error)][1..] == [Failed(error)];
    }
    assert Take([first, second], 1) == [first];
    assert [first][..0] == [];
    assert PutAll(f, [first]) == Put(PutAll(f, []), first.path, first.content);
    assert WriteAll(fs, [first]) == WriteAll(fs, [])[first.path := first.content];
  }

  /**
   * A two-turn run: the agent writes two files in its first
   * turn and concludes in its second; the network stops after two turns,
   * the run is not an error and the state holds exactly those two files.
   */
  lemma TwoTurnRun(html: string, css: string, rest: seq<Turn>)
    requires |rest| >= MaxIter - 2
    ensures var write := CreateOrUpdateFilesCall([Entry("index.html", html), Entry("styles.css", css)], Succeeded, [Succeeded, Succeeded]);
      var turns := [Turn([write], None), Turn([], Some(SummaryMarker))] + rest;
      && Iterations(turns) == 2
      && FinalSummary(turns) == SummaryMarker
      && Paths(RunFiles(turns)) == ["index.html", "styles.css"]
      && !IsError(FinalSummary(turns), RunFiles(turns))
  {
    var e1, e2 := Entry("index.html", html), Entry("styles.css", css);
    var write := CreateOrUpdateFilesCall([e1, e2], Succeeded, [Succeeded, Succeeded]);
    var t1, t2 := Turn([write], None), Turn([], Some(SummaryMarker));
    var turns := [t1, t2] + rest;
    ContainsAt(SummaryMarker, SummaryMarker, 0);
    assert Concludes(t2.reply);
    var ts := Take(turns, MaxIter);
    assert ts[0] == t1 && ts[1] == t2;
    assert ts[1..][0] == t2;
    assert FirstConcluding(ts) == 1;
    assert Iterations(turns) == 2;
    assert turns[..2] == [t1, t2];
    assert [t1, t2][..1] == [t1] && [t1][..0] == [];
    assert FirstFailure([Succeeded, Succeeded]) == 2 by {
      assert [Succeeded, Succeeded][1..] == [Succeeded];
      assert [Succeeded][1..] == [];
    }
    assert Take([e1, e2], 2) == [e1, e2];
    assert [e1, e2][..1] == [e1] && [e1][..0] == [];
    assert [write][..0] == [];
    var f1 := PutAll([], [e1, e2]);
    assert PutAll([], [e1]) == Put(PutAll([], []), e1.path, e1.content);
    assert f1 == Put(PutAll([], [e1]), e2.path, e2.content);
    assert CallsFiles([], [write]) == CallFiles(CallsFiles([], []), write);
    assert TurnsFiles([], [t1]) == CallsFiles(TurnsFiles([], []), t1.calls);
    assert TurnsFiles([], [t1]) == f1;
    assert TurnsFiles([], [t1, t2]) == f1;
    PutPaths([], e1.path, e1.content);
    PutPaths(Put([], e1.path, e1.content), e2.path, e2.content);
    assert "styles.css" != "index.html";
  }
}
