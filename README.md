# vision2web core, modelled in Dafny

vision2web turns a prompt into a small web application. A project is
created from the user's first message. This charges one credit, stores the
project with that message and sends a `code-agent/run` event. The
code-generation workflow picks the event up and does the following:

- It creates a progress message and provisions a sandbox.
- It loads the project's earlier RESULT messages as history.
- It runs a coding agent whose tools write files into the sandbox.
- It stops once a reply carries a `<task_summary>`, or after 15 turns.
- It saves a RESULT message whose fragment holds the sandbox URL, a title and the written files. An ERROR message comes before it when the run produced no summary or no files.

The project view polls the conversation. It hides progress messages from
the list, shows a loading indicator while a run is going, and opens the
newest assistant fragment once per message. The file explorer renders the
fragment's flat path-to-content map as a tree, with a breadcrumb over the
selected path.

The model has these modules:

- `CodeAgent`: the workflow. The class `AgentRun` holds the run-scoped agent state (`summary`, `files`), the progress counter and the agent's history. The tool handlers, the response hook, the router loop and the workflow steps are methods on it, each proved against specification functions.
- `Store`: the message and project rows. The class `Database` holds the rows the workflow and `create` change.
- `FileMap`: a JavaScript object used as a path-to-content dictionary, in key-insertion order.
- `Text`: the JavaScript string operations used: `split`, `filter(Boolean)`, `join`, `trim`, `toLowerCase` and `includes`.
- `StringOrder`: the default `Array.prototype.sort` order of strings.
- `FileTree`: `convertFilesToTreeItems`. The cursor walk and the `convertNode` loop are methods, proved equal to value-level definitions whose properties are lemmas.
- `Projects`: `generateProjectName`, the input rules of `create` and `getOne`, the credit-error mapping and the order of `create`'s effects.
- `FileExplorer`: the language guess, the breadcrumb rule and the explorer's state (selection, copied flag).
- `MessagesView`: the list, progress and loading derivations and the auto-activate effect.

The world outside the code is given as parameters:

- the sandbox service: provisioning, connecting, writes, reads and command output;
- the language models: one `Turn` per agent invocation, and the title and response outputs;
- the credit limiter's outcome;
- the id the database gives a new project.

Each `step.run` runs exactly once.

Where the code's own comments and the code disagree, the model follows the code:

- The history is the OLDEST ten RESULT messages: the query orders by creation time ascending with `take: 10` (src/inngest/functions.ts:84-87). The comment says "last 10" (`Store.NewestResultLeftOut`).
- The project name keeps four words: the code slices four (src/modules/projects/server/procedures.ts:16). The comment says the first 5 words.

Some facts about the code that the model keeps:

- A failed `createOrUpdateFiles` call does not store its result back. The map it wrote to is the state's own object, though, so the entries written before the failure stay in the state (`CodeAgent.PartialWriteKept`).
- The empty-value check runs after the progress message exists and the sandbox has been provisioned.
- The returned title is always `"Fragment"`, whatever title was generated.

## Model

| member | source | states |
|---|---|---|
| CodeAgent.AgentRun.constructor | src/inngest/functions.ts:27-28 | a run starts with an empty summary, no files, step 0 and an empty history |
| CodeAgent.AgentRun.UpdateProgress | src/inngest/functions.ts:31-45 | the step counter goes up by exactly one; every progress message of the project, and no other message, gets the step name, the new counter and the total 7; RESULT and non-progress rows are unchanged |
| CodeAgent.AgentRun.Terminal | src/inngest/functions.ts:138-161 | never fails: the captured stdout on success; otherwise "Command failed: " with the error and what stdout and stderr had captured so far (nothing when the connection failed) |
| CodeAgent.CapturedAppend | src/inngest/functions.ts:146-151 | capturing a stream is appending: later chunks follow earlier ones |
| CodeAgent.AgentRun.CreateOrUpdateFiles | src/inngest/functions.ts:175-202 | the state's files and the sandbox both hold the old contents overwritten by the entries written before the first failure; the step's value is the stored map exactly when every write completed, otherwise the error text of the connection or of the failed write; the tool itself returns nothing to the agent |
| CodeAgent.AgentRun.WriteEntries | src/inngest/functions.ts:184-191 | the write loop writes each entry to the sandbox and then to the shared map, stopping at the first failed write; the count of completed entries is the number of leading successful writes |
| CodeAgent.FirstFailure | src/inngest/functions.ts:186-189 | the completed prefix: every write before it succeeded and the one at it failed |
| CodeAgent.PartialWriteKept | src/inngest/functions.ts:184-201 | when the second of two writes fails, the first file is in the state and in the sandbox |
| FileMap.Put | src/inngest/functions.ts:188 | an assignment sets its key and leaves every other key's value unchanged |
| FileMap.PutAllGet | src/inngest/functions.ts:186-189 | after a series of assignments a key holds the content of its last entry, and a key that no entry names keeps its old value |
| FileMap.WriteAllGet | src/inngest/functions.ts:186-187 | the same for the sandbox's file system: a path exists after the writes exactly when some entry names it or it existed before, and holds its last entry's content |
| FileMap.LaterDuplicateWins | src/inngest/functions.ts:186-189 | a path listed twice in one call ends with the second content, in the state and in a sandbox holding any earlier files |
| FileMap.PutAllPaths | src/inngest/functions.ts:188 | assignments never remove keys, keep the order of existing keys and keep keys unique |
| FileMap.PutAllEmpty | src/inngest/functions.ts:311-313 | the map has no keys only when it had none and nothing was assigned |
| CodeAgent.Sandbox.Write | src/inngest/functions.ts:187 | a completed write sets that path's content in the sandbox |
| CodeAgent.AgentRun.ReadFiles | src/inngest/functions.ts:210-228 | never fails: the list holds one entry per requested path, in request order, exactly when the connection and every read succeed; otherwise one "Error reading files: " text for the first failure and no list |
| CodeAgent.AgentRun.OnResponse | src/inngest/functions.ts:232-243 | the result is returned unchanged; the summary becomes the reply exactly when the reply is non-empty and contains `<task_summary>` (a reply containing the marker is never empty, so the emptiness test adds nothing), and stays as it was otherwise |
| Text.ContainsAt | src/inngest/functions.ts:237 | a text that occurs at some position is contained |
| CodeAgent.AgentRun.RunTurn | src/inngest/functions.ts:131-244 | one agent invocation applies its tool calls in order to the state's files and the sandbox, then the response hook sets the summary |
| CodeAgent.Route | src/inngest/functions.ts:260-268 | the router stops exactly when the summary is non-empty and picks the code agent otherwise |
| CodeAgent.FirstConcluding | src/inngest/functions.ts:232-240 | the first turn whose reply would become the summary: no earlier turn's reply does |
| CodeAgent.AgentRun.RunNetwork | src/inngest/functions.ts:255-271 | a run that starts with a summary makes no turn; otherwise it makes `Iterations(turns)` turns and ends with `FinalSummary(turns)`; files and sandbox are those of exactly the turns made |
| CodeAgent.NetworkStopRule | src/inngest/functions.ts:255-271 | at most 15 turns; no turn before the last one concludes; fewer than 15 only when the last one concludes; the summary is non-empty exactly when one of the first 15 replies concludes, and it is that reply |
| CodeAgent.StopsWhere | src/inngest/functions.ts:260-271 | the facts that hold when the router loop exits fix its number of turns and its summary |
| CodeAgent.AgentRun.FormatHistory | src/inngest/functions.ts:93-111 | one history message per stored message, in order; ASSISTANT becomes `assistant` and anything else `user`; file blocks are appended only to assistant messages that have a fragment |
| CodeAgent.FilesContextShape | src/inngest/functions.ts:97-102 | a fragment without files adds nothing; otherwise the appended text starts with the first file's block header |
| CodeAgent.ResultsAfterUpdate | src/inngest/functions.ts:33-44 | progress updates leave every project's RESULT rows, which the history query reads, unchanged |
| Store.NewestResultLeftOut | src/inngest/functions.ts:76-91 | with ten or more RESULT messages, the history holds ten and leaves out the newest message |
| Store.ResultsMembers | src/inngest/functions.ts:76-83 | the RESULT query returns exactly the project's RESULT messages |
| Store.WithProgressAt | src/inngest/functions.ts:33-44 | the progress update sets the progress of exactly the project's assistant IN_PROGRESS messages and keeps every position |
| Store.WithoutProgressMembers | src/inngest/functions.ts:324-330 | the delete keeps exactly the messages that are not progress messages of the project |
| Store.DeleteAfterUpdate | src/inngest/functions.ts:33-44 | deleting the progress messages forgets every progress update made to them |
| Store.Database.CreateMessage | src/inngest/functions.ts:49-59 | a new row with a fresh id is appended and nothing else changes |
| Store.Database.UpdateProgress | src/inngest/functions.ts:33-44 | the rows become the progress update of the old rows, and ids stay below the counter |
| Store.Database.DeleteProgress | src/inngest/functions.ts:324-330 | the rows become the old rows without the project's progress messages |
| CodeAgent.AgentRun.Begin | src/inngest/functions.ts:47-62 | the progress message is created and then every progress message of the project, older ones left by an earlier unfinished run included, is updated to step 1; no message other than the project's IN_PROGRESS assistant messages changes |
| CodeAgent.AgentRun.LoadHistory | src/inngest/functions.ts:70-113 | step 2 is announced, then the history is the formatted oldest ten RESULT messages of the project |
| CodeAgent.AgentRun.Prepare | src/inngest/functions.ts:47-113 | a failed provisioning stops the run after step 1 with only the progress message created; otherwise a fresh sandbox with the template's files, step 2, and the history loaded |
| CodeAgent.AgentRun.RunWriters | src/inngest/functions.ts:273-315 | the title update, title generation, response update, response generation and deploy update happen in that order; the counter ends at 6 |
| CodeAgent.AgentRun.RunAgents | src/inngest/functions.ts:254-315 | step 3, then the network run, then the writers; summary, files and sandbox are those of the network run |
| CodeAgent.ParseAgentOutput | src/inngest/functions.ts:297-309 | no output fails; a non-text first output gives "Fragment"; plain text is returned as it is; array content is the identity map of its part objects joined, one "[object Object]" per part |
| CodeAgent.JoinParts | src/inngest/functions.ts:305 | joining n part objects gives a text of n times the length of "[object Object]" |
| CodeAgent.JoinPartsBlocks | src/inngest/functions.ts:305 | each of those blocks is "[object Object]" |
| CodeAgent.PartsTextIgnored | src/inngest/functions.ts:304-306 | array content with the same number of parts parses to the same text, whatever the parts' texts are |
| CodeAgent.IsError | src/inngest/functions.ts:311-313 | a run is an error exactly when its summary is empty or its files object has no keys |
| CodeAgent.NoConclusionIsError | src/inngest/functions.ts:255-313 | a run whose first 15 replies never conclude is an error, whatever files it wrote |
| CodeAgent.ConclusionWithFilesIsSuccess | src/inngest/functions.ts:255-313 | a run that concludes within 15 turns and wrote a file is not an error |
| CodeAgent.AgentRun.SaveResult | src/inngest/functions.ts:322-358 | the progress messages are deleted first, then an ERROR message exactly when the run is an error, then one RESULT message with the fragment (URL, parsed title, files) when both outputs parse; the effects are logged in that order, and the next free id grows by one per created message |
| CodeAgent.NoProgressRemains | src/inngest/functions.ts:322-358 | after the save step the project has no progress message left |
| CodeAgent.AgentRun.Generate | src/inngest/functions.ts:254-365 | an unreachable sandbox stops the run before the save step; otherwise the messages end as the save step leaves them and the run returns the URL, the title "Fragment", the files and the summary; the next free id grows by one per created message |
| CodeAgent.AgentRun.Execute | src/inngest/functions.ts:26-366 | the whole run: provisioning failure, empty value after trimming (only after the progress message and the sandbox exist), unreachable sandbox and success, each with its effect log and results; in every failure the only new row is the progress message and no message other than the project's IN_PROGRESS assistant messages changes, and on success the rows are those the save step leaves; the next free id grows by one per created message |
| Text.TrimEmpty | src/inngest/functions.ts:249-250 | the trimmed value is empty exactly when the value is all white space |
| CodeAgent.TwoTurnRun | src/inngest/functions.ts:164-271 | two files written in the first turn and a concluding second turn: the network stops after two turns, the state holds exactly those two files and the run is not an error |
| StringOrder.Sort | src/lib/utils.ts:18 | the sorted keys are a permutation of the keys |
| StringOrder.SortSorted | src/lib/utils.ts:18 | the sorted keys are in the default string order |
| StringOrder.SortedUnique | src/lib/utils.ts:18 | a sorted permutation is unique, so any correct sort gives the same order |
| StringOrder.BelowTotal | src/lib/utils.ts:18 | any two strings are ordered one way or the other |
| StringOrder.BelowAntisymmetric | src/lib/utils.ts:18 | strings ordered both ways are equal |
| StringOrder.BelowTransitive | src/lib/utils.ts:18 | the order is transitive |
| StringOrder.BelowPrefix | src/lib/utils.ts:18 | a proper prefix sorts strictly first |
| StringOrder.SortTwo | src/lib/utils.ts:18 | two keys come out in their order |
| FileTree.SegmentsSlash | src/lib/utils.ts:21 | a slash splits a path into the segments of its two sides |
| FileTree.SegmentsWord | src/lib/utils.ts:21 | a name without slashes is one segment |
| FileTree.EmptySegmentsIgnored | src/lib/utils.ts:21 | leading, doubled and trailing slashes do not change the segments |
| FileTree.SameSegments | src/lib/utils.ts:21 | "a//b", "/a/b" and "a/b" give the same two segments |
| FileTree.NoSegmentsNoChange | src/lib/utils.ts:21-36 | a path has no segment exactly when it is all slashes, and such a path leaves the tree unchanged |
| FileTree.Find | src/lib/utils.ts:26 | a lookup finds a value exactly when the key is present |
| FileTree.Assign | src/lib/utils.ts:26-35 | assigning sets that key and leaves every other key's value |
| FileTree.InsertFilePath | src/lib/utils.ts:21-36 | the cursor walk with the directory objects rebuilt equals the value-level insertion of one path |
| FileTree.InsertKeys | src/lib/utils.ts:24-36 | an insertion adds only a missing top segment, at the end |
| FileTree.LeafPlaced | src/lib/utils.ts:33-36 | the final segment becomes a file leaf reachable along the whole path |
| FileTree.DirectoryReused | src/lib/utils.ts:24-30 | a directory already present is reused: its entries stay first, with the rest of the path inserted into it |
| FileTree.DirectoryOverFile | src/lib/utils.ts:26-28 | a directory segment that names an earlier file replaces the file by a fresh directory |
| FileTree.FileOverDirectory | src/lib/utils.ts:33-36 | a file segment that names an earlier directory replaces the whole directory |
| FileTree.InsertKeepsOther | src/lib/utils.ts:20-37 | inserting a path leaves everything along a path that parts ways with it as it was |
| FileTree.InsertPreserves | src/lib/utils.ts:20-37 | every insertion keeps each object's keys distinct and leaves no directory empty |
| FileTree.BuildTreeInvariant | src/lib/utils.ts:16-37 | the built tree lists no key twice in an object and has no empty directory |
| FileTree.FilesBecomeLeaves | src/lib/utils.ts:16-37 | a path that shares no position with another path, except duplicates of itself, ends up as a file leaf |
| FileTree.ConvertNode | src/lib/utils.ts:39-62 | the recursive loop equals the value-level rendering of a node |
| FileTree.ConvertShape | src/lib/utils.ts:48-58 | in a tree without empty directories each entry renders as one item: a file as its name, a directory as a list of its name followed by its entries' items |
| FileTree.ConvertChildrenLength | src/lib/utils.ts:46-61 | one item per entry |
| FileTree.ConvertFilesToTreeItems | src/lib/utils.ts:9-67 | the whole function equals the value-level tree items of the file map |
| FileTree.TreeItemsShape | src/lib/utils.ts:64-66 | the result is a top-level list with one item per top-level entry, and it is empty exactly when no path has a segment |
| FileTree.EmptyFilesNoItems | src/lib/utils.ts:64-66 | an empty map gives `[]` |
| FileTree.DirectoryWinsOverEarlierFile | src/lib/utils.ts:18-36 | "a" sorts before "a/b", so the directory "a" replaces the file "a" |
| FileTree.FileWinsOverEarlierDirectory | src/lib/utils.ts:18-36 | "/a/b" sorts before "a", so the file "a" replaces the directory "a" |
| Projects.UntitledWhenNoNameChar | src/modules/projects/server/procedures.ts:11-19 | the name is "untitled-project" exactly when no character lowers to a letter or digit |
| Projects.WordsWhenNameChar | src/modules/projects/server/procedures.ts:11-15 | the prompt has words exactly when some character lowers to a letter or digit |
| Projects.Cleaned | src/modules/projects/server/procedures.ts:13 | the cleaned text's characters are exactly the letters, digits and white space of the lowered text, and it is no longer |
| Projects.CleanedAppend | src/modules/projects/server/procedures.ts:13 | the replacement is an in-order filter: cleaning a concatenation cleans each part and keeps their order |
| Projects.CleanedKeeps | src/modules/projects/server/procedures.ts:13 | text made only of letters, digits and white space comes out unchanged |
| Projects.WordsShape | src/modules/projects/server/procedures.ts:13-15 | every word is a non-empty run of letters and digits |
| Projects.NameKeepsFirstFourWords | src/modules/projects/server/procedures.ts:16-19 | the name is the first one to four words joined by "-" and followed by "..."; splitting its body on "-" gives those words back |
| Projects.KeptWordsShape | src/modules/projects/server/procedures.ts:13-16 | the kept words are non-empty letters and digits without hyphens |
| Projects.NameCharset | src/modules/projects/server/procedures.ts:13-19 | the name uses only lowercase letters, digits, "-" and "." |
| Projects.NameHyphens | src/modules/projects/server/procedures.ts:15-19 | the name does not start with a hyphen and never has two in a row |
| Projects.JoinHyphens | src/modules/projects/server/procedures.ts:19 | joining non-empty hyphen-free words with "-" neither starts nor ends with a hyphen and has no two in a row |
| Projects.JoinChars | src/modules/projects/server/procedures.ts:19 | a join holds only the characters of the pieces and of the separator |
| Text.SplitJoin | src/modules/projects/server/procedures.ts:19 | splitting a join on its one-character separator gives the pieces back when no piece holds it |
| Text.JoinSplit | src/modules/projects/server/procedures.ts:14-19 | joining the pieces of a split with its separator gives the string back |
| Projects.ValidateValue | src/modules/projects/server/procedures.ts:55-58 | the value passes exactly when its JavaScript length, in UTF-16 code units, is 1 to 1000, and passes unchanged; a failure is BAD_REQUEST |
| Projects.ValidateValueUnits | src/modules/projects/server/procedures.ts:55-58 | a value of Basic Multilingual Plane characters may have up to 1000 of them; one made only of characters beyond it may have at most 500 |
| Text.Utf16Length | src/modules/projects/server/procedures.ts:55-58 | a string's UTF-16 length lies between its number of characters and twice that, and is 0 only for the empty string |
| Text.Utf16LengthBmp | src/modules/projects/server/procedures.ts:55-58 | the UTF-16 length equals the number of characters exactly when no character is beyond the Basic Multilingual Plane |
| Text.Utf16LengthAstral | src/modules/projects/server/procedures.ts:55-58 | a string of characters beyond the Basic Multilingual Plane is twice as long in UTF-16 |
| Projects.ChargeError | src/modules/projects/server/procedures.ts:62-76 | no error exactly when the charge succeeds; a thrown `Error` is BAD_REQUEST "Something went wrong"; any other thrown value is TOO_MANY_REQUESTS "You have run out of credits" |
| Projects.Create | src/modules/projects/server/procedures.ts:52-101 | a failed validation or charge returns its error and changes nothing; otherwise one project with the derived name, one USER/RESULT message with the value, and one run event with the value and the new id, in that order |
| Store.Database.CreateProject | src/modules/projects/server/procedures.ts:78-90 | the project and its nested first message are appended |
| Projects.Outbox.Send | src/modules/projects/server/procedures.ts:92-98 | the event is appended to the queue |
| Projects.FindProjectSpec | src/modules/projects/server/procedures.ts:30-35 | the lookup finds a project with that id and that user, and finds none exactly when no such project exists |
| Projects.GetOneSpec | src/modules/projects/server/procedures.ts:23-43 | an empty id is BAD_REQUEST "Project ID is required"; otherwise NOT_FOUND "Project not found" exactly when no project of the user has that id, and the project itself otherwise |
| FileExplorer.LanguageAfterLastDot | src/components/file-explorer.tsx:26-28 | only the text after the last dot decides the language |
| FileExplorer.LanguageWithoutDot | src/components/file-explorer.tsx:26-28 | a name without a dot gives the whole name lowered, or "txt" when empty |
| FileExplorer.LanguageTrailingDot | src/components/file-explorer.tsx:27 | a trailing dot gives "txt" |
| FileExplorer.LanguageHasNoDot | src/components/file-explorer.tsx:27 | the language is never empty and never contains a dot |
| Text.LastPieceAfter | src/components/file-explorer.tsx:27 | the last piece of a split is the last piece of what follows the last separator |
| Text.SplitAround | src/components/file-explorer.tsx:27-31 | a separator splits a string into the pieces of its two sides |
| Text.SplitPieces | src/components/file-explorer.tsx:27-31 | the pieces of a split hold no separator and only characters of the string |
| FileExplorer.BreadcrumbShape | src/components/file-explorer.tsx:30-80 | the last segment is the only page; up to three segments all are shown in order with no ellipsis; beyond three only the first and the last, with an ellipsis between |
| FileExplorer.AllCrumbsTexts | src/components/file-explorer.tsx:35-53 | the short form shows every segment in order |
| FileExplorer.AllCrumbsPages | src/components/file-explorer.tsx:35-53 | in the short form only the last segment is the page and no ellipsis appears |
| FileExplorer.CollapsedShape | src/components/file-explorer.tsx:54-71 | the collapsed form shows the first and the last segment, an ellipsis between, and the last as the only page |
| FileExplorer.TextsAppend | src/components/file-explorer.tsx:30-80 | the shown texts of consecutive crumbs follow each other |
| FileExplorer.Explorer.constructor | src/components/file-explorer.tsx:82-87 | the first key is selected, or nothing when there are no files; not copied |
| FileExplorer.Explorer.CurrentPane | src/components/file-explorer.tsx:125-152 | the code pane shows exactly when a non-empty selection has non-empty content; its path is the selection, with that file's content and the language of that path |
| FileExplorer.Explorer.HandleFileSelect | src/components/file-explorer.tsx:93-100 | the selection changes only to a path with non-empty content and stays otherwise; it always names a key of the files |
| FileExplorer.Explorer.HandleCopy | src/components/file-explorer.tsx:102-108 | when content is shown, it is written to the clipboard and the flag is set; otherwise nothing changes |
| FileExplorer.Explorer.ResetCopied | src/components/file-explorer.tsx:106 | the reset timer clears the flag |
| FileExplorer.SelectThenShow | src/components/file-explorer.tsx:93-145 | selecting a non-empty path with content makes the pane show that file's code and language |
| MessagesView.DisplayMessagesSpec | src/modules/projects/ui/components/messages-container.tsx:56-58 | the list shows exactly the messages that are not IN_PROGRESS |
| MessagesView.DisplayMessagesAppend | src/modules/projects/ui/components/messages-container.tsx:56-58 | the filter keeps the order: the list of two runs of messages is the two lists one after the other |
| MessagesView.ProgressMessageSpec | src/modules/projects/ui/components/messages-container.tsx:51-53 | the progress message is the first assistant IN_PROGRESS message, and there is none exactly when no such message exists |
| MessagesView.LastAssistantSpec | src/modules/projects/ui/components/messages-container.tsx:30-32 | the last assistant message has no assistant message after it, and there is none exactly when no assistant message exists |
| MessagesView.LoadingIndicatorSpec | src/modules/projects/ui/components/messages-container.tsx:47-88 | the indicator shows exactly when the last message is the user's or some assistant message is IN_PROGRESS |
| MessagesView.MessagesContainer.OnMessages | src/modules/projects/ui/components/messages-container.tsx:29-41 | the effect's new state is the auto-activate rule applied to the old state |
| MessagesView.AutoActivateSpec | src/modules/projects/ui/components/messages-container.tsx:34-40 | a last assistant message with a fragment and a new id opens its fragment and is remembered; one without a fragment changes nothing |
| MessagesView.AutoActivateIdempotent | src/modules/projects/ui/components/messages-container.tsx:29-41 | a second run of the effect on the same messages changes nothing |
| MessagesView.ClickSurvivesPolls | src/modules/projects/ui/components/messages-container.tsx:29-76 | a fragment opened by hand is not replaced by polls that bring no new assistant message |
| MessagesView.SameLastAssistantOnce | src/modules/projects/ui/components/messages-container.tsx:29-41 | polls that all end on the same assistant message activate its fragment at most once |
| MessagesView.MessagesContainer.OnFragmentClick | src/modules/projects/ui/components/messages-container.tsx:76 | a click opens that message's fragment |
| MessagesView.MessagesOfMembers | src/modules/messages/server/procedures.ts:14-24 | the polled query returns exactly the project's messages |
| MessagesView.LoadingEndsWhenRunSaves | src/modules/projects/ui/components/messages-container.tsx:29-82 | once a run has saved its result, after an ERROR message or without one, the indicator is hidden and the new fragment opens |

## Left out

- The sandbox service, the database, the language models, the credit limiter and the event queue are not modelled. For the sandbox and the credit limiter, whether the call succeeds is a parameter of the model; for the others only the value they return is.
- `Projects.Create`, `CodeAgent.AgentRun.Begin`, `CodeAgent.AgentRun.LoadHistory`, `CodeAgent.AgentRun.RunAgents`, `CodeAgent.AgentRun.RunWriters`, `CodeAgent.AgentRun.SaveResult`: every database write, `network.run`, the title and response generators and `inngest.send` are taken to succeed. Their thrown errors are not modelled. So the model does not show that a `project.create` throwing after `consumeCredits` leaves the credit spent and no project. Nor does it show that an `inngest.send` throwing leaves the project and its message in place with no run started.
- `CodeAgent.ParseAgentOutput`: array content is modelled as a list of text-part objects, which `join("")` renders as "[object Object]" each. The message type comes from the agent library, which is not part of this model, so this shape of the parts is an assumption.
- `step.run` memoisation, replay and retry are not modelled. Each step runs once.
- Concurrency between runs, and the 30-minute sandbox timeout, are not modelled.
- `console.error` logging is left out.
- The JSON formatting of `readFiles`' list is left out. `CodeAgent.AgentRun.ReadFiles` returns the entries themselves.
- The prompts and the title and response agents are oracle outputs. Only `parseAgentOutput` on them is modelled.
- `CodeAgent.AgentRun.Terminal`: the success output is taken to be the streamed stdout. The sandbox service's own `result.stdout` is not part of this model.
- The agent network's internals, beyond the router rule and the 15-turn cap, are not modelled. This covers how the model sees the history and the request.
- JavaScript object keys that look like integers enumerate first. The model keeps plain insertion order for every key.
- Objects inherit keys such as "constructor" from their prototype, which `!current[part]` would see. The model does not have them.
- `toLowerCase` is modelled for ASCII letters only.
- `\s` and `trim` use the JavaScript white-space set. The other Unicode line and format characters are not modelled.
- Strings are sequences of `char`, one per Unicode scalar value. JavaScript's `length` is modelled as `Text.Utf16Length`. Indexing, `split` and `slice` are modelled per character, not per UTF-16 code unit.
- `StringOrder.Below`: the default sort compares UTF-16 code units. For characters outside the Basic Multilingual Plane this differs from the model's per-character order.
- `split(/\s+/)` followed by the empty-word filter gives the same words as splitting on each white-space character and filtering. The model uses the second form.
- `FileTree`: the tree objects are modelled as values. The source's in-place mutation through the moving `current` reference is modelled by the frames the cursor passes. The rebuild of those frames replaces the sharing of one object.
- `FileExplorer.Explorer`: the `files` property is fixed for the explorer's lifetime. Later changes to it, and the memoised tree, are not modelled.
- The tree view's rendering and the code highlighter are not modelled.
- `isActiveFragment`, scrolling, animation delays and the 2000 ms polling interval are not modelled. A poll is one call of `OnMessages` with the fetched list.
- The 2000 ms copy-reset timer is the separate method `ResetCopied`, with no time.
- The loading component's percentage uses floating-point arithmetic and is left out. Only the fields passed to it are modelled.
- `getMany` of projects is left out: it is an ordered query with no logic of its own. Messages' query is modelled only as `MessagesView.MessagesOf`: the project's rows in creation order.
- `cn`, a class-name helper, is left out.
- The other UI components and the authentication are left out.
