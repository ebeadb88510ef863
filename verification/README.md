# Proofs about an agent controller and its selective staging

The repository stages parts of a Git diff and runs coding agents: a controller starts sandboxed
workers, keeps their records and transcripts, and answers their requests over a private socket; a
worker alternates between the model and its tools. This project models the parts of it that are
loops over data or protocols between concurrent parties, and proves what they keep in every run.

`dafny verify dfyconfig.toml` checks everything. Code that updates state in the original is a method
or a class here; its contract ties the result or the new state to a function, and the theorems are
about that function over all inputs or all runs. Code between two `await`s is one step, and steps of
different parties interleave freely.

## How it is organised

**Selective staging** (`git_patch_selection.py`). `PatchFormat` has lines, decimals and hunk headers;
`PatchSelection` the parser, the selection, the segmentation and the printer, as loops and as functions
they are equal to; `PatchReader` an independent reader driven by the counts in the headers; `PatchStaging`
what applying a patch means and what the edit script of a diff is; `PatchCounts` what can be counted on a
diff; `PatchInputs` what the characters of a diff mean, down to a header whose counts are left out, as
`git diff -U0` leaves them out for a changed line. A line of a file has its text and whether it ends with a newline, and only the last one may lack it.
These modules state results about staging:

- `PatchLaws`: when the patch for a selection, applied to the old file, makes exactly the selected changes,
  final newline included. The original does not do this for every diff. It never prints a line
  `\ No newline at end of file`, so the patch claims a newline for the line before it; and its body loop stops
  there, so a changed line after it in the same hunk cannot be selected. `StagingTheorem` is for one
  selection: staging is exact if and only if no picked line is at or after a marked line of its hunk, or right
  before a marked context line. `CleanTheorem` is for all: every selection is exact if and only if each marker
  follows a context line that is not next to a changed line. `MarkerWitness` and `NewlineWitness` are two small
  diffs for which it fails, `CleanWitness` one for which it holds.
- `PatchDuality`: unstaging is exact under the same condition (`ReverseTheorem`), and applying forward to the
  old file for S equals applying in reverse to the new file for the complement of S; swapping `-`/`+` and
  old/new commutes with building the patch.
- `PatchComposition`: selecting S and then T prints the same text as selecting their intersection, for any
  input whatever.
- `PatchHeaders`: order, disjointness and start lines of the emitted hunks, and by how much a printed new
  start misses the line where the hunk lands.
- `PatchPosix` and `PatchPosixLaws`: the same for the other numbering of empty ranges.

There are two numberings of a range without lines. The original's cursors take a start for the next line not
yet consumed whatever the counts are, and `WellFormed` and the laws of the first four modules read diffs and
patches that way. The section "Diff -u or -U Output Format" of the POSIX `diff` utility has the start of an
empty range name the line before it, as `git diff -U0` prints it; `WellFormedPosix` and `StagesPosix` read
diffs and patches that way. A hunk that only adds or only deletes keeps its numbering, and for such diffs the markers
are all that can go wrong (`PureTheorem`). But where a selection leaves a printed hunk without a line on a
side on which its hunk of the diff has lines, the original prints a start one line too late. `NamesTheorem`
says that the printed patch is the intended one if and only if there is no such hunk; `PosixTheorem` says
exactly when staging and unstaging succeed all the same, namely if each late hunk only repeats the line it
slides over; `LateWitness` is a diff for which staging fails. Emitted new starts stay in the numbering of the
full diff, so patches are applied forward by old starts and in reverse by new starts.

**Agents** (`agent_controller.py`). `AgentLifecycle` is a state machine over records, runtimes, starts and
submissions in flight; `AgentController` is the object whose methods make those steps; `AgentLaws` and
`AgentRecords` have the results over runs. A submission can land after the worker has exited, since `_submit_patch` writes the
record after its awaits, and the model allows it.

**Workers** (`agent_worker.py`). `WorkerWindow` is the byte-bounded window sent to the model, described
without its algorithm (`IsWindow`), computed by a loop, and shown to be unique. `WorkerTurns` is the turn
with its tool calls, and the bounded child. `WorkerRuns` interleaves the worker, the controller's transcript
and operators. `patch.submit` reports `awaiting_review` in the middle of a turn, so an operator's message can
land between tool results. `WorkerFeedback` has what follows from that: the stored transcript stops being made
of whole exchanges exactly when a message is accepted in the middle of an exchange and a later result of that
turn is stored (`BreaksTheorem`); until then no request holds an orphaned result (`UnbrokenRequests`); and
afterwards the next request made from the stored transcript does, in a run that starts anywhere and whatever
the encoder's sizes are, if the message and the results fit the byte limit (`FeedbackReaches`).

**RPC** (`agent_ipc.py`). `RpcPairing` has connections with two FIFOs each, in the dialect of sections 4 and 5
of the JSON-RPC 2.0 Specification; `RpcEndpoints` has the two ends. A cancelled call leaves its connection open,
so its answer is still to come: `MismatchTheorem` says that a response is mismatched if and only if a call was
cancelled on its connection, and `MismatchWitness` is a run in which one is.

**Mounts** (`agent_sandbox.py`). `MountReplay` gives a list of mount operations its meaning, with symbolic
links. A link or mount whose own place leads through a link lands elsewhere and may hide anything there, so from
then on nothing is known of any path. `MountPlan` has the checks and the construction; `MountLaws` says where the
project, the runtime targets and the home paths end up. Two gaps of the checks show as exact conditions: a runtime
mount of a *file* at or above the project is accepted and hides it (`RuntimeFileWitness`), and configured links are
accepted that lead to places of the plan, for example one above the project or above home (`LinkWitness`,
`HomeLinkWitness`). `LinksAside` says which links do not.

**Interactive sessions** (`interactive_workflow.py`), **uploads** (`remote_agent_upload.py`) and the **Responses
translation** (`llm.py`) have one module each. `start` drops an open request without resolving it, so the
results about open requests are between one start and the next, and `StartOrphans` says exactly when a caller is
left to its timer; `OrphanWitness` is a run in which one is. A daemon installs either the blocking or the awaited start handler; `BothHandlers` shows that
uploads need this.

## Model

| member | source | states |
|---|---|---|
| `PatchFormat.HeaderRoundTrip` | git_patch_selection.py:6-8 | A printed header parses back to its four numbers. |
| `PatchFormat.HeaderTheorem` | git_patch_selection.py:6-8 | Exactly the lines of that form are headers: two numerals, each with a count or none for 1, the three marks, and any text after them. |
| `PatchFormat.HeaderForms` | git_patch_selection.py:6-8 | All four ways to write a header parse to its numbers, with any text after it. |
| `PatchFormat.ValueConcat` | git_patch_selection.py:53-54 | Each digit of a number counts by its place. |
| `PatchFormat.ValueOfDigit` | git_patch_selection.py:53-54 | A digit has its value. |
| `PatchFormat.ShowShortest` | git_patch_selection.py:154 | A number is printed without leading zeros. |
| `PatchFormat.SplitJoin` | git_patch_selection.py:33-35 | Joining lines and splitting the text gives the lines back. |
| `PatchFormat.SplitUnended` | git_patch_selection.py:33 | Text after the last line end is a line of its own. |
| `PatchInputs.LineTheorem` | git_patch_selection.py:57-109 | The first character of a line decides whether it is in the body, on which sides it is, which cursors it moves and which numbers pick it. |
| `PatchInputs.StartsTheorem` | git_patch_selection.py:45-55 | Diffs whose headers have the same starts give the same patch, whatever their counts and tails. |
| `PatchInputs.FormsTheorem` | git_patch_selection.py:6-8 | On text: a header in any of its forms gives the patch that both counts written out give. |
| `PatchInputs.SegmentsTheorem` | git_patch_selection.py:104-139 | Printed are the maximal runs of picked lines and context lines next to one, each as one hunk, and all of them. |
| `PatchInputs.EmptyTheorem` | git_patch_selection.py:111-161 | The patch is empty if and only if no line that was read is picked. |
| `PatchInputs.OneLineWitness` | git_patch_selection.py:28-163 | One changed line without counts, its deletion staged: the whole output text. |
| `PatchSelection.CollectEntries` | git_patch_selection.py:57-102 | The body loop with its two cursors takes exactly the entries of the longest run of body lines. |
| `PatchSelection.SelectIndexes` | git_patch_selection.py:104-109 | The selected indexes are those of picked changed lines, both directions. |
| `PatchSelection.IncludeContext` | git_patch_selection.py:114-123 | Included are the picked lines and the context lines next to one, both directions. |
| `PatchSelection.CutSegments` | git_patch_selection.py:125-139 | The loop over sorted indexes cuts out exactly the maximal runs of included lines. |
| `PatchSelection.EmitHunks` | git_patch_selection.py:141-158 | Each segment is printed as one hunk with starts, counts and its raw lines. |
| `PatchSelection.BuildSelectedPatch` | git_patch_selection.py:28-163 | The whole function equals `SelectedText`, the function the laws are about. |
| `PatchReader.PrintedParsesBack` | git_patch_selection.py:141-163 | Printed hunks are read back, cursors included, by the original's parser and by the count-driven reader. |
| `PatchReader.SelectedPatchReads` | git_patch_selection.py:28-163 | For every input the output is a readable diff with exactly the selected hunks. |
| `PatchStaging.ScriptOldSide` | git_patch_selection.py:53-102 | The old side of a diff's edit script is the old file. |
| `PatchStaging.ScriptNewSide` | git_patch_selection.py:53-102 | Its new side is the new file. |
| `PatchStaging.TurnsSelected` | git_patch_selection.py:104-158 | Applying the selected hunks at their old starts makes exactly the picked changes of the script. |
| `PatchReader.ParserSees` | git_patch_selection.py:57-100 | The original's parser sees each hunk of a readable diff up to its first marked line, and takes that line for one with a newline. |
| `PatchReader.MarkedDiffReads` | git_patch_selection.py:57-100 | The count-driven reader reads back any diff that is written with its markers. |
| `PatchLaws.HunksTheorem` | git_patch_selection.py:45-163 | For one selection from a diff's hunks: staging is exact if and only if no marked line meets a picked one. |
| `PatchLaws.StagingTheorem` | git_patch_selection.py:45-163 | The same for the printed text, read back and applied strictly: no picked line at or after a marked line of its hunk, or right before a marked context line. |
| `PatchLaws.CleanTheorem` | git_patch_selection.py:45-163 | Staging is exact for every selection if and only if each marker follows a context line that is not next to a changed line. |
| `PatchLaws.StageAllOrNothing` | git_patch_selection.py:104-163 | Picking every change stages the new file exactly if no marker is met; picking none leaves the old file. |
| `PatchLaws.MarkerLosesChange` | git_patch_selection.py:57-100 | Every line after a marked line of its hunk is a change that, selected alone, gives the empty patch. |
| `PatchLaws.MarkerWitness` | git_patch_selection.py:99-100 | A concrete diff whose added line cannot be staged. |
| `PatchLaws.NewlineWitness` | git_patch_selection.py:141-158 | A concrete diff that loses no line, but whose patch claims a newline the file does not have. |
| `PatchLaws.CleanWitness` | git_patch_selection.py:57-100 | The same changes without markers meet the condition. |
| `PatchDuality.SwapCommutes` | git_patch_selection.py:104-158 | Swapping sides commutes with selecting and cutting hunks. |
| `PatchDuality.SwapCommutesOnLines` | git_patch_selection.py:28-163 | The same on whole diffs, for every input. |
| `PatchDuality.ReverseIsForward` | mcp_tgit.py:498-500 | Applying in reverse by new starts is applying the swapped patch. |
| `PatchDuality.ReverseTheorem` | mcp_tgit.py:478-500 | Unstaging a selection from the new file is exact under the same condition as staging it. |
| `PatchDuality.DualityTheorem` | git_patch_selection.py:28-163 | Staging S on the old file equals unstaging the complement of S from the new file, if neither meets a marker. |
| `PatchDuality.CleanDuality` | git_patch_selection.py:28-163 | For a diff whose markers are away from changes, for every S. |
| `PatchComposition.ComposeHunks` | git_patch_selection.py:104-139 | Selecting S and then T selects their intersection, hunk by hunk. |
| `PatchComposition.OutputParses` | git_patch_selection.py:33-163 | The output parses back to the same hunks and the same text before them. |
| `PatchComposition.CompositionTheorem` | git_patch_selection.py:28-163 | On text, for every input: two selections are their intersection, and one is idempotent. |
| `PatchHeaders.DisjointSelected` | git_patch_selection.py:141-158 | Hunks selected from hunks placed in order are in order and do not overlap, on both sides. |
| `PatchHeaders.Lands` | git_patch_selection.py:145-154 | A hunk lands at its old start plus the lines gained by earlier hunks, and its new side is there. |
| `PatchHeaders.DriftSelected` | git_patch_selection.py:145-154 | Printed new start minus landing line is earlier unselected additions minus earlier unselected deletions. |
| `PatchHeaders.HeaderTheorem` | git_patch_selection.py:125-158 | All of the header arithmetic for every emitted hunk, for a selection that meets no marker. |
| `PatchPosix.NamesTheorem` | git_patch_selection.py:145-154 | Read as POSIX has it, the printed patch is the intended one if and only if no printed hunk lost all its lines of a side; separately for old and new starts. |
| `PatchPosixLaws.SlideTheorem` | mcp_tgit.py:409-430 | Hunks that start one line too late give the same file exactly if each only repeats the line it slides over, before the next hunk. |
| `PatchPosixLaws.PosixTheorem` | git_patch_selection.py:28-163 | For diffs and patches numbered as POSIX has it: exactly when one selection is staged, and exactly when it is unstaged. |
| `PatchPosixLaws.NamesEnough` | git_patch_selection.py:145-154 | Where no printed hunk lost all its lines of the side looked for, only markers matter. |
| `PatchPosixLaws.PureTheorem` | git_patch_selection.py:145-154 | For diffs whose hunks only add or only delete, every selection is staged and unstaged exactly unless it meets a marker. |
| `PatchPosixLaws.PosixDuality` | git_patch_selection.py:28-163 | Staging S equals unstaging its complement, where both are exact. |
| `PatchPosixLaws.PosixHeaders` | git_patch_selection.py:125-158 | The header arithmetic where all starts are named right. |
| `PatchPosixLaws.LateWitness` | git_patch_selection.py:145-154 | A concrete diff and selection whose patch names line 2 of a file of one line. |
| `PatchPosixLaws.PureWitness` | git_patch_selection.py:145-154 | A concrete addition that is staged exactly for every selection, and that the other numbering does not describe. |
| `AgentController.AgentController.constructor` | agent_controller.py:193-206 | Records of running workers are marked stopped, all others kept. |
| `AgentController.AgentController.StartAgent` | agent_controller.py:255-334 | The new record, with the given transcript and the smaller of the two call limits; refused for an empty or oversized history. |
| `AgentController.AgentController.RecoverAgent` | agent_controller.py:825-890 | A child record with the parent's transcript and the new messages, exactly if the parent is eligible; the parent is held until the start ends. |
| `AgentController.AgentController.FinishStart` | agent_controller.py:370-416 | The runtime is registered, or everything made for the start is removed; the parent is released. |
| `AgentController.AgentController.ModelComplete` | agent_controller.py:505-541 | Admission and both counters in one step. |
| `AgentController.AgentController.AppendToHistory` | agent_controller.py:492-503 | The messages are appended to the transcript, unless they are more than 20,000 or the agent is unknown. |
| `AgentController.AgentController.UpdateState` | agent_controller.py:543-551 | A worker reports only four states, and never over a terminal one. |
| `AgentController.AgentController.FinishSubmit` | agent_controller.py:577-581 | The head is recorded if the record still exists. |
| `AgentController.AgentController.MonitorProcess` | agent_controller.py:593-609 | The recorded exit, by stop request and return code. |
| `AgentController.AgentController.EnforceRuntimeLimit` | agent_controller.py:611-622 | The limit requests a stop of a running worker only. |
| `AgentController.AgentController.AcknowledgeApplied` | agent_controller.py:687-709 | The head is acknowledged only for an inactive worker; a repetition changes nothing. |
| `AgentController.AgentController.RejectPatch` | agent_controller.py:711-733 | The same for a rejection. |
| `AgentController.AgentController.ReapOne` | agent_controller.py:746-761 | Record, snapshot and runtime are removed exactly if the agent may be reaped. |
| `AgentController.AgentController.ReapAgents` | agent_controller.py:735-762 | Named agents are reaped in order and each is reported as it was found in its turn, duplicates without effect; nothing is done if one is unknown. |
| `AgentController.ReapedWhen` | agent_controller.py:746-761 | Reaped are exactly known, stopped or failed agents without a running worker whose submitted head was decided about; review is asked for exactly otherwise undecided or waiting ones. |
| `AgentController.AgentController.ContinueAgent` | agent_controller.py:891-900 | Messages are appended and the state set, for a live agent in a state that allows it. |
| `AgentController.AgentController.StopAgent` | agent_controller.py:902-924 | A stop is requested, or an inactive agent under review is marked stopped. |
| `AgentLaws.Reachable` | agent_controller.py:193-951 | The invariant holds in every run of a controller, whatever records it found. |
| `AgentLaws.StepRemoves` | agent_controller.py:932-951 | A record disappears only by a failed start that never submitted, or by reaping decided work of a worker whose exit is recorded. |
| `AgentLaws.SubmissionProtects` | agent_controller.py:553-581 | From a submission on, record and snapshot stay in every interleaving without a decision about that head. |
| `AgentLaws.ProtectionEnds` | agent_controller.py:687-733 | Only a decision about a worker that is not running ends it, or an already decided head submitted again. |
| `AgentLaws.ExitTheorem` | agent_controller.py:593-622 | From registration on no interleaving makes the state terminal before the monitor; it records stopped exactly if a stop or the limit came first, else failed or halted by return code. |
| `AgentLaws.BudgetTheorem` | agent_controller.py:505-528 | In every run the persisted count grows by the calls admitted, and never beyond the limit. |
| `AgentLaws.BudgetFromStart` | agent_controller.py:326-326 | For a new agent: at most the smaller of its own and the controller's limit. |
| `AgentLaws.RecoveryTheorem` | agent_controller.py:837-890 | The child's transcript starts with the parent's and the new messages for good; the parent is untouched by both ends; no other child of it is being started. |
| `AgentRecords.TranscriptTheorem` | agent_controller.py:492-503 | In every run the transcript is what it was and all messages accepted since, in order, each once. |
| `AgentRecords.StartTranscript` | agent_controller.py:255-334 | A new agent's is that of its request, followed by those. |
| `AgentRecords.RecoveryTranscript` | agent_controller.py:881-887 | A recovered agent's is its parent's and the new messages, each once, followed by those. |
| `AgentRecords.HeadsTheorem` | agent_controller.py:553-733 | In every run the submitted head is that of the last submission, the acknowledged and the rejected one what was submitted at the last accepted acknowledgement and rejection. |
| `AgentLaws.SubmittedNotRecovered` | agent_controller.py:843-844 | An agent that submitted a patch is never recovered afterwards, in any run. |
| `AgentLaws.TranscriptGrows` | agent_controller.py:492-503 | Stored transcripts only grow. |
| `WorkerWindow.ApiMessages` | agent_worker.py:509-539 | The result is the window that `IsWindow` describes: a contiguous, bounded, maximal block of the last 120 cleaned messages, its newest possibly cut, without results at its front. |
| `WorkerWindow.CleanEach` | agent_worker.py:509-513 | A message is sent, without other keys, exactly if it has a role. |
| `WorkerWindow.RecentLast120` | agent_worker.py:516 | The last 120 messages are considered. |
| `WorkerWindow.ShortenTheorem` | agent_worker.py:520-524 | Of a text that is too big the end is kept, as much as fits with 256 bytes to spare, or a note. |
| `WorkerWindow.TrimSuffix` | agent_worker.py:535-538 | Only tool results are dropped at the front, and all that are there. |
| `WorkerWindow.WindowUnique` | agent_worker.py:509-539 | The description determines the window. |
| `WorkerWindow.WindowBounded` | agent_worker.py:515-533 | Within the byte limit whenever the prompt is, and at most 120 messages. |
| `WorkerWindow.NoOrphansMeans` | agent_worker.py:535-538 | No orphans, read by position, is the same as read along the transcript. |
| `WorkerWindow.OrphanTheorem` | agent_worker.py:509-539 | No window holds an orphaned result, for all prompts and sizes, if and only if in the last 120 messages results follow their calls. |
| `WorkerWindow.BlockTheorem` | agent_worker.py:509-539 | For one prompt and one size, whatever they are: the window holds no orphaned result if and only if in the messages it was made from results follow their calls. |
| `WorkerWindow.NoOrphansSent` | agent_worker.py:509-539 | In particular for every history of whole exchanges. |
| `WorkerTurns.AgentWorker.Persist` | agent_worker.py:541-545 | The worker's copy grows only with a confirmed append. |
| `WorkerTurns.AgentWorker.HandleToolCalls` | agent_worker.py:633-667 | What both transcripts gain from the calls of a turn, and how it ends. |
| `WorkerTurns.AgentWorker.TakeTurn` | agent_worker.py:676-698 | The same for a whole turn. |
| `WorkerTurns.AgentWorker.RunChild` | agent_worker.py:547-583 | At most twelve requests from a copy of the history, each after the first following an answer with one to 32 calls; the worker's own is not touched. |
| `WorkerTurns.ChildBegins` | agent_worker.py:556-557 | A child's first request is the history and its task. |
| `WorkerTurns.ChildGrows` | agent_worker.py:564-580 | Each further one adds the answer and one result per call, with its id and its text as far as it is shown. |
| `WorkerTurns.ChildExchanges` | agent_worker.py:557-581 | A child's requests are made of exchanges exactly if the history is and every answered call had its id among the calls. |
| `WorkerTurns.TurnTheorem` | agent_worker.py:633-698 | All of a turn: the answer and its ids; per call its id and its text, or the first 24,000 characters and a note; up to the first call that stops it; finished with a patch exactly if a submission reported success. |
| `WorkerTurns.TurnShape` | agent_worker.py:633-698 | A finished turn adds the assistant message and one result per call, in order and by id; a failed one a prefix of that. |
| `WorkerTurns.TurnExchanges` | agent_worker.py:633-698 | Finished or not, a turn keeps whole exchanges. |
| `WorkerRuns.TurnIsRun` | agent_worker.py:633-661 | The turn's method is the state machine on its steps. |
| `WorkerRuns.AgentShows` | agent_worker.py:608-704 | Which steps change the state the controller shows, and that each command is taken once. |
| `WorkerRuns.StoredIsAppends` | agent_controller.py:492-503 | The stored transcript is the first one and all accepted appends in order. |
| `WorkerRuns.CopyTheorem` | agent_worker.py:541-545 | In every run the worker's copy is the stored transcript with some messages left out. |
| `WorkerRuns.SyncedSinceRefresh` | agent_worker.py:621-631 | Without feedback since it was last read, nothing is left out. |
| `WorkerRuns.RequestTheorem` | agent_worker.py:669-704 | With feedback only outside open exchanges, and each accepted batch itself without an orphaned result, no model request of any run holds one. |
| `WorkerFeedback.BreaksTheorem` | agent_controller.py:889-903 | With feedback that neither calls nor answers, the stored transcript stops being made of exchanges if and only if feedback is accepted in the middle of one and a later result of that turn is kept. |
| `WorkerFeedback.UnbrokenRequests` | agent_worker.py:669-704 | As long as that does not happen, no model request of the run holds an orphaned result. |
| `WorkerFeedback.OrphanSent` | agent_worker.py:509-539 | If a message and the results after it fit the byte limit, whatever a message costs, every window of that transcript holds an orphaned result. |
| `WorkerFeedback.FeedbackInExchange` | agent_controller.py:577-580 | Feedback before any of the remaining results of a submitting turn comes between them and their calls for good, and the next request is made from that. |
| `WorkerFeedback.FeedbackReaches` | agent_worker.py:608-704 | Such a run exists from every stored transcript and for every first turn that submits a patch. |
| `RpcPairing.PairingTheorem` | agent_ipc.py:280-320 | In every run a returned value is the handler's result for that call's own method and params. |
| `RpcPairing.ReturnTheorem` | agent_ipc.py:300-320 | In every run, without a cancelled call on the connection: a value is returned if and only if it is the handler's result for this call, and an error raised if and only if the handler failed with its code. |
| `RpcPairing.CallRuns` | agent_ipc.py:280-320 | A call on an idle connection whose handler answers returns that answer. |
| `RpcPairing.ConnectRuns` | agent_ipc.py:148-159 | The first connection to a running server is served. |
| `RpcPairing.ServedTheorem` | agent_ipc.py:148-170 | At most one connection is served at a time. |
| `RpcPairing.MismatchTheorem` | agent_ipc.py:288-308 | A response is mismatched if and only if a call was cancelled on its connection. |
| `RpcPairing.MismatchWitness` | agent_ipc.py:288-308 | A run in which the call after a cancelled one reads the wrong answer. |
| `RpcPairing.NoMismatch` | agent_ipc.py:307-308 | Without cancellation the branch is never taken. |
| `RpcPairing.ServePeer` | agent_ipc.py:172-201 | The replies to the lines of a connection, with their codes. |
| `RpcPairing.OneLine` | agent_ipc.py:172-201 | The reply to each kind of line, with its code or the handler's outcome. |
| `RpcPairing.RepliesConcat` | agent_ipc.py:172-201 | Lines are answered one after the other, up to an invalid one without an id. |
| `RpcPairing.OneResponseEach` | agent_ipc.py:172-210 | One response per request, in order and with its id, and none to notifications. |
| `RpcEndpoints.Endpoints.ClientConnected` | agent_ipc.py:148-155 | A second connection is closed at once. |
| `RpcEndpoints.Endpoints.BeginRequest` | agent_ipc.py:288-297 | The id is taken and the request written. |
| `RpcEndpoints.Endpoints.ReadResponse` | agent_ipc.py:300-320 | The answer by id, error and result. |
| `RpcEndpoints.Endpoints.RequestTimesOut` | agent_ipc.py:304-306 | A timeout gives the connection up. |
| `RpcEndpoints.Endpoints.SendResponse` | agent_ipc.py:191-201 | One response to the request being handled. |
| `MountReplay.RedirectTheorem` | agent_sandbox.py:387-413 | After links and mounts, all is known if and only if none was placed through a link, and then exactly the paths below a link that no mount hides are redirected. |
| `MountReplay.OwnTarget` | agent_sandbox.py:401-413 | A mount that nothing later covers is found at its target, exactly if nothing was placed through a link. |
| `MountPlan.AddParentDirs` | agent_sandbox.py:234-245 | One directory operation for each missing parent, from the top, and nothing else; exactly these are then known as created. |
| `MountPlan.CheckRuntimes` | agent_sandbox.py:322-338 | The loop refuses exactly bad or overlapping runtime mounts. |
| `MountPlan.CheckLinks` | agent_sandbox.py:339-349 | The loop refuses exactly bad, repeated or overlapping links. |
| `MountPlan.CheckHomes` | agent_sandbox.py:351-373 | In any order of the requests, exactly bad or overlapping home mounts are refused. |
| `MountPlan.BuildPlan` | agent_sandbox.py:276-425 | An error exactly for the faults listed; otherwise links, private mounts, project, sorted runtime and home mounts, socket, none beyond what is configured and allowed. |
| `MountPlan.RefusalTheorem` | agent_sandbox.py:276-373 | Accepted are exactly the configurations without one of the listed faults: a bad root, a request the policy does not allow for that access, a bad or overlapping mount or link. |
| `MountPlan.PlanPermitted` | agent_sandbox.py:385-425 | Writable in a plan are only the project, the socket and home paths allowed for writing; readable only runtime mounts and home paths allowed for reading; links are the configured ones. |
| `MountPlan.TextOrder` | agent_sandbox.py:405-411 | Mounts are sorted by their first difference as strings. |
| `MountPlan.WrittenLonger` | agent_sandbox.py:405-411 | The strings that are compared are the paths with a slash before each component. |
| `MountLaws.PlanStraight` | agent_sandbox.py:387-413 | No link or mount of a plan is placed through a link exactly if the configured links are aside: a condition on the configuration alone. |
| `MountLaws.ProjectTheorem` | agent_sandbox.py:399-408 | The project is found at the snapshot, writable, exactly if the links are aside and no file is mounted at or above it. |
| `MountLaws.RuntimeTheorem` | agent_sandbox.py:404-413 | A runtime target is found at its source, read-only, exactly if the links are aside and the socket is not mounted at or above it. |
| `MountLaws.HomeTheorem` | agent_sandbox.py:351-413 | A home path is found at its source with the requested permission exactly if the links are aside (the socket not being mounted at or above it). |
| `MountLaws.RuntimeFileWitness` | agent_sandbox.py:322-338 | An accepted configuration whose runtime file hides the project. |
| `MountLaws.LinkWitness` | agent_sandbox.py:339-349 | An accepted configuration with a link above the project. |
| `MountLaws.HomeLinkWitness` | agent_sandbox.py:339-373 | An accepted configuration with a link above home, through which a home mount can land on the project. |
| `MountLaws.PlainWitness` | agent_sandbox.py:387-408 | A configuration whose project is in place. |
| `InteractiveSession.SessionTheorem` | interactive_workflow.py:123-297 | At most one request since the last start is open, the pending one; no future is settled twice. |
| `InteractiveSession.AckTheorem` | interactive_workflow.py:252-297 | A caller is told ok, with its own paths, exactly if its request was acknowledged. |
| `InteractiveSession.ResultTheorem` | interactive_workflow.py:159-191 | The result is aborted exactly if an abort came since the last start, else it is that of the exit. |
| `InteractiveSession.NeedsEdit` | interactive_workflow.py:299-308 | A needed edit is reported exactly while such a request is open. |
| `InteractiveSession.StartOrphans` | interactive_workflow.py:133-139 | A start leaves a caller behind exactly if it meets an open request. |
| `InteractiveSession.OrphanWitness` | interactive_workflow.py:133-139 | A run that reaches an open request with no process running, so that the next start leaves its caller behind. |
| `InteractiveSession.StartDrops` | interactive_workflow.py:136-136 | Such a caller's future is settled by its own timer and by nothing else. |
| `InteractiveSession.Session.OnEditRequest` | interactive_workflow.py:193-250 | A second request is refused while one is open, and so is one without paths. |
| `InteractiveSession.Session.CleanUpTimeout` | interactive_workflow.py:254-260 | Only the caller's own request is cleared. |
| `InteractiveSession.Session.SubmitEditResolution` | interactive_workflow.py:267-297 | The pending future is resolved, unless a file cannot be moved back. |
| `InteractiveSession.Session.AbortNow` | interactive_workflow.py:335-374 | An open request is resolved as aborted. |
| `InteractiveSession.Session.WatchProcess` | interactive_workflow.py:159-191 | The result of an exit, aborted or not. |
| `UploadStaging.DisjointTheorem` | remote_agent_upload.py:117-186 | No upload is ever in both directories. |
| `UploadStaging.UploadTheorem` | remote_agent_upload.py:112-237 | With one kind of start handler and no cleanup, every finalized upload waits or was started once. |
| `UploadStaging.CheckoutKept` | remote_agent_upload.py:221-235 | The checkout handed to a start stays as it is until that start returns, and after a failure. |
| `UploadStaging.BlockingKept` | remote_agent_upload.py:124-149 | The same for a start that holds the lock; a successful one consumes its upload, once. |
| `UploadStaging.BothHandlers` | remote_agent_upload.py:129-149 | With both kinds one upload can be started twice and its checkout removed during a start. |
| `UploadStaging.RemoteUploadManager.FinalizeUpload` | remote_agent_upload.py:162-186 | A non-empty incoming upload is moved once. |
| `UploadStaging.RemoteUploadManager.EndPublish` | remote_agent_upload.py:147-149 | The upload is removed only on success. |
| `UploadStaging.RemoteUploadManager.EndStart` | remote_agent_upload.py:231-235 | The same after an awaited start. |
| `ResponsesTranslation.ResponseInput` | llm.py:112-157 | An error exactly if some message cannot be encoded; otherwise the items of all messages. |
| `ResponsesTranslation.AdaptResponse` | llm.py:179-236 | Texts joined, calls in order, the finish reason; an error for a failure or a nameless call. |
| `ResponsesTranslation.CallContents` | llm.py:131-142 | A call is passed on with its id, its name and its arguments, `{}` for none. |
| `ResponsesTranslation.ToolContents` | llm.py:118-126 | A tool message becomes the output of its call with its content. |
| `ResponsesTranslation.SpokenContents` | llm.py:128-157 | Any other message is sent without its calls, if it has none or its content is not null, and then its calls. |
| `ResponsesTranslation.OneItem` | llm.py:185-203 | What one item of an answer gives: texts, refusals, or a call with the id under either key. |
| `ResponsesTranslation.TextsConcat` | llm.py:185-191 | The texts of items are read one after the other. |
| `ResponsesTranslation.CallsConcat` | llm.py:194-203 | So are their calls. |
| `ResponsesTranslation.RefusalConcat` | llm.py:190-191 | The last refusal counts. |
| `ResponsesTranslation.PartsConcat` | llm.py:187-191 | The same for the parts of one item. |
| `ResponsesTranslation.ItemsConcat` | llm.py:113-157 | Encoding distributes over concatenation, errors included. |
| `ResponsesTranslation.OnePart` | llm.py:187-191 | What one part of a message gives: a text, a refusal, or nothing. |
| `ResponsesTranslation.JoinedConcat` | llm.py:207 | The texts are joined without anything between them. |
| `ResponsesTranslation.EncodingKeepsOrder` | llm.py:113-157 | The items hold exactly the history's calls and results, each in order. |
| `ResponsesTranslation.ResultAfterCall` | llm.py:118-145 | A result that follows its call still does, with the same id. |
| `ResponsesTranslation.RoundTrip` | llm.py:113-212 | Re-encoding an adapted response gives its calls in order, after at most one message with the joined text; it can be encoded exactly if all calls have an id and a name. |

## Left out

- PatchLaws.StagingTheorem: is about diffs of one file; text after the last hunk of a file and further files are not read by the count-driven reader.
- PatchFormat.SplitJoin: lines end at `\n` only; the other line ends of `str.splitlines` are not modelled, nor are non-ASCII digits in headers.
- PatchStaging.TurnsSelected: hunks are applied strictly at their own lines; the search of `git apply` for a moved hunk is not modelled.
- File modes, renames, and the difference between an empty file and none are not modelled.
- AgentController.AgentController.StartAgent: byte limits of requests and transcripts, names, models and efforts are not modelled; message counts are. Ids are fresh, as random tokens are taken to be.
- AgentController.AgentController.RecoverAgent: the byte limit of the continued history and the sync options are not modelled.
- AgentController.AgentController.StopAgent: the wait for the process and its killing are the exit and monitor steps; that a stop of a worker that had already exited leaves the state `stopping` is modelled, not excluded.
- AgentController.AgentController.ReapOne: removing a snapshot does not fail, and recorded paths are inside the managed root.
- Every record is taken to have its snapshot when the controller starts; crash durability of the store is not modelled.
- `restart_agents` and `stop_agents` only loop over `continue_agent` and `stop_agent`; listings, logs and tool allow-lists are not modelled.
- WorkerWindow.ApiMessages: encoded sizes are a parameter, and so is the size of the system prompt.
- WorkerTurns.AgentWorker.HandleToolCalls: executing a tool is a parameter, one text and outcome per call.
- WorkerTurns.AgentWorker.RunChild: a child's invalid completions and calls that are no objects, which raise, are not modelled.
- RpcPairing.PairingTheorem: both ends have the same byte limit, and a stream delivers whole lines in order.
- MountPlan.BuildPlan: paths are compared by components without resolving `..`; what the host has at a source is an input; the command, the environment, network sharing and the check that the sandbox home equals the host's are not modelled.
- MountReplay.RedirectTheorem: where a redirected path ends up is not modelled; once something was placed through a link, nothing is claimed about any path.
- InteractiveSession.Session.OnEditRequest: which files are moved into the repository is not modelled; whether moving back succeeds is an input.
- UploadStaging.RemoteUploadManager.CleanupAbandoned: which directories are stale is an input; links and owners are not modelled, nor is a removal that fails.
- ResponsesTranslation.RoundTrip: tools, tool choices, usage counts and response ids are not modelled.
- Subprocesses, SSH, rsync, Git itself, network calls to models, tool discovery, mail and logging are not modelled.
