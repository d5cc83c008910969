# Verification of the vBot command line

A Dafny 4.11 model of the stateful and algorithmic parts of the `vbot` command line, with proofs of what
they promise. `dafny verify dfyconfig.toml` checks the whole project.

| file | models |
|---|---|
| `RunTimeline.dfy` | the events of a Run and, as functions, their fold into an outcome and the text on stdout |
| `TimelineProofs.dfy` | what every fold keeps: the screen, held-back silent answers, Usage, message, Model, error |
| `StepNotices.dfy` | the text of steps and whole Runs on stdout, with notices and restarted responses in between |
| `ToolTable.dfy`, `ReplayTwice.dfy` | the entries of the Tool table, also of calls without an id; what folding an event twice does |
| `RunFollower.dfy` | the timeline object, exactly-once folding of a replayed and cut stream, and the reconnecting loop |
| `EventHandoff.dfy` | the queue between the thread that reads events and the thread that polls, in every interleaving |
| `SettingsWrite.dfy` | enabling and disabling Extensions against concurrent writers of the settings |
| `OptionParser.dfy`, `OptionProofs.dfy` | the arguments of an Extension operation |
| `DevicePairing.dfy` | `vbot devices pair`: a polling client over a clock, a sign-in file and a server |
| `CommandLine.dfy`, `CommandLineProofs.dfy` | rewriting the command line before its grammar applies |
| `Json.dfy`, `Cursor.dfy` | compact JSON, unpadded base64url and the cursor tokens made of both |
| `Quoting.dfy` | escaping hidden characters and quoting recovery commands for PowerShell |
| `ServerAddress.dfy`, `AddressProofs.dfy` | server addresses and their normal form |
| `DoctorPages.dfy` | the sorted, budgeted pages of a configuration check |
| `LogPaging.dfy`, `ArchiveListing.dfy` | reading a log backwards; listing all archive pages with a cycle guard |
| `Roster.dfy`, `Permissions.dfy` | reordering the Agent roster; editing an agent's own permission rules |
| `Progress.dfy`, `ProgressProofs.dfy` | the progress printer and its heartbeat thread, in every interleaving |
| `PyText.dfy`, `Seqs.dfy`, `Wrappers.dfy` | `str.strip`, facts about sequences, optional values and results |

Objects whose methods update fields are classes, loops are methods, and each is proved against a function
of its inputs or of the old state; what the program promises is then proved about those functions. Two
threads are a state machine whose steps come in any order.

What surrounds the modelled code is arbitrary within stated bounds:

- The server that streams a Run holds a fixed log with increasing sequence numbers. A stream may be cut
  anywhere and may replay from anywhere at or before the next new event; it skips no newer event
  (`RunFollower.Faithful`). It numbers every Run event (`core/runs/run.py:303`), and heartbeat frames never
  reach the fold (`cli/rpc_client.py:289-295`); what an event without a number would do when it is folded
  twice is `ReplayTwice.ReplayNeedsNumbers`. The silent answer is `[SILENT]` (`core/runs/_timeline.py:31-40`).
- Other writers of the settings may write anything before each request; the server compares an update leaf
  by leaf with what the writer believed.
- Clock and sleep of the pairing client: time never runs backwards, and sleeping takes at least as long as
  asked unless Ctrl-C ends it. Every HTTP answer, connection failure and failure to write the file can occur.
- The log server returns contiguous older pages; the archive server hands out cursors from a finite set.
- Unicode tables, IPv6 grammar and the loopback test are arbitrary predicates.

## What is false of the code, and exactly when it holds

- The text a step's deltas bring reaches stdout unbroken if and only if no progress notice lands on an open line
  while more of the step is to come and no response restarts after some of it was shown
  (`StepNotices.StepTextIff`), also for a step that is cut off (`StepNotices.UnfinishedStep`); a whole Run shows
  exactly these texts if and only if that holds throughout (`StepNotices.StreamedRun`). Inputs:
  `StepNotices.NoticeBreaksText` for any notice, `StepNotices.RestartJoinsText`.
- What such a step shows is its answer if and only if the deltas show the same as the answer or were all held
  back until it came (`StepNotices.StepTextIff`). The server streams the Model's raw text and cuts leading
  reasoning from the answer alone (`core/chat/streaming.py:702-730`), so a block such as `<think>x</think>` stays
  on stdout, even in front of a silent answer (`StepNotices.ReasoningShown`).
- The result of a Tool call reaches the entry its start made if and only if the call has an id, or its key
  `#n` was taken before it started and the table has not grown since (`ToolTable.ResultMeetsStart`). A call
  without an id normally ends up as two entries (`ToolTable.NoIdSplitsCall`).
- The origin of an accepted address is accepted again unchanged if and only if the host holds no `[`
  without a `:` (`AddressProofs.NormalForm`). `https://[v1.a[b]` is accepted and its origin refused
  (`AddressProofs.NormalFormRefused`).
- Target options in front of the area and behind the command give the same tokens if and only if no help flag
  stands behind the command, the command is no bare group and the line does not start with a lifecycle flag
  (`CommandLineProofs.OptionPosition`, for help lines `CommandLineProofs.HelpPosition`, for what remains after
  the front `CommandLineProofs.SamePlace`). `--port 8420 extensions list --help` is one where they differ
  (`CommandLineProofs.HelpFlagMatters`).
- Rendered Extension arguments, documents as names of files or as `-`, parse back if and only if no rendered
  token is `--stdin` and the operation does not insist on standard input, or a document that is called `stdin`
  and comes first is taken for the flag and its file for the positional value (`OptionProofs.RoundTrip`). A value
  `--stdin` is lost (`OptionProofs.StdinValueLost`).
- The reordered roster is a permutation of the roster if and only if the roster names each listed id once
  (`Roster.PermutesIff`); a roster that repeats an id loses the repetitions (`Roster.RepeatedIdLost`).
- Leaving the current permission rules unread makes no difference, except for full access over a stored
  part that no rule set may name (`Permissions.ReadingIsNeeded`, `Permissions.UnknownPartMatters`).

## Model

| member | source | states |
|---|---|---|
| PyText.StripOfPrefix | cli/chat_management.py:680 | Every prefix of a text strips to a prefix of what the whole text strips to, the fact holding back text rests on |
| ScreenProofs.HeldPrefix | cli/chat_management.py:679-683 | Once the text so far cannot become the silent answer, no longer text can |
| ScreenProofs.DeltaMidStep | cli/chat_management.py:673-683 | In the middle of a step stdout holds the whole text so far, or nothing while it could still become the silent answer |
| ScreenProofs.AnswerEndsStep | cli/chat_management.py:739-753 | After any answer stdout holds the step's text as whole lines: the answer, or the deltas' text once that could no longer be silent; nothing of a silent answer whose deltas were held back |
| ScreenProofs.FinishEndsStep | cli/chat_management.py:727-737 | A Run that ends inside a step still shows the text it brought |
| ScreenProofs.ShowInv | cli/chat_management.py:820-833 | The line flag says exactly whether stdout ends inside a line, and every progress line starts on its own line |
| TimelineProofs.FoldInv | cli/chat_management.py:663-725 | Every log of events keeps that invariant, and the Tool table lists each key once |
| TimelineProofs.RunInv | cli/chat_management.py:638-725 | So every Run does, from its first event on |
| TimelineProofs.DeltasMidStep | cli/chat_management.py:673-683 | What stdout shows in a step depends on the text so far only, not on its cut into deltas |
| TimelineProofs.ChunkingDoesNotMatter | cli/chat_management.py:673-683 | Two cuts of the same text leave stdout, the held-back text and the line flag the same |
| TimelineProofs.NoStreamWritesNothing | cli/chat_management.py:673-753 | Without text streaming no event writes to stdout |
| TimelineProofs.UsageIsStepSum | cli/chat_management.py:707-713 | The reported Usage is the sum over all Model steps, field by field |
| TimelineProofs.MessageIsLastAnswer | cli/chat_management.py:739-749 | The reported message is the last answer's text; a silent last answer leaves none |
| TimelineProofs.ModelIsLastNamed | cli/chat_management.py:659-661 | The reported Model is the one the last answer names, else the last one a request went to |
| TimelineProofs.ErrorIsLast | cli/chat_management.py:714-717 | The reported error is the last one persisted with a text |
| StepNotices.StepTextIff | cli/chat_management.py:663-753 | With any events between the deltas, restarted responses among them, and any answer, stdout grows by exactly the step's text, as whole lines, if and only if nothing interrupts it, and by more otherwise; undisturbed it grows by the answer if and only if the deltas agree with it |
| StepNotices.UnfinishedStep | cli/chat_management.py:727-737 | A step cut off by the end of a Run or a lost stream shows what its last attempt brought, under the same condition |
| StepNotices.StreamedRun | cli/chat_management.py:663-753 | A whole Run, its steps, what follows the last answer and its last event, puts exactly the texts of its steps and of an unfinished one on stdout, in order, if and only if nothing interrupts them, and never less |
| StepNotices.AnswersShown | cli/chat_management.py:739-753 | Where all deltas agree with their answers, these texts are the answers |
| StepNotices.RunSplits | cli/chat_management.py:663-725 | Every log of events before the last one is steps and a rest of that form |
| StepNotices.RestartVoids | cli/chat_management.py:686-692 | After a restart stdout still holds the text shown so far, its line closed only where progress is shown, and nothing is held back |
| StepNotices.NoticeBreaksText | cli/chat_management.py:825-833 | Inputs on which a notice of any kind splits a step's text over two lines |
| StepNotices.RestartJoinsText | cli/chat_management.py:686-692 | An input on which a restarted response leaves its first words on stdout, without progress lines in one line with the new ones |
| StepNotices.ReasoningShown | cli/chat_management.py:673-683 | Inputs on which nothing interrupts a step and stdout still shows more than the answer: reasoning in front of it, silent or not |
| ToolTable.LastResultReported | cli/chat_management.py:766-783 | Every entry reports the last result that met its key, whether the call had an id or not: success with its preview, or its error |
| ToolTable.LastArgumentsReported | cli/chat_management.py:755-764 | Every entry reports the last arguments that met its key |
| ToolTable.TableGrows | cli/chat_management.py:785-799 | No entry ever leaves the table, moves in it or changes its name and id, whatever its key |
| ToolTable.ResultMeetsStart | cli/chat_management.py:785-787 | A call's result meets the entry of its start exactly when the call has an id, or its key was taken before and the table has not grown since |
| ToolTable.NoIdSplitsCall | cli/chat_management.py:785-787 | An input on which a call without an id ends up as two entries, the started one without a result |
| ReplayProofs.ApplyLogged | cli/chat_management.py:663-669 | An event already folded changes nothing; the next one is folded in order |
| ReplayProofs.ExactlyOnce | cli/chat_management.py:663-669 | However a stream is cut and replayed, the result is one in-order pass over the log up to the last sequence number |
| ReplayTwice.ReplayNeedsNumbers | cli/chat_management.py:663-725 | Folding an event twice changes nothing exactly when it has a sequence number or its branch is without effect the second time |
| RunFollower.RunTimeline.constructor | cli/chat_management.py:638-654 | A new timeline is the empty fold |
| RunFollower.RunTimeline.Write | cli/chat_management.py:820-823 | Text reaches stdout and the line flag follows its last character |
| RunFollower.RunTimeline.EndTextLine | cli/chat_management.py:734-737 | An open line of streamed text is ended |
| RunFollower.RunTimeline.Notify | cli/chat_management.py:825-833 | A progress line is printed after the open text line is ended |
| RunFollower.RunTimeline.FinishText | cli/chat_management.py:727-732 | Held-back text is shown unless it is silent, and the line ended |
| RunFollower.RunTimeline.ApplyDelta | cli/chat_management.py:673-683 | A delta is held back or written as the screen function says |
| RunFollower.RunTimeline.TakeAssistantOutput | cli/chat_management.py:739-753 | An answer sets message and model and completes the step on the screen |
| RunFollower.RunTimeline.VoidText | cli/chat_management.py:686-692 | A restarted response voids the partial text |
| RunFollower.RunTimeline.ToolEntry | cli/chat_management.py:785-799 | The entry of a call, made if it is missing, in insertion order |
| RunFollower.RunTimeline.ToolCallStarted | cli/chat_management.py:755-764 | A started call's entry and arguments |
| RunFollower.RunTimeline.ToolCallResult | cli/chat_management.py:766-783 | A call's result in its entry |
| RunFollower.RunTimeline.AddUsage | cli/chat_management.py:707-713 | The Token fields of one step are added |
| RunFollower.RunTimeline.TakeRequestStatus | cli/chat_management.py:801-818 | The requested model, and a notice when the request is retried |
| RunFollower.RunTimeline.SwitchModel | cli/chat_management.py:699-706 | A fallback sets the requested Model and is noticed |
| RunFollower.RunTimeline.TakeError | cli/chat_management.py:714-717 | A persisted error with a text replaces the reported one |
| RunFollower.RunTimeline.TakeTerminal | cli/chat_management.py:720-724 | The Run's end keeps its status and shows what was held back |
| RunFollower.RunTimeline.React | cli/chat_management.py:670-724 | Each kind of event changes outcome and screen as the fold says |
| RunFollower.RunTimeline.Apply | cli/chat_management.py:663-725 | One event applied once is one step of the fold, and the result says whether the Run has ended |
| RunFollower.RunTimeline.ApplyAll | cli/chat_management.py:182-185 | A stretch of the log keeps the timeline one in-order pass over the log, and brings it to the stretch's end and no further unless it ends the Run |
| RunFollower.RunTimeline.OneStream | cli/chat_management.py:578-588 | One stream attempt keeps that, and tells whether the server no longer holds the Run, or the problem |
| RunFollower.RunTimeline.Follow | cli/chat_management.py:574-591 | Every event counted once; streams are opened, each where the one before left the timeline with all it delivered; at most 3 streams per new event and 3 more; lost exactly on HTTP 404, or after three streams in a row without a new event with the last one's problem |
| RunFollower.FollowRun | cli/chat_management.py:176-189 | The events of the RPC reply and the stream together are one fold of the log; without a stream the reply holds the Run's end, else all its events are folded before the first stream; a lost stream still shows its text |
| EventHandoff.FaithfulHandoff | cli/chat_management.py:600-632 | In every interleaving yielded and queued items form a prefix of the source; the end marker is unique and last; a return means all items were yielded, an error comes after all items before it |
| EventHandoff.AtMostOneItemAfterStop | cli/chat_management.py:603-610 | After the stop flag is set the worker enqueues at most one more item |
| EventHandoff.HandoffEnds | cli/chat_management.py:618-632 | Apart from poll timeouts every interleaving has at most 5 steps per item and 6 more |
| EventHandoff.NoDeadlock | cli/chat_management.py:618-632 | Until both threads are over, one of them can take a step that is no poll |
| SettingsWrite.AcceptsIff | core/settings/updates.py:576-600 | The server accepts a command's write exactly when config is the one read and the disabled names are those read or already those wanted |
| SettingsWrite.AcceptedWriteSwitchesOnlyName | cli/extensions_management.py:129-143 | An accepted write keeps the current config and every other name and changes only its own |
| SettingsWrite.ConflictNeedsThreeOthers | cli/extensions_management.py:115-156 | In every interleaving a command gives up only when three writes of others were applied, so with at most two others none does |
| SettingsWrite.AllTakeEffect | cli/extensions_management.py:104-156 | Up to three commands on distinct names that run alone together all take effect |
| SettingsWrite.SettingsServer.AcceptsNow | core/settings/updates.py:576-600 | The leaf-by-leaf comparison decides as the specification of acceptance says |
| SettingsWrite.SettingsServer.Update | cli/extensions_management.py:130-145 | A write is applied, refused as a conflict, or its answer lost after either |
| SettingsWrite.SetDisabled | cli/extensions_management.py:104-156 | Whatever other writers do, the command changes nothing but its own switch, gives up only after three writes of others, and reports what its requests were answered |
| OptionParser.StandardInput.Read | cli/extensions_management.py:678-681 | Standard input is read whole, once, without byte order marks |
| OptionParser.TakePairs | cli/extensions_management.py:631-671 | The loop that pops `--key value` pairs computes the specified arguments or the first error |
| OptionParser.TakeDocument | cli/extensions_management.py:684-701 | A document comes from its file or from standard input that nothing else took |
| OptionParser.TakeDocuments | cli/extensions_management.py:672-674 | Documents named on the command line are replaced by their text, in declared order |
| OptionParser.OperationArguments | cli/extensions_management.py:601-675 | The whole parse is the specified one, with what is left of standard input |
| OptionProofs.PairsAccepted | cli/extensions_management.py:631-671 | The pairs are accepted exactly when all tokens are well-formed pairs of new, distinct, declared properties, and then exactly these are set |
| OptionProofs.AcceptedCall | cli/extensions_management.py:601-675 | A call is refused unless all its tokens are in order, and otherwise sets what its tokens say and nothing else |
| OptionProofs.OnlyDeclaredSet | cli/extensions_management.py:613-630 | What standard input gave is never overwritten, and everything else that is set is declared |
| OptionProofs.DocumentsRead | cli/extensions_management.py:672-674 | Reading the documents gives some arguments if and only if each is the text of the file or the standard input it names and nothing else changes; only the first `-` gets what standard input holds |
| OptionProofs.StdinInTheWay | cli/extensions_management.py:604-630 | A rendering that contains `--stdin` parses back exactly in the one case in which it stands in front for a document of that name, standard input holds no property and no document needs it |
| OptionProofs.StdinValueLost | cli/extensions_management.py:604-609 | A value `--stdin` does not come back |
| OptionProofs.RoundTrip | cli/extensions_management.py:601-675 | Rendered arguments, in any order, documents by the names of their files or by `-`, parse back exactly when no token is `--stdin` and standard input is not required, or in that one case |
| OptionProofs.RoundTripWithoutDocuments | cli/extensions_management.py:601-675 | Without documents that case does not arise |
| DevicePairing.SafeEverywhere | cli/device_pairing.py:91-138 | Every event of a safe log is justified by the one directly before it |
| DevicePairing.PollsFitCeil | cli/device_pairing.py:194-244 | Polls an interval apart within a wait are at most the wait over the interval, rounded up |
| DevicePairing.FiftyPolls | cli/device_pairing.py:127-131 | Without a terminal that is at most 50 polls |
| DevicePairing.PauseRespected | cli/device_pairing.py:203-243 | The pause respects the poll interval and what the server asks for, and is no longer than one of these |
| DevicePairing.NextRound | cli/device_pairing.py:194-244 | Rounds of waiting make a wait: it polls at once if there is time left, and between two polls the clock goes on by the pause the answer asked for, Retry-After included |
| DevicePairing.Environment.SaveSignIn | cli/sign_ins.py:146-159 | A stored sign-in has a Device token's form and replaces the pairing |
| DevicePairing.Pairing.TakeApproval | cli/device_pairing.py:246-273 | An approval stores its token or says why not |
| DevicePairing.Pairing.Forget | cli/device_pairing.py:178-199 | The stored request is dropped only where that is justified, and nothing else happens |
| DevicePairing.Pairing.TakeAnswer | cli/device_pairing.py:212-243 | Each answer decides the request as it should, or leaves everything as it is and sets the pause |
| DevicePairing.Pairing.PauseUntil | cli/device_pairing.py:244 | The client sleeps its pause but never past the deadline |
| DevicePairing.Pairing.TimeOver | cli/device_pairing.py:197-202 | The wait ends at the code's end, which drops the request, or at the deadline, which keeps it, exactly when the clock says so |
| DevicePairing.Pairing.WaitRound | cli/device_pairing.py:196-244 | One round of the wait polls exactly when there is time left, and sleeps its pause unless the request is decided |
| DevicePairing.Pairing.Wait | cli/device_pairing.py:194-244 | Waiting is safe, ends, polls this request at once if there is time left, respects every pause, polls at most as often as intervals fit, and ends with the outcome its last events say |
| DevicePairing.Pairing.StartRequest | cli/device_pairing.py:153-177 | An acceptable offer is stored with a poll interval of at least a second, in place of nothing resumable; an offer that is none, or cannot be stored, is reported as that |
| DevicePairing.Pairing.Deadline | cli/device_pairing.py:127-129 | The deadline is the code's end, without a terminal at most 50 seconds away |
| DevicePairing.Pairing.Continued | cli/device_pairing.py:112-118 | A stored request is continued exactly when the clock reading taken first finds it resumable |
| DevicePairing.Pairing.WaitAsCalled | cli/device_pairing.py:126-138 | A run waits for its request until that deadline, and without a terminal polls at most 50 times |
| DevicePairing.Pairing.Run | cli/device_pairing.py:91-138 | One run keeps the log safe and does exactly this: ask for the status, stop if that settles the run, and otherwise continue and poll the stored request if its first look at the clock finds it resumable, or ask for another, store and poll it; the outcome is what the last events say |
| DevicePairing.Pairing.Pair | cli/device_pairing.py:112-138 | The same behind the status answer |
| DevicePairing.Pairing.Runs | cli/device_pairing.py:91-138 | Any number of runs keep the log safe, each does this for the request stored when it began, and without a sign-in outcome the stored sign-in stays |
| CommandLine.TokenList.TakeRootOptions | cli/parser.py:321-341 | Options are popped from the front as specified, or the first error is reported |
| CommandLine.TokenList.FindPositionals | cli/parser.py:464-478 | The positions of the first two words behind the area, options and their values skipped |
| CommandLine.TokenList.NormalizeExtensionOperation | cli/parser.py:450-487 | The list becomes the specified normal form |
| CommandLine.TokenList.SelectCommand | cli/parser.py:426-447 | The selected command and where its own arguments start |
| CommandLine.TokenList.Place | cli/parser.py:232-240 | The root target is put behind the command, and behind a help flag next to it |
| CommandLine.TokenList.Rewrite | cli/parser.py:217-240 | The whole rewriting of a command line |
| CommandLineProofs.TakeAll | cli/parser.py:321-341 | Whole root options in front are all taken, and refused exactly when a presentation is unknown |
| CommandLineProofs.TakeSplits | cli/parser.py:321-341 | What was taken is a run of whole root options up to the first other token; the rest is untouched |
| CommandLineProofs.SplitUnique | cli/parser.py:321-341 | There is only one such split |
| CommandLineProofs.NormalizedTwice | cli/parser.py:450-487 | Normalizing an Extension call is idempotent |
| CommandLineProofs.NameFirstCall | cli/parser.py:479-487 | A name-first call becomes its action's call with the same options and name; operation and payload stay as they are |
| CommandLineProofs.ShowCall | cli/parser.py:481-487 | A call with a name alone becomes its `show` call |
| CommandLineProofs.OnlyNameFirstChanges | cli/parser.py:479-480 | Only name-first calls are changed |
| CommandLineProofs.SelectInserted | cli/parser.py:426-447 | Target options behind the command do not change which command is selected |
| CommandLineProofs.SamePlace | cli/parser.py:222-240 | Target options taken from the front and written behind the command give the same tokens exactly when no help flag, bare group or lifecycle flag is involved |
| CommandLineProofs.OptionPosition | cli/parser.py:217-240 | The same for whole command lines |
| CommandLineProofs.HelpPosition | cli/parser.py:217-240 | The same for lines that start with `help` |
| CommandLineProofs.HelpEnd | cli/parser.py:222-231 | Unless such a line ends in a bare `--output`, the end of its command lies within it |
| CommandLineProofs.HelpFlagMatters | cli/parser.py:232-240 | A command line on which the place of an option matters |
| JsonProofs.LoadsDumps | cli/_pagination.py:13-15 | Reading compact JSON text gives the value back, every field included |
| JsonProofs.DumpsAscii | cli/_pagination.py:13-15 | Compact JSON text is ASCII |
| Base64Url.DecodeEncode | cli/_pagination.py:16-31 | Decoding an encoding gives the bytes back, and the padding put back is right for every length |
| Base64Url.DecodeAccepts | cli/_pagination.py:22-31 | A token is refused exactly when it is empty, has a foreign character or length 1 mod 4; an accepted one is what encoding prints exactly when its unused bits are zero |
| Cursor.CursorRoundTrip | cli/_pagination.py:11-41 | Decoding a printed cursor gives the same object |
| Cursor.TokenCharacters | cli/_pagination.py:11-16 | A printed token is `v1.` and base64url symbols only |
| Cursor.FormsDoNotMix | cli/_pagination.py:22-36 | A token and a JSON object are never confused |
| Cursor.TokensDiffer | cli/_pagination.py:11-16 | Different cursors print differently |
| Quoting.InlineVisible | cli/formatting.py:58-73 | No hidden character is left |
| Quoting.InlineFixes | cli/formatting.py:58-73 | Text is shown as it is exactly when nothing in it is hidden, and escaping twice is escaping once |
| Quoting.EscapesDiffer | cli/formatting.py:68-73 | Different characters have different escapes |
| Quoting.CommandRead | cli/_recovery.py:359-366 | Reading a printed command gives exactly its tokens, empty ones and quotes included |
| Quoting.CommandsDiffer | cli/_recovery.py:359-366 | Different commands print differently |
| Quoting.SafeCommandsPrinted | cli/_recovery.py:217-220 | A printed recovery command is one of those given, shows as it is and reads back as its tokens |
| Quoting.SafeCommandsKeep | cli/_recovery.py:217-220 | A command is left out exactly when a token holds a hidden character |
| ServerAddress.ParseServerUrl | cli/_server_target.py:189-247 | The reading that reassigns the address and collects notes computes the specified result |
| AddressProofs.ParsedShape | cli/_server_target.py:213-247 | An accepted address has a known scheme, a host in normal form, a port from 1 to 65535 and the origin made of them |
| AddressProofs.NormalForm | cli/_server_target.py:189-258 | The origin of an accepted address reads back unchanged exactly when its host holds no bracket without a colon |
| AddressProofs.NormalFormRefused | cli/_server_target.py:238 | An accepted address whose origin is refused |
| AddressProofs.BaseUrlRead | cli/_server_target.py:296-307 | The base URL of a configured host and port has the origin of the host it connects to, in normal form |
| AddressProofs.AddressRead | cli/_server_target.py:189-247 | Every way to write an address with a scheme reads as its normal form, with a path, query or fragment noted unless empty; only control characters make it refused |
| AddressProofs.SchemeAssumed | cli/_server_target.py:208-247 | Without a scheme an address means `http` on this computer and `https` anywhere else, and says so, however it is written and whatever follows its location |
| AddressProofs.OriginsDiffer | cli/_server_target.py:189-258 | Two accepted addresses have the same origin exactly when scheme, host and port agree |
| DoctorPages.PreviewBound | cli/doctor_management.py:242-246 | A preview has at most 1039 characters |
| DoctorPages.SizeBound | cli/doctor_management.py:241-252 | A finding takes at most 4190 characters |
| DoctorPages.SortSorts | cli/doctor_management.py:111 | Sorting gives all findings, errors first, then by file and path |
| DoctorPages.SortStable | cli/doctor_management.py:111 | Findings of equal rank keep their order |
| DoctorPages.SelectFindings | cli/doctor_management.py:134-146 | The selection loop computes the specified page, and the room left never goes negative |
| DoctorPages.PageFillsBudget | cli/doctor_management.py:135-144 | A page is the longest part of its window within 8000 characters, and empty only at the end |
| DoctorPages.WalkShowsAll | cli/doctor_management.py:134-155 | Following the next offsets shows every finding once, in order, with no empty page, and ends |
| DoctorPages.CheckShowsAll | cli/doctor_management.py:99-155 | The pages of a check show all reported findings, sorted |
| LogPaging.LogRead | cli/log_management.py:37-63 | The entries shown are the last matching ones of the whole file, or all; a total without a mark is the full count |
| LogPaging.LastOfAll | cli/log_management.py:57-63 | Entries read from the end already show the last ones once there are enough |
| ArchiveListing.KeysDiffer | cli/archive_management.py:71 | Key texts of cursors are equal exactly when the cursors are |
| ArchiveListing.ArchiveList | cli/archive_management.py:48-78 | At most one request more than there are cursors; success only after a page without a next cursor, with all pages in order; an error only for a last answer that is a refusal, hands out no cursor or one handed out before |
| Roster.ReorderedIds | cli/agent_management.py:305-333 | The order sent, and exactly when it is refused |
| Roster.PermutesIff | cli/agent_management.py:327-329 | The order is a permutation of the roster exactly when each listed id occurs once in it |
| Roster.RepeatedIdLost | cli/agent_management.py:327-329 | A roster that names a listed id twice loses one of the two |
| Roster.OrderSettles | cli/agent_management.py:327-329 | Listed ids first in order, the rest in their old order, and asking again changes nothing |
| Permissions.Apply | cli/agent_management.py:95-106 | The edit of a rule set computes the specified one |
| Permissions.ReadingIsNeeded | cli/agent_management.py:91-126 | Not reading the current rules when an edit replaces them makes no difference exactly when full access meets known parts only |
| Permissions.UnknownPartMatters | cli/agent_management.py:91-126 | A stored part that no rule set may name is lost when the rules are not read |
| Permissions.RulesKept | cli/agent_management.py:95-106 | An edit that keeps the current rules only appends to allow and deny |
| Progress.ProgressPrinter.EndOpenLine | cli/_progress.py:116-119 | An open live line is ended |
| Progress.ProgressPrinter.PutBusy | cli/_progress.py:121-135 | A busy line, overwritten in place when live |
| Progress.ProgressPrinter.Report | cli/_progress.py:137-153 | A status line closes the open one and begins or ends a phase |
| Progress.ProgressPrinter.TrackWork | cli/_progress.py:155-161 | A phase begins without a line |
| Progress.ProgressPrinter.Heartbeat | cli/_progress.py:163-174 | The heartbeat writes only in a phase and an interval after the last busy line |
| ProgressProofs.BeatKeeps | cli/_progress.py:163-174 | A heartbeat line comes an interval after its phase began, or not at all |
| ProgressProofs.HeartbeatDiscipline | cli/_progress.py:105-174 | In every interleaving live lines are closed before permanent ones and by the exit, busy lines of one phase are an interval apart, and plain output has none |
| ProgressProofs.SilentAfterExit | cli/_progress.py:105-114 | Once the scope was left the heartbeat writes nothing any more; only later reports of the command itself do |
| ProgressProofs.ExitComes | cli/_progress.py:111-114 | Leaving the scope cannot hang on the heartbeat |
| ProgressProofs.ClipFits | cli/_progress.py:121-127 | A live message has at most max(12, columns - 10) characters and no line break |
| ProgressProofs.FinalStatusEndsPhase | cli/_progress.py:143-147 | After a final status the heartbeat is silent until another phase begins; a note ends none |
| ProgressProofs.TrackedQuietly | cli/_progress.py:155-172 | Tracked work is silent for exactly an interval |

## Left out

- JsonProofs.LoadsDumps: does not cover numbers with a fraction or exponent and lone surrogates, which the JSON values of the model lack.
- Cursor.CursorRoundTrip: does not cover cursors that hold such values.
- ServerAddress.ParseServerUrl: refuses hosts outside ASCII, which the source encodes first (IDNA).
- CommandLineProofs.HelpPosition: does not cover lines whose command ends behind the appended help flag, as it can after a bare `--output`; no place on the line is behind it.
- HTTP, SSE and RPC transport, TLS and DNS; threads, locks and queues as objects of the operating system: replaced by steps and arbitrary answers.
- The wording of messages, notices, status markers, close-match hints and colours; an event's notice is modelled by its kind.
- A server that has dropped events from its replay window: the stream is taken to skip no newer event.
- Ctrl-C between taking an item from the hand-off queue and yielding it.
- The caller of the event loop: attachments, Session choice, the final report and its exit code.
- JSON numbers with a fraction or exponent, lone surrogates, `NaN`, and cursor payload bytes outside ASCII: refused by the model.
- How an Extension name is matched to a record, and how the server normalizes a settings section; the section is its disabled names and config leaves.
- `--help` among an Extension operation's tokens, which the caller handles before the parser; schemas that are no object.
- Decoding of files and of standard input (UTF-8, UTF-16): readable files are texts, and standard input is a text or unreadable.
- The argument grammar itself (argparse), and what happens to the tokens after the rewriting.
- Concurrent `vbot` processes on one sign-in file; the file's format and the concealment of secrets; the texts printed while waiting.
- Hosts outside ASCII (IDNA and its checks): refused by the model. `ServerAddress.Address` keeps the scheme, which the source leaves in the origin.
- PowerShell's own parsing beyond spaces and single quotes, and the POSIX form of a command, which `shlex.join` makes.
- Which inspection a failure suggests: the case list before the filter of recovery commands.
- The reports behind a configuration check: the findings are given. `list.sort` is modelled by a stable insertion sort.
- The name a log server resolves a file to, and a log that grows while it is read.
- The retention remarks of an archive listing beyond the last page's value.
- The revision sent with a reordered roster and the server's answer to it.
- The set of reported messages that the progress printer keeps for later output; `shutil` and the stream's encoding.
- `data_store_management.py`, `cron_management.py`, the row formatters and the command dispatch: short case splits around calls that are not part of this model.
