# Pull-based work distribution: model and proofs

A server hands out the numbered items of a workfile to any number of clients, takes their
results, and logs what it does. Tools around it write the workfile, replay the log, and build
a smaller workfile with which an interrupted job is resumed. This project models these parts in
Dafny and proves that they fit together.

`dafny verify dfyconfig.toml` checks everything.

| file | what is in it |
|---|---|
| `Outcome.dfy`, `Text.dfy`, `Strings.dfy` | results, decimal numbers, formatted reads of a C++ stream, splitting |
| `Message.dfy`, `Result.dfy` | the two wire formats and the message builder |
| `Segments.dfy`, `WorkParser.dfy`, `Workfile.dfy` | the workfile: its pure split, the C++ reader, the printer, the Python reader and filter |
| `LogParser.dfy`, `EventLine.dfy` | event lines, the replay of a log, the report |
| `Server.dfy`, `Client.dfy` | the two message loops, as functions on states and as objects that are proved to follow them |
| `Protocol.dfy` | one server, any number of clients, any interleaving, crashes: steps and invariants |
| `Safety.dfy` | every step keeps the invariants, so every state of every run has them |
| `Guarantees.dfy` | what that means: ownership, exactly-once, stop, exit, the log |
| `Liveness.dfy` | the termination measure and progress |
| `IndentedSeparator.dfy` | workfiles on which the two readers number the segments differently |
| `Resume.dfy` | from the log of a killed job to the items of the next one |
| `Scenarios.dfy` | runs after which a resume does not do what it is meant to |
| `Numa.dfy`, `PbsOptions.dfy`, `SlurmOptions.dfy`, `Ranges.dfy` | core allocation, merging resources, option words, array specifications |

In the protocol a client has at most one request under way; the server takes a request, logs,
changes its state and sends its reply in one step. A client can crash at any moment, and what it
has sent may still arrive. The log entries carry arbitrary times.

## Findings

Five things the code does not do although it is meant to. The code is modelled as it is; for
each there is an input or a run that shows it, and a theorem that says exactly when the intended
property holds.

* The Python reader ends with `return workitem` where `yield` is meant
  (`scripts/worker/workfile_parser.py:15`). The segment behind the last separator line, in a
  workfile as it is created the last item, is never yielded: `Workfiles.LastItemLost`.
* The Python reader strips a line before it compares it with the separator
  (`scripts/worker/workfile_parser.py:10`), the C++ reader does not
  (`src/work_parser/work_parser.cpp:13`). In a workfile with an indented separator, in a value of
  the data or in the script, the two number the segments differently, and a resumed job executes
  the wrong items. `Scenarios.WrongItemResumed` is a job on a workfile created for three rows,
  the first with such a value; its second item has succeeded and its third is open: the second
  one is executed again, and the third is not. If the script has such a line every item is cut
  in two, and a resumed job executes halves of items (`Scenarios.HalfItemResumed`).
  `Workfiles.ReadersAgree` says that the two readers agree if and only if there is no such line,
  `Workfiles.FilterCompleteUpTo` and `Workfiles.SameNumbers` up to which number they do, and
  `Workfiles.FilterComplete` and `Resumption.NextJobItems` when a given selection is filtered
  and resumed as intended. Without such a line that is if and only if the segment behind the
  last separator line is not selected.
* The number of items announced for a resumed job (`scripts/wresume.py.in:70`) can be one too
  high: `Scenarios.NothingResumed` announces one item and executes none.
  `Resumption.WhenAnnouncedIsRight` says when it is right, for any workfile.
* `docs_user/docs/resume.md:25-27` says that a resumed job also executes the items that had not
  been started. Only numbers that occur in the log are selected: in the run of
  `Scenarios.SomeNeverStarted` the second item is neither done nor resumed.
  `Resumption.WhenResumeIsComplete` says that all the unfinished items are covered if and only
  if none was left to give out.
* An option value that starts with a dash is taken for an option when the options of a resumed
  Slurm job are rewritten: `SlurmOptions.DashedValueSplits` does that to a negative value, and
  `SlurmOptions.NoOptionIsLost` says when no option is lost.

A server that has left its loop does not answer a query that is still under way. That is what
the code does; `Guarantees.ExitIsComplete` says that no such client holds an item.

## Model

| member | source | states |
|---|---|---|
| Guarantees.Conservation | src/server.cpp:139-191 | In every state of every run the numbers 1 to nr_items() are split into the open and the processed ones; an open number has exactly one holder among live and crashed clients, a processed one has none, and none is processed twice |
| Guarantees.RightItem | src/client.cpp:111-122 | A client that executes number n works on the n-th item of the workfile |
| Guarantees.NobodyBreaks | src/client.cpp:153-157 | In no run does a client or the server get a message it takes for invalid |
| Guarantees.ResultReachesServer | src/server.cpp:163-173 | From executing an item to the server's handling, whatever happens in between: what is processed is that item's number with that very status, stdout and stderr |
| Guarantees.RequestWaits | src/client.cpp:93-105 | A request stays under way unchanged until the server takes it, also when its sender crashes |
| Guarantees.Replied | src/server.cpp:149-182 | The subject of every reply in every run: work or stop to a query, ack or ack_stop to a result, depending on whether items are left |
| Guarantees.StopIsFinal | src/server.cpp:153-182 | A stop of either kind is sent only when nothing is left to give out, and no work message follows it in the run |
| Guarantees.PendingStaysEmpty | src/work_parser/work_parser.h:49 | Once has_next() is false it stays false |
| Guarantees.ExitIsComplete | src/server.cpp:187-190 | At normal exit every item was given out once, in file order, the processed numbers are a permutation of all of them, the output streams hold each result once in the order of processing, the done lines are those of the results, and nobody holds an item |
| Guarantees.WrittenNext | src/server.cpp:169-170 | The output streams of a run: the output of each processed result and a newline, one behind the other |
| Guarantees.ExitCondition | src/server.cpp:187-190 | The server has left its loop if and only if it has handled a message, nothing is left to give out and nobody, crashed clients included, holds an item |
| Guarantees.LogTellsState | scripts/worker/log_parsers.py:107-117 | Wherever a run is cut, parsing the server's log gives the open numbers as incompletes, and the processed ones split by exit status as successes and failures |
| Guarantees.ListsPartition | scripts/worker/log_parsers.py:107-117 | Wherever a run is cut, these three sets are disjoint and together are the numbers given out |
| Guarantees.LogInOrder | src/server.cpp:156-172 | No done line precedes the started line of its item; a log without started lines gives no report |
| Guarantees.CutWithinRound | src/server.cpp:149-190 | A log that ends with any line of a round replays as the state before the round up to the line of its event, the third for a query and the second for a result, and as the state after it from there on |
| Guarantees.CutSomewhere | src/server.cpp:139-191 | Every beginning of a run's log, from the first message on, ends within some round |
| Guarantees.CutReport | scripts/worker/log_parsers.py:71-95 | The report on such a beginning is the report on that state; without a started line there is none |
| Guarantees.WireFaithful | src/utils.cpp:32-46 | For every message under way in a run, printing, sending and parsing it leads server and client to the same new state as handling the message itself |
| Guarantees.ServerStartsRun | src/server.cpp:84-135 | A new server on any workfile with fewer than 2^64 items is an initial state of the protocol |
| Safety.InitInv | src/server.cpp:133-136 | The invariant holds initially, for any number of clients |
| Safety.StepInv | src/server.cpp:139-191 | Every query, reply, execution, result, acknowledgement and crash keeps the invariant on ownership, accounting, output, log and client stages |
| Safety.RunInv | src/server.cpp:139-191 | The invariant holds in every state of every run |
| Safety.RunConstants | src/server.cpp:139-191 | Items and clients are the same in all the states of a run |
| Safety.ServerGivesWork | src/server.cpp:153-157 | Giving out an item keeps accounting, streams and the dictionary that replaying the log yields |
| Safety.ServerTakesResult | src/server.cpp:163-182 | The same for processing a result, whatever its status and outputs |
| Safety.PreambleQuiet | src/server.cpp:118-131 | What is logged before the first message contains no event of a work item |
| Liveness.StepDecreases | src/server.cpp:139-191 | Every step, a crash included, makes the termination measure smaller and does not raise the number of messages that can still be handled |
| Liveness.RunsAreBounded | src/server.cpp:139-191 | With N items and C clients a run has at most 6N + 4C steps and the server handles at most 2N + C messages |
| Liveness.Progress | src/client.cpp:89-158 | Before the server leaves its loop, a system without crashed clients is not stuck |
| Liveness.CrashFreeRunsFinish | src/server.cpp:187-190 | A run without crashes that cannot be continued without one has ended with the server leaving its loop and all the items processed |
| Liveness.RunsFinishButForCrashes | src/server.cpp:187-190 | A run with a live client that only crashes could continue: everything was given out, each item is either processed or held by a crashed client, and the server has left its loop if and only if none is held |
| Servers.Server.constructor | src/server.cpp:84-135 | A server on a workfile starts with all of its items upcoming and none open |
| Servers.Server.SendWork | src/server.cpp:281-295 | The reply is a work message with the next number and the next item, and the builder carries nothing over |
| Servers.Server.SendPlain | src/server.cpp:297-325 | Stop, ack and ack_stop messages carry id 0 and no content, whatever was built before |
| Servers.Server.OnQuery | src/server.cpp:149-162 | New state and reply to a query are those of the step function the runs are made of |
| Servers.Server.OnResult | src/server.cpp:163-182 | The same for a result; one that cannot be parsed ends the server after its first log line |
| Servers.Server.HandleRequest | src/server.cpp:140-190 | One round of the loop on the bytes of a request, exit test included |
| Servers.Server.MessageLoop | src/server.cpp:139-191 | The whole loop over any sequence of requests: there are states from the first to the last such that each handled request leads from one to the next with the reply that is sent, the request that ends the loop included; only a fatal one has no reply, and nothing is handled or sent behind the end |
| Servers.FatalRound | src/server.cpp:183-186 | A round is fatal exactly when the request cannot be read, is neither a query nor a result, or carries an unreadable result; then there is no reply, and only the log and the status change |
| Servers.QueryLogged | src/server.cpp:151-161 | The three lines logged for a query, with work and without |
| Servers.ResultLogged | src/server.cpp:165-181 | The three lines logged for a result |
| Servers.ResultWritten | src/server.cpp:169-170 | Each output is written behind what was written before, and closed by a newline |
| Servers.ExitLogged | src/server.cpp:187-193 | The two lines logged at the end, exactly when the loop is left |
| Servers.HandleAllStopped | src/server.cpp:187-191 | After the loop has ended further requests change nothing |
| Clients.Client.SendQuery | src/client.cpp:91-95 | A query has id 0 and no content, also after a result was sent |
| Clients.Client.ReceiveReply | src/client.cpp:105-120 | The stage after a reply: stopped, executing exactly the item received, or broken; an executing item finds its number in the environment, and no other entry changes |
| Clients.Client.SendResult | src/client.cpp:127-133 | The result message carries the number of the item that was executed and the printed result |
| Clients.Client.ReceiveAck | src/client.cpp:143-151 | Only ack_stop stops the client |
| Clients.Client.OneRound | src/client.cpp:89-158 | In every round one clean query is sent, and behind it, exactly if the reply is work, the printed result for that number; and the stage behind it, for every reply and acknowledgement, readable or not |
| Clients.Client.MessageLoop | src/client.cpp:89-158 | The whole loop over any sequence of replies and results: the client enters a round exactly as long as it is ready, what it sends is what the rounds send, one after the other, that of the round in which it stops or breaks included, and the builder is clean again |
| Clients.LoopCounts | src/client.cpp:89-158 | As many messages are sent as rounds are entered and items are given, and those of the last round are the last |
| Clients.RoundsAlternate | src/client.cpp:91-129 | As long as the client is in its loop every round has given it an item, and it has sent in turn a query without id and content and the result of the item of that round |
| Clients.RoundsStopped | src/client.cpp:106-110 | A client that has left its loop sends nothing more |
| Clients.TimeOutBreaks | src/client.cpp:100-105 | The empty reply left by a time-out ends the client |
| Messages.RoundTrip | src/message.cpp:15-60 | For all UUIDs, enumerated subjects, ids and contents, parsing a printed message gives the same five fields |
| Messages.HeadParsed | src/message.cpp:47-58 | Behind the length any text can stand: more than that is ignored, and what is missing is filled with NUL characters |
| Messages.PrintedFields | src/message.cpp:15-24 | Where the fields of a printed message stand, and the letter of each subject |
| Messages.EndsBehindTo | src/message.cpp:41-45 | A message that ends behind a UUID gives the error of the next field |
| Messages.EndsBehindSubject | src/message.cpp:47-49 | The same behind the subject |
| Messages.EndsBehindId | src/message.cpp:50-52 | The same behind the id |
| Messages.PrintInjective | src/message.cpp:15-24 | Two different messages never look alike on the wire |
| Messages.EmptyReplyFails | src/message.cpp:38-39 | The empty string is not a message |
| Messages.MessageBuilder.Build | src/message.cpp:26-31 | The message has exactly what was set, and id and content are reset |
| Messages.MessageBuilder.BuildFrom | src/message.cpp:35-60 | Reading the stream step by step is the parser that the round trip is about, with its five errors; the builder is not changed |
| Results.FromString | src/work_processor/result.cpp:8-25 | Reading the stream step by step is the parser that the round trip is about |
| Results.RoundTrip | src/work_processor/result.cpp:8-34 | For every exit status and all outputs, parsing a printed result gives the same triple |
| Results.PrintedText | src/work_processor/result.cpp:27-33 | The text of a result, written out |
| Results.PrintedParsed | src/work_processor/result.cpp:8-25 | Whatever stands behind a printed result is ignored |
| Results.EndsTooEarly | src/work_processor/result.cpp:10-17 | A result that ends behind one of its numbers gives the error of the next one |
| Results.NestedRoundTrip | src/work_processor/result.cpp:27-40 | A result carried as the content of a message arrives as the same triple under the same number |
| Text.ReadSizePrinted | src/message.cpp:47-52 | A printed size_t is read back whatever follows it, unless that is a digit |
| Text.ReadIntPrinted | src/work_processor/result.cpp:10-11 | The same for an int, negative ones included |
| Text.SizeRange | src/message.cpp:47-52 | Reading a size_t behind any blanks and sign, with leading zeros: out of range fails, and a minus sign wraps around |
| Text.IntRange | src/work_processor/result.cpp:10-11 | Reading an int: out of range fails |
| Text.NoLeadingZero | scripts/worker/data_sources.py:117-118 | Numbers are printed without leading zeros |
| Segments.SplitJoin | src/work_parser/work_parser.cpp:10-17 | Segments that were printed with separator lines between them are split into the same segments |
| Segments.JoinSplit | src/work_parser/work_parser.cpp:10-17 | Splitting loses nothing: joined again the segments are the text with its last line completed, and none holds a separator line |
| Segments.ItemsOfJoin | src/work_parser/work_parser.cpp:10-25 | The work items of joined texts are these texts if and only if no line of them is the separator |
| WorkParsers.WorkParser.constructor | src/work_parser/work_parser.h:29-33 | A new reader has all the work items of its stream ahead and has counted none |
| WorkParsers.WorkParser.ParseNext | src/work_parser/work_parser.cpp:10-17 | The look-ahead becomes the first segment of what is unread |
| WorkParsers.WorkParser.HasNext | src/work_parser/work_parser.h:49 | True exactly when an item remains |
| WorkParsers.WorkParser.Next | src/work_parser/work_parser.cpp:19-25 | Takes the first of the remaining items and counts it; without one it returns the empty string and does not count, but reads on |
| WorkParsers.ListItems | src/parser_test.cpp:19-24 | Calling next() while has_next() yields the segments of the pure split up to the first empty one, the k-th leaving nr_items() at k |
| Workfiles.PrintItem | scripts/worker/utils.py:130-133 | An item is the exports of its row, an empty line and the script |
| Workfiles.ItemHolds | scripts/worker/utils.py:130-133 | For any row, the line of each variable, written out, stands in its item once, between those of the variables before and behind it, and then come the empty line and the script |
| Workfiles.ExportsConcat | scripts/worker/utils.py:130-131 | The exports of two rows of variables follow each other |
| Workfiles.OneExport | scripts/worker/utils.py:131 | The line of one variable |
| Workfiles.CreateWorkfile | scripts/worker/utils.py:126-141 | The file is the items with separator lines between them, the count is the number of rows; without rows the iterator's exception |
| Workfiles.CreatedItems | scripts/worker/utils.py:126-141 | The server reads back exactly the items that were created if and only if no line of an item is the separator |
| Workfiles.ParseWorkfile | scripts/worker/workfile_parser.py:6-15 | The generator yields one segment per separator line |
| Workfiles.StripParts | scripts/worker/workfile_parser.py:10 | What strip() removes is white space at both ends, all of it and nothing else |
| Workfiles.ReadersAgree | scripts/worker/workfile_parser.py:8-15 | The generator yields the segments of the C++ split in order, except the last one, if and only if no line is the separator only after stripping |
| Workfiles.ReadersDiffer | scripts/worker/workfile_parser.py:8-15 | For any file, up to which segment the two readers agree; behind the first line that is the separator only after stripping the generator yields a shorter text, and as many as there are segments or more |
| Workfiles.FilterWorkfile | scripts/worker/workfile_parser.py:18-28 | What is written is the selection of the yielded segments, joined by separator lines, and the count is theirs |
| Workfiles.SelectedInOrder | scripts/worker/workfile_parser.py:22-27 | The selection is in file order, each number once however often and in whatever order it is listed |
| Workfiles.FilteredItems | scripts/worker/workfile_parser.py:18-28 | The server reads a filtered workfile as the selected texts, each with one more newline, numbered from 1 |
| Workfiles.FilterComplete | scripts/worker/workfile_parser.py:15-23 | For any file and selection, filtering is that of all the segments if and only if each selected number stands for the same text in both readers; if no line is the separator only after stripping, if and only if the segment behind the last separator line is not selected |
| Workfiles.SameNumbers | scripts/worker/workfile_parser.py:8-23 | Which numbers stand for the same text: those of the segments closed before the first line that is the separator only after stripping, and not the next one; without such a line all but the last |
| Workfiles.FilterCompleteUpTo | scripts/worker/workfile_parser.py:15-23 | For any file, every selection from the first m segments is filtered completely if and only if m is at most the number of these segments |
| Workfiles.LastItemLost | scripts/worker/workfile_parser.py:15 | A workfile with one item: selecting it yields nothing |
| LogParsers.ReadLines | scripts/worker/log_parsers.py:72-88 | The loop that updates the dictionary line by line is the replay of the log, and counts the log lines |
| LogParsers.Parse | scripts/worker/log_parsers.py:71-95 | A report or None exactly if the log is not empty, each line is a log line and no done line comes before the started line of its item; otherwise an exception |
| LogParsers.WhenParsed | scripts/worker/log_parsers.py:84-95 | Which exception: the missing start first, then the empty log, then the ill-formed one; None exactly if no item was started, and otherwise a report on the started ones |
| LogParsers.StartedIdsAre | scripts/worker/log_parsers.py:79-81 | The started numbers are those of the started lines |
| LogParsers.RowsTellLines | scripts/worker/log_parsers.py:79-88 | Every row of a report tells who started the item last and when, the status of its last done line, and the time from the last start before that line; an item without row or status has no done line |
| LogParsers.ReportPartition | scripts/worker/log_parsers.py:107-117 | For any log that gives a report, the three lists are disjoint and hold all its numbers |
| LogParsers.ReplayFails | scripts/worker/log_parsers.py:84-88 | Subtracting a missing start time fails if and only if some done line has no earlier started line of its item |
| LogParsers.AscendingMembers | scripts/worker/log_parsers.py:107-117 | The sorted lists are increasing and have the members of their sets |
| LogParsers.StartedPrinted | scripts/worker/log_parsers.py:64-68 | The started line for any number and client is matched as that event |
| LogParsers.DonePrinted | scripts/worker/log_parsers.py:66-69 | The done line for any number and status, negative ones included, is matched as that event |
| LogParsers.OtherPrinted | scripts/worker/log_parsers.py:64-69 | A message that does not begin with the word workitem is no event |
| EventLines.StartedMatched | scripts/worker/log_parsers.py:64-68 | A started line is matched with any white space where the expression allows it, leading zeros in the number, and anything behind the client |
| EventLines.StartedForm | scripts/worker/log_parsers.py:64-68 | Every line that is matched as started has that form, with that number and client |
| EventLines.DoneMatched | scripts/worker/log_parsers.py:66-69 | The same for done lines, with or without a minus sign |
| EventLines.DoneForm | scripts/worker/log_parsers.py:66-69 | Every line that is matched as done has that form, with that number and status |
| Resumption.Resume | scripts/wresume.py.in:38-51 | Exceptions, exactly if the log is empty, ill-formed or has a done line too early; no report, exactly if nothing was started; nothing to do, or the selected numbers, the filtered workfile and the announced count |
| Resumption.SelectionIsSafe | scripts/wresume.py.in:38-45 | Wherever the job was killed, the selected numbers are exactly the open ones in order, with --redo also those that failed behind them, without duplicates and without any that succeeded |
| Resumption.WhenResumeIsComplete | scripts/wresume.py.in:41-43 | A resume covers every unfinished item if and only if none was left to give out |
| Resumption.SelectedNumbers | scripts/wresume.py.in:38-51 | Every selected number is the number of an item of the old job, which is the segment with that number in its workfile |
| Resumption.RefilteredItems | scripts/wresume.py.in:49-51 | The items of the new workfile are, for any workfile, the texts the selected numbers stand for in the filter, in order and once each; if no line is the separator only after stripping, the segments with these numbers but the last |
| Resumption.NextJobItems | scripts/wresume.py.in:38-51 | From a job killed in any state, on any workfile, to the next: its items are the selected items of the old one if and only if each number stands for the same text in both readers; so it is for selections before the first line that is the separator only after stripping, and not if the next number is selected; without such a line, if and only if the segment behind the last separator line is not selected |
| Resumption.NextJobKeeps | scripts/wresume.py.in:38-51 | If no line is the separator only after stripping, the items of the next job are the selected items of the old one, in order, with one more newline, except the one behind the last separator line |
| Resumption.SecondJobExecutes | scripts/wresume.py.in:38-51 | Two jobs, the second on what a resume makes of the first: whatever a client executes in any state of the second is the text of a selected number of the first that has not succeeded, with one more newline, and that item itself if no line is the separator only after stripping |
| Resumption.SecondJobCompletes | scripts/wresume.py.in:38-51 | When the second job has left its loop, each selected number that stands for a text was processed in it, and nothing was processed twice |
| Resumption.KilledWithinRound | scripts/wresume.py.in:38-45 | When the job is killed within a round: what is selected is what would be before or after the round, without duplicates; at most one item that was sent is not known; an item that succeeded is selected if and only if its result was being processed and is not logged |
| Resumption.WhenAnnouncedIsRight | scripts/wresume.py.in:68-71 | For any workfile the announced number is the number of items in the new one unless no line is the separator only after stripping and the segment behind the last separator line is selected |
| Resumption.LastRowIsNotResumed | scripts/worker/utils.py:126-141 | A workfile created for n rows has n segments, and number n is kept by a resume if and only if it is selected and some line is the separator only after stripping |
| IndentedSeparators.FirstIsCut | scripts/worker/workfile_parser.py:8-15 | If only the first item has a line that is the separator after stripping, each number from 3 on stands for the item before it |
| IndentedSeparators.ScriptCutsItems | scripts/worker/workfile_parser.py:8-15 | A workfile created from a script with such a line, for any rows: the odd numbers stand for the first halves of the items, the even ones for the second half, and the last half is lost |
| Scenarios.WrongItemResumed | scripts/worker/workfile_parser.py:10 | From any initial state on the workfile created for three given rows there is a run after which a resume executes the second item, which succeeded, and not the third, which is open |
| Scenarios.HalfItemResumed | scripts/worker/workfile_parser.py:10 | From any initial state on a workfile created from a script with an indented separator there is a run after which a resume executes the first half of the first item only |
| Scenarios.NothingResumed | scripts/wresume.py.in:68-71 | From any initial state on a workfile with one item there is a run after which one item is announced and the new workfile has none |
| Scenarios.SomeNeverStarted | scripts/wresume.py.in:41-43 | From any initial state with at least two items there is a run after which item 2 is neither processed nor selected |
| Numa.ComputeNumactlArgs | scripts/worker_functions.sh:16-74 | The status is 1 if and only if a client's block spans hosts, otherwise 0 if the entries fill whole blocks and 2 if not; the b-th argument is the b-th block's full run of offsets |
| Numa.ArgumentNames | scripts/worker_functions.sh:53-58 | An argument is a plus sign and, separated by commas, consecutive numbers, as many as the client has cores |
| Numa.RunPositionIs | scripts/worker_functions.sh:37-59 | The offset of an entry, in any list: so many entries for the same host stand directly in front of it, and not one more |
| Numa.CountIs | scripts/worker_functions.sh:28-68 | The number of entries for a host is its multiplicity in the list |
| Numa.OffsetIsRank | scripts/worker_functions.sh:37-59 | In a list grouped by host an entry's offset is the number of earlier entries for its host |
| Numa.BlockIsConsecutive | scripts/worker_functions.sh:46-59 | The entries of a client that does not span hosts have consecutive offsets on one host |
| Numa.ClientsDisjoint | scripts/worker_functions.sh:37-43 | Status 0: the cores of a later client on the same host are all greater than those of an earlier one |
| Numa.CoresCovered | scripts/worker_functions.sh:28-68 | Status 0: a core number belongs to a client on a host if and only if it is less than the number of entries for that host |
| PbsOptions.NormalizeResources | scripts/worker/pbs_torque/option_parser.py:7-14 | The nested loops fill the dictionary with the entries of all the comma separated parts, or fail on a part without an equals sign |
| PbsOptions.MergeResources | scripts/worker/pbs_torque/option_parser.py:16-23 | The other list if one is None; otherwise the printed entries of the old dictionary updated with the new one, or the exception if a part of either list has no equals sign |
| PbsOptions.MergeIdentity | scripts/worker/pbs_torque/option_parser.py:17-20 | None is the identity of merging |
| PbsOptions.MergeAssociative | scripts/worker/pbs_torque/option_parser.py:16-23 | Merging is associative on all lists, malformed ones included: same entries in the same order, or the same exception |
| PbsOptions.NormalizePrinted | scripts/worker/pbs_torque/option_parser.py:7-23 | A printed dictionary is read back as the same dictionary in the same order |
| PbsOptions.MergedValues | scripts/worker/pbs_torque/option_parser.py:21-23 | After a merge a key has its last new value, or else its last old one |
| PbsOptions.UpdateKeepsPlaces | scripts/worker/pbs_torque/option_parser.py:22 | Old keys keep their places in a merge |
| PbsOptions.NormalizedIs | scripts/worker/pbs_torque/option_parser.py:7-14 | A list is read exactly if each part has an equals sign; its keys come in the order in which they come first, each with its last value |
| PbsOptions.PartRead | scripts/worker/pbs_torque/option_parser.py:12 | A part without an equals sign fails, and the key ends at the first one |
| PbsOptions.PartsOne | scripts/worker/pbs_torque/option_parser.py:10 | The parts of one resource are what stands between its commas |
| PbsOptions.PartsConcat | scripts/worker/pbs_torque/option_parser.py:9-11 | The parts of the resources follow each other |
| PbsOptions.MergedKeys | scripts/worker/pbs_torque/option_parser.py:21-23 | A merge prints the old keys in their order and behind them the new ones in theirs, each with an equals sign and its value |
| SlurmOptions.OptionsDictToList | scripts/worker/option_parser.py:31-41 | The loop yields for each entry that is neither None nor False its name and, unless it is a flag, its text |
| SlurmOptions.WordsOfEntry | scripts/worker/option_parser.py:33-40 | The words of one entry for each kind of value: none for None and False, the name for True, the name and the text otherwise |
| SlurmOptions.OptionWordsConcat | scripts/worker/option_parser.py:33-40 | The words of the entries follow each other |
| SlurmOptions.JoinedTexts | scripts/worker/option_parser.py:37-38 | A joined list of values can be split into the same values, unless one holds the separator |
| SlurmOptions.PreprocessCliOptions | scripts/worker/slurm/option_parser.py:182-197 | The loop with its flag joins an option with the next word unless that is an option too, and drops words that follow no option |
| SlurmOptions.NoOptionIsLost | scripts/worker/slurm/option_parser.py:182-197 | Rewriting the words gives, in order, exactly one word per given entry if and only if no value starts with a dash |
| SlurmOptions.RewrittenWords | scripts/worker/slurm/option_parser.py:182-197 | The rewritten list has, in order, one word, written out, for each entry that is neither None nor False, and no other, if and only if no value starts with a dash |
| SlurmOptions.JoinedFirst | scripts/worker/slurm/option_parser.py:187-196 | An option takes the next word unless that is an option as well, and a word that follows no option is dropped |
| SlurmOptions.WordCount | scripts/worker/slurm/option_parser.py:191-196 | Each value that starts with a dash makes one word too many |
| SlurmOptions.DashedValueSplits | scripts/worker/slurm/option_parser.py:191-196 | A negative value: the one option expected becomes two words |
| Ranges.ParseRanges | scripts/worker/data_sources.py:100-111 | Rejected specifications fail; accepted ones give the bounds of their pieces in order |
| Ranges.AcceptedExactly | scripts/worker/data_sources.py:120-123 | The validation accepts exactly the comma separated lists of numbers and pairs of numbers, also with a newline behind them |
| Ranges.SpecificationBounds | scripts/worker/data_sources.py:104-111 | The pieces of an accepted specification convert, in order, to the numbers they show, a single number to a range of one |
| Ranges.AcceptedConverts | scripts/worker/data_sources.py:101-111 | Every piece of an accepted specification converts, so the constructor does not fail behind the validation |
| Ranges.RangeDataSource.Next | scripts/worker/data_sources.py:117-118 | Iterating yields the numbers of the intervals one after the other, reversed intervals being skipped, and then ends |
| Ranges.ValuesCount | scripts/worker/data_sources.py:109-112 | The number of values is the sum of max(0, hi - lo + 1) |
| Ranges.ValuesConcat | scripts/worker/data_sources.py:112 | The values of the intervals follow each other |
| Ranges.ValuesOne | scripts/worker/data_sources.py:109-111 | The values of one interval, none if it is reversed |
| Ranges.IntervalAt | scripts/worker/data_sources.py:109 | The i-th value of an interval is lo + i |

## Left out

- ZeroMQ, Boost.Log and the sockets: only the alternation of request and reply, atomic handling, and crashes are kept.
- UUIDs: reading accepts the printed form of 36 characters with lower-case digits; the other spellings Boost accepts are not part of this model.
- Log prefixes: a log line is a time and a message, or a line that is not matched; the regular expression for date, time and level, and time arithmetic beyond subtraction, are not part of this model.
- The wording of the lines a server logs before its first message: they are modelled, but the theorems only use that they are no events.
- Log files of the clients, the waiting time before the server exits, exit codes and the options of both programs, including the environment entries that only copy an option.
- A time-out: it ends the client (an empty reply cannot be parsed, and sending again after a missed acknowledgement breaks the alternation of the socket), so it is modelled as a crash.
- Cuts within a line: a killed server leaves whole lines. What a server does within a round is visible in its log only; which of its other effects have taken place is not modelled line by line.
- `process_work`: an arbitrary result whose text fits in a string.
- Data sources: the rows of a workfile are given, each with its variables in order; reading CSV files is not part of this model.
- Line endings and encodings: only "\n" ends a line, and digits, letters and white space are those of ASCII.
- Workfiles.ParseWorkfile: the generator's values are collected before they are written, where the source writes one before the next is read; the files are different, so what is written is the same.
- Safety.RunInv: runs have fewer than 2^64 items, each shorter than 2^64 characters, as every std::string is.
- WorkParsers.ListItems: the same bound, because nr_items() wraps around at 2^64.
- Numa.ComputeNumactlArgs: a core count of zero, which divides by zero, and empty host names, which a word list cannot hold.
- `compute_host_file`, `compute_env_vars`, job templates, job submission, command-line parsing and the statistics of reports.
- SlurmOptions.JoinedTexts: separators of one character, as in the source, which joins with a comma.
- Options: the values of a parsed name space are given; `argparse` and `shlex` are not part of this model.
