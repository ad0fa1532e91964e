# A Dafny model of the player daemon

The daemon plays a list of songs and is driven by clients that speak the Music
Player Daemon protocol. This project models five parts of it and proves what
they keep over whole runs.

- **Worker pool** (`WorkQueue`): mutex, condition variable, FIFO and workers as
  an interleaving transition system, spurious wake-ups included, with a class
  whose methods are its critical sections.
- **Protocol front end**: bytes to lines (`MpdIntake`), lines to commands
  (`MpdParse`, over `Tokeniser`), which lines have no defined meaning
  (`MpdBadLines`), the table of commands (`MpdTable`), the state of both
  threads (`MpdState`), the handlers (`MpdHandler`), command lists
  (`MpdCommandLists`), client identifiers (`MpdClientIds`), answers and what
  they cannot say (`MpdAnswers`, `MpdReplies`), runs of the two threads
  (`MpdRun`, `MpdHistory`), what idle clients read (`MpdIdle`, and `MpdNews`
  from the player on), lists that never end (`MpdOpenList`), the way from
  bytes to handled commands (`MpdPipeline`), which of its runs are defined
  (`MpdDefined`), when the socket thread survives (`MpdSurvival`) and the
  object itself (`MpdProto`).
- **Song list and playlist file** (`Playlist`, `PlaylistFile`, and a reader for
  what the file says beside the URLs, `PlaylistInfo`).
- **Play order** (`ActivePlaylist`): list, derived queue and current song under
  consume, random, repeat and single. `PlayOrder` counts what the queue owes the
  list and `PlayMeaning` says what that means; `PlayRemoval` is about removing
  and deleting, `PlayRuns` about whole runs of the queue, `PlayCurrent` about
  undefined steps and the current song, `PlayWhole` puts the three together;
  `PlayCycles` follows `play`, `next` and `previous`, `PlayControls` the playbin,
  the options and what chance can do, and `ActiveList` is the object.
- **Duration printer** (`Duration`, over `Text`).

Code that works in place is a class or a method with loops, proved against a
function; the theorems are about those functions and their runs.

## How the code is read

The model does what the code does, also where that differs from what was
evidently meant. Each of the following places is stated as a theorem saying
exactly when the meant result is reached:

- the line loop yields the unterminated tail as well (`MpdIntake.FramingExactlyWhen`);
- quotes around several words move the view by 34 characters (`MpdParse.ParseOfRenderExactlyWhen`),
  and some lines have no defined meaning at all (`MpdBadLines.LineUndefinedExactlyWhen`);
- the flag word of `idle` is not initialised (`MpdIdle.IdleWaitsForItsArgumentsExactlyWhen`);
- a literal is compared by address at `src/Protocols/MPD.cpp:263`: the outcome is the
  parameter `pooled` (`MpdCommandLists.EndEmptiesList`, `MpdOpenList.OpenListNeverEnds`);
- an `idle` that has something to report is never closed by an OK (`MpdIdle.IdleIsNeverClosed`);
- several pending kinds are reported as "TODO" (`MpdIdle.ReportNamedExactlyWhen`);
- the position of a failed list command never reaches the text of the ACK
  (`MpdReplies.AckPositionRightExactlyWhen`), and the wish for `list_OK` is never read
  (`MpdReplies.OpeningMakesNoDifference`);
- an event without an idle flag ends the socket thread
  (`MpdRun.DrainSurvivesExactlyWhen`, `MpdRun.ThreadDiesOnlyOfAnEvent`; the player pushes none,
  `PlayCycles.RunPushesKnownEvents`, so the thread survives, `MpdSurvival.PlayerSparesTheThread`);
- `stop()` need not return (`WorkQueue.StopReturnsExactlyWhen`);
- an added song is queued twice, and the other ways the queue goes wrong
  (`PlayRuns.RunOwesExactlyWhen`), and the ways the current song gets lost
  (`PlayCurrent.RunListedExactlyWhen`) or a step is undefined (`PlayCurrent.StepFailsExactlyWhen`);
- deleting a song can take another one with it (`PlayRemoval.DeleteByPositionIsDeleteById`);
- the previous song is looked for from the wrong ends (`PlayCycles.PreviousRightExactlyWhen`);
- the last unterminated line of a playlist file is read twice (`PlaylistFile.LoadsEachLineOnceExactlyWhen`);
- inserting just past the end, and copying from another list
  (`Playlist.PositionHonouredExactlyWhen`, `Playlist.AddFromKeepsIdentityExactlyWhen`).

Assumptions: each critical section and each handler is one atomic step; a tick
is one step for each message it handles and one for each event it posts. A run
of `MpdPipeline` is legal while each step has a defined outcome;
`MpdDefined.RunLegalExactlyWhen` says which runs are, and nothing is claimed
about what follows a step without one. Where the source's behaviour is
undefined the functions give `None`, and the methods may not be called. What
the code reads from an erased iterator, from an uninitialised word or from a
random device is a parameter, so theorems hold for every value. A pointer to a
song is the song's identifier. Numbers are unbounded, except for client
identifiers, whose 32 bits are modelled.
An empty line makes the source read the character in front of a view, so
parsing it gives `Undefined`. An empty URL makes it read the first character of
an empty view over a string object, which is the terminator behind every such
string, so an empty URL counts as one that does not start with a slash.

## Model

| member | source | states |
|---|---|---|
| `WorkQueue.RunKeepsTasks` | src/Util/WorkQueue.cpp:53-72 | over every interleaving of every run: tasks taken, in order, followed by tasks queued are exactly the tasks submitted, and while the pool runs with a sleeper every queued task is covered by an awake worker or a notify still to come |
| `WorkQueue.NoLostWakeUpStep` | src/Util/WorkQueue.hpp:46-60 | one step of any thread, spurious wake-ups included, keeps the wake-up cover |
| `WorkQueue.FifoStep` | src/Util/WorkQueue.cpp:58-67 | one step keeps "taken followed by queued is submitted" |
| `WorkQueue.InternalRunsEnd` | src/Util/WorkQueue.cpp:53-72 | left to itself a pool comes to rest: no run of internal steps is longer than its effort |
| `WorkQueue.AtRestIsNoInternalStep` | src/Util/WorkQueue.cpp:56-71 | the resting states are exactly those in which no thread has a step of its own left |
| `WorkQueue.RunningPoolKeepsWorkers` | src/Util/WorkQueue.cpp:56 | while the flag is set no worker leaves its loop |
| `WorkQueue.RestMeansDrained` | src/Util/WorkQueue.cpp:53-72 | a running pool with a worker never rests with work queued: everything submitted has been started, in order, once, and all workers sleep |
| `WorkQueue.StartedPoolDrains` | src/Util/WorkQueue.cpp:5-72 | a pool made for any number of workers and started: whenever it comes to rest unstopped, every task submitted has been started, in order, once |
| `WorkQueue.PoolKeepsItsSize` | src/Util/WorkQueue.cpp:5-30 | a pool made for some workers has that many after every run that does not resize it, four when made for none, and after resizing the size asked for |
| `WorkQueue.StoppedPoolStartsAgain` | src/Util/WorkQueue.cpp:36-51 | once all workers have left their loops the joins go through, and the pool can be started again with as many workers and the tasks it still had |
| `WorkQueue.FlagIsTestedFirst` | src/Util/WorkQueue.cpp:56-67 | a new thread and one that has done a job look at the flag before anything else |
| `WorkQueue.StopReturnsExactlyWhen` | src/Util/WorkQueue.cpp:43-51 | from the moment the flag is cleared, in every interleaving and with tasks still arriving, all workers exit if and only if the tasks queued then and those that arrived since are at least as many as the workers that had passed the test of the flag without a task; otherwise exactly the missing number sleeps for ever |
| `WorkQueue.StopCanHang` | src/Util/WorkQueue.cpp:59 | the smallest pool whose stop() does not return: the wait predicate does not look at the flag |
| `WorkQueue.AtMostOneMoreTaskEach` | src/Util/WorkQueue.cpp:45-68 | after the flag is cleared each worker starts at most one more task, and none unless it had passed the test |
| `WorkQueue.Pool.constructor` | src/Util/WorkQueue.cpp:5-12 | a new pool is the fresh state, with 4 slots for a count of 0 |
| `WorkQueue.Pool.Start` | src/Util/WorkQueue.cpp:36-41 | sets the flag and gives every slot a thread: the start step |
| `WorkQueue.Pool.SignalStop` | src/Util/WorkQueue.cpp:45-46 | the two steps of stop() before its joins |
| `WorkQueue.Pool.PushTask` | src/Util/WorkQueue.hpp:52-55 | the push step under the lock |
| `WorkQueue.Pool.NotifyOneSleeper` | src/Util/WorkQueue.hpp:57 | the notify step; any sleeper may be the one woken |
| `WorkQueue.Pool.TestRunning` | src/Util/WorkQueue.cpp:56 | the loop test of one worker |
| `WorkQueue.Pool.TakeOrSleep` | src/Util/WorkQueue.cpp:58-65 | the critical section of one worker: sleep on an empty queue, otherwise take the front task |
| `WorkQueue.Pool.FinishJob` | src/Util/WorkQueue.cpp:67 | the job has returned |
| `Tokeniser.SplitOfJoin` | src/Util/Tokeniser.hpp:66-79 | splitting undoes joining of delimiter-free fields (reference definition) |
| `Tokeniser.JoinOfSplit` | src/Util/Tokeniser.hpp:66-79 | joining undoes splitting, and no field holds a delimiter (reference definition) |
| `Tokeniser.TokensExact` | src/Util/Tokeniser.hpp:66-132 | iteration from begin to end yields the full split without exactly the 0, 1 or 2 empty trailing fields that the end of the source determines |
| `Tokeniser.TokensRebuild` | src/Util/Tokeniser.hpp:66-132 | joining the tokens rebuilds the source up to at most two trailing delimiters |
| `Tokeniser.TokensAreSplit` | src/Util/Tokeniser.hpp:107-110 | nothing is dropped exactly when the source is non-empty and does not end with the delimiter |
| `Tokeniser.NothingEmitted` | src/Util/Tokeniser.hpp:107-132 | only the empty source and a lone delimiter yield no token |
| `Tokeniser.ConstIterator.constructor` | src/Util/Tokeniser.hpp:49-58 | a new iterator stands on the first token |
| `Tokeniser.ConstIterator.MoveToNext` | src/Util/Tokeniser.hpp:66-79 | one advance of token and remaining data in place |
| `Tokeniser.ConstIterator.Next` | src/Util/Tokeniser.hpp:87-92 | yields the token and moves on |
| `Tokeniser.Collect` | src/Util/Tokeniser.hpp:107-132 | the range-for loop ends on every source and collects the tokens |
| `MpdIntake.FramingExactlyWhen` | src/Protocols/MPD.cpp:165-240 | over every division of a stream into reads and every placement of passes, after a pass the buffer holds the unterminated tail, and the lines dispatched are exactly the newline-terminated lines if and only if every pass found the buffer empty or ending with the newline of a non-empty line |
| `MpdIntake.DueIsChunkIndependent` | src/Protocols/MPD.cpp:174-239 | the lines due and the tail kept depend on the bytes received, not on how they were cut |
| `MpdIntake.PartialsAreExtra` | src/Protocols/MPD.cpp:191-239 | no complete line is lost; each pass over an unterminated tail dispatches that tail once too often |
| `MpdIntake.PassDispatches` | src/Protocols/MPD.cpp:190-239 | one pass dispatches every non-empty closed line the tokeniser keeps, and the tail |
| `MpdIntake.CutCommandIsDispatchedTwice` | src/Protocols/MPD.cpp:191-239 | every command that arrives in two reads with a pass between them is dispatched twice, first cut |
| `MpdIntake.TwoPasses` | src/Protocols/MPD.cpp:190-239 | what two passes with a read in between dispatch |
| `MpdParse.TakeToken` | src/Protocols/MPD.cpp:207-223 | the loop body with its carry and its arguments is one turn of the parse function |
| `MpdParse.LookAtToken` | src/Protocols/MPD.cpp:207-223 | the branches of the body on the view itself: both quotes, a prefix or a suffix of 34 characters removed, views built from the carried one, and where each is undefined |
| `MpdParse.WithoutQuotes` | src/Protocols/MPD.cpp:208-209 | substr with a count that wraps round, on a lone quote as well |
| `MpdParse.CollectArguments` | src/Protocols/MPD.cpp:205-224 | the argument loop over the iterator equals the parse function on the tokens |
| `MpdParse.ParseCommandLine` | src/Protocols/MPD.cpp:196-224 | the whole line: carriage return, name, arguments |
| `MpdParse.GenerateFrom` | src/Protocols/MPD.cpp:185-240 | the generate step for one buffer yields the parsed lines and leaves the tail |
| `MpdParse.TokensFit` | src/Protocols/MPD.cpp:199-205 | every token of a line lies in it, at the offset it has |
| `MpdParse.ViewsStayInLine` | src/Protocols/MPD.cpp:210-221 | each turn keeps the carried view and the offsets inside the line |
| `MpdParse.TokensOfRender` | src/Protocols/MPD.cpp:199-224 | the space tokeniser sees every piece of a written command |
| `MpdParse.FirstArgumentDiffers` | src/Protocols/MPD.cpp:210-221 | a quoted argument holding a space never comes back as it was, whatever follows |
| `MpdParse.ArgsComeBackExactlyWhen` | src/Protocols/MPD.cpp:203-224 | arguments written bare or in quotes come back exactly when none in quotes holds a space |
| `MpdParse.BareFirstArgument` | src/Protocols/MPD.cpp:223 | an argument without quotes is pushed whole, whatever follows it |
| `MpdParse.NameIsFirstField` | src/Protocols/MPD.cpp:196-203 | the line of a command is the raw line without one carriage return, and its name is everything up to the first space |
| `MpdParse.ParseOfRenderExactlyWhen` | src/Protocols/MPD.cpp:196-224 | writing then parsing one command, each argument bare or in quotes, ended by LF or CRLF, is the identity on name and arguments if and only if no argument in quotes holds a space |
| `MpdParse.StreamComesBackExactlyWhen` | src/Protocols/MPD.cpp:185-240 | through both tokenisers a stream of such commands gives exactly those commands and empties the buffer, if and only if no argument in quotes holds a space |
| `MpdBadLines.ArgsUndefinedExactlyWhen` | src/Protocols/MPD.cpp:203-224 | the argument loop is undefined exactly when a token is empty, only opens or only closes a quote in fewer than 34 characters, or closes one that no earlier token opened |
| `MpdBadLines.LineUndefinedExactlyWhen` | src/Protocols/MPD.cpp:191-224 | a line is undefined exactly when it is empty or a token behind its name is such a one |
| `MpdBadLines.LinesUndefinedExactlyWhen` | src/Protocols/MPD.cpp:185-237 | a generate step is undefined exactly when one of the lines it dispatches is |
| `MpdBadLines.SpaceFreeIsGood` | src/Protocols/MPD.cpp:185-237 | a pass over whole written commands without spaces in their arguments is always defined |
| `MpdBadLines.CutLineExactlyWhen` | src/Protocols/MPD.cpp:210-215 | a command cut inside its first quoted argument is undefined up to 32 characters of the argument, and from 33 on runs without the argument |
| `MpdBadLines.SeveralWordsUndefinedExactlyWhen` | src/Protocols/MPD.cpp:207-221 | a correctly written command with one argument of several words is undefined exactly when an inner word is empty, the first or last word has 1 to 32 characters, or it starts with a space and does not end with one |
| `MpdBadLines.SeveralWordsMean` | src/Protocols/MPD.cpp:207-223 | and where it has a meaning: every inner word becomes an argument, and of the first and the last word together one more, which starts at the 34th character and is as long as both are beyond 33 and a space; empty ends are empty arguments |
| `MpdClientIds.CandidatesDiffer` | src/Protocols/MPD.cpp:141-147 | no identifier is tried twice within one turn of the circle |
| `MpdClientIds.TriedAllLive` | src/Protocols/MPD.cpp:142-147 | pigeonhole: no more identifiers are tried in vain than clients are live |
| `MpdClientIds.SearchEndsExactlyWhen` | src/Protocols/MPD.cpp:141-149 | the search ends exactly when an identifier is free |
| `MpdHistory.FreshIsNextFree` | src/Protocols/MPD.cpp:141-149 | the identifier found is the next free one above the counter, or the lowest free one when there is none |
| `MpdProto.MPDProto.NextClientId` | src/Protocols/MPD.cpp:141-149 | the do-while loop stops within one round more than live clients, at the first free identifier, never Client_None or Client_All, without leaving 32 bits |
| `MpdRun.NothingIsLost` | src/Protocols/MPD.cpp:78-252 | over every interleaving of pushes, ticks, sends, reads, idle and noidle: while the socket thread lives, drained, queued and unposted events are the pushed events in order; each client was told of each event that reached it or has its bit pending; waited-for and pending flags are disjoint; handled, received and batched messages are the messages made |
| `MpdRun.IdleClientIsToldEverything` | src/Protocols/MPD.cpp:105-111 | a waiting client has been told of every event of the kind since it connected |
| `MpdRun.EachClientInOrder` | src/Protocols/MPD.cpp:62-76 | the messages of each client are handled once, in the order in which they were made |
| `MpdHistory.GreetedFirst` | src/Protocols/MPD.cpp:149-153 | a new connection has been written the greeting and nothing else, and over every run in which it stays the greeting is the first thing it reads |
| `MpdHistory.NothingIsTakenBack` | src/Protocols/MPD.cpp:78-252 | over every run in which a client stays connected, what was written to it is only added to |
| `MpdHistory.ConnectedAfter` | src/Protocols/MPD.cpp:126-154 | which clients there are after any step: accepting adds one, disconnecting takes one out, a message brings back its own |
| `MpdHistory.AcceptPossibleExactlyWhen` | src/Protocols/MPD.cpp:137-147 | a connection can be accepted exactly while the thread runs and an identifier is free |
| `MpdHistory.CounterAfter` | src/Protocols/MPD.cpp:141-146 | the counter is the identifier given out last |
| `MpdHistory.GoneClientStartsAnew` | src/Protocols/MPD.cpp:257 | a message of a client that has gone is handled as if a client without a past had sent it |
| `MpdHistory.StartIsEmpty` | src/Protocols/MPD.cpp:20-25 | at the start nothing waits anywhere, and the first connection gets identifier 1 |
| `MpdPipeline.BufferStartsEmpty` | src/Protocols/MPD.cpp:149 | a connection starts with an empty buffer, whoever had its identifier before |
| `MpdPipeline.CommandsFollowLines` | src/Protocols/MPD.cpp:165-250 | over every legal run of reads, passes and both threads (which runs are legal: `MpdDefined.RunLegalExactlyWhen`): handled, received and batched for a client are together exactly what its dispatched lines mean, in order; while it stays connected those lines are the ones its own bytes and passes yield |
| `MpdPipeline.LinesAreYielded` | src/Protocols/MPD.cpp:165-240 | over every legal run, nothing other clients or the main thread do changes the lines dispatched for a connected client or the rest in its buffer |
| `MpdPipeline.RunMakes` | src/Protocols/MPD.cpp:185-240 | over every legal run, what is made for a client says what its lines mean, through disconnections and reused identifiers |
| `MpdPipeline.SentIsHandled` | src/Protocols/MPD.cpp:165-250 | end to end, over every legal run: commands with bare arguments and arguments in quotes without spaces, sent in pieces however cut with passes on whole lines, are exactly the commands handled, received and batched |
| `MpdDefined.RunLegalExactlyWhen` | src/Protocols/MPD.cpp:62-250 | over every run: it is legal exactly when the outside world can make its steps where they come, no pass meets a bad line and no handler meets a player that throws |
| `MpdDefined.EveryRunStops` | src/Protocols/MPD.cpp:62-250 | every run is legal up to its first step that the world cannot make or that meets a bad line or a throwing player |
| `MpdDefined.PossibleExactlyWhen` | src/Protocols/MPD.cpp:165-250 | one step the world can make is defined exactly when it is not a pass over a bad line or the handling of a message that throws, both read off the state before it |
| `MpdDefined.HandleCrashesExactlyWhen` | src/Protocols/MPD.cpp:254-312 | a top-level message lets an exception out exactly when it runs and the player throws in it, or in the list it ends |
| `MpdDefined.ListCrashesExactlyWhen` | src/Protocols/MPD.cpp:314-341 | a list lets an exception out exactly when its commands, run on the player alone, reach one that throws before one that raises an error |
| `MpdDefined.CutPassExactlyWhen` | src/Protocols/MPD.cpp:185-240 | a pass over a command cut inside its first quoted argument is undefined exactly when fewer than 33 characters of the argument have come through |
| `MpdRun.StepKeepsInv` | src/Protocols/MPD.cpp:62-252 | one step of either thread keeps the invariant behind the above |
| `MpdRun.TickIsItsSteps` | src/Server.cpp:124-152 | a whole tick of the server, a loop over a queue that is cleared afterwards and a loop of posts, is the run of single steps that handles each received message and posts each event; it crashes exactly when that run does |
| `MpdRun.QueueHandle` | src/Protocols/MPD.cpp:254-341 | no handler reads or changes the receive queue, with whole lists included |
| `MpdRun.OtherStepKeepsInv` | src/Protocols/MPD.cpp:83-250 | every step other than handling a message keeps it, and cannot crash |
| `MpdRun.DrainSurvivesExactlyWhen` | src/Protocols/MPD.cpp:89-100 | draining ends the socket thread exactly when some queued event has no idle flag |
| `MpdRun.ThreadDiesOnlyOfAnEvent` | src/Protocols/MPD.cpp:83-114 | over every run, if the socket thread has returned, some event without an idle flag was pushed |
| `MpdSurvival.ThreadSurvives` | src/Protocols/MPD.cpp:83-114 | the socket thread is alive after every run whose pushed events have idle flags, if the player pushes no others |
| `MpdSurvival.PlayerSparesTheThread` | src/ActivePlaylist.cpp:153-338 | with the player of ActivePlaylist behind the commands, whatever steps of it they stand for, and whatever it pushes by itself in between, the socket thread is alive after every run |
| `MpdNews.CommandIsTold` | src/Protocols/MPD.cpp:83-111 | a command that changes the player, the tick that handles it and the next pass of the socket thread: every other waiting client reads exactly the words of the subsystems it changed, in order, as far as it asked for them by word or asked for everything |
| `MpdNews.ChangeIsTold` | src/Protocols/MPD.cpp:83-111 | the same for what happens to the player by itself, a song that ends or a state that changes |
| `MpdNews.StepTells` | src/ActivePlaylist.cpp:153-338 | every defined step of the player pushes exactly the events of the subsystems it changes, in order |
| `MpdNews.WaitsForExactly` | src/Protocols/MPD/Commands.cpp:117-151 | a client in idle waits for exactly the subsystems its words name, if the uninitialised flag word held none of the four |
| `MpdNews.BitIsNamed` | src/Protocols/MPD.cpp:375-386 | the flag of each event is reported under the word of its subsystem |
| `MpdNews.AddIsToldAsPlaylist` | src/ActivePlaylist.cpp:153-158 | an added song is told as "playlist" to who asked for it or for everything, and to nobody who asked for other words |
| `MpdIdle.ReportNamedExactlyWhen` | src/Protocols/MPD/Commands.cpp:275-290 | over every run: the report of an idle names what it clears if and only if it clears one kind; two or more are all cleared and named "TODO" |
| `MpdIdle.IdleIsNeverClosed` | src/Protocols/MPD/Commands.cpp:117-151 | an idle writes at most the report of what is pending, and never a closing reply, answered or not |
| `MpdIdle.ReportLeavesWaiting` | src/Protocols/MPD.cpp:105-111 | a client that is told of an event goes on waiting for the same kinds, without a closing reply |
| `MpdIdle.PendingAreKinds` | src/Protocols/MPD.cpp:89-111 | whatever is pending for a client is one of the four kinds events trigger |
| `MpdIdle.NamesAreTelling` | src/Protocols/MPD.cpp:375-386 | a report other than "TODO" tells the client exactly which bits were cleared, and the report of an event always is one |
| `MpdIdle.TwoPendingAreNamedTodo` | src/Protocols/MPD/Commands.cpp:275-290 | any two kinds pending at once are both cleared by an idle for both, and neither is named |
| `MpdIdle.IdleWaitsForItsArgumentsExactlyWhen` | src/Protocols/MPD/Commands.cpp:117-151 | idle with arguments waits for exactly what it names if and only if the uninitialised flag word holds no other bit |
| `MpdHandler.QuietIdle` | src/Protocols/MPD/Commands.cpp:275-290 | a pending bit is cleared only by an idle that asks for it and reports it |
| `MpdHandler.CommandIsLocal` | src/Protocols/MPD/Commands.cpp:83-196 | a command, with a whole list included, writes to and changes only its own client |
| `MpdCommandLists.RepliesAlign` | src/Protocols/MPD.cpp:254-312 | every uninterrupted top-level message yields exactly one closing OK or ACK, last, unless it is queued or silent, and then none |
| `MpdAnswers.PlayerAnswers` | src/Protocols/MPD.cpp:289-303 | what a client reads in answer to a command of the player: the lines of the handler, all and in order, then OK, or the error with the name of the command; the player and the events are the handler's, and nobody else is written to |
| `MpdAnswers.AllLinesAreWritten` | src/Protocols/MPD.cpp:366-373 | the lines a handler writes are added to the history all and in order |
| `MpdAnswers.UnknownIsRefused` | src/Protocols/MPD.cpp:305-311 | an unknown name gets error 5 with its line, and changes nothing, in an open list as well |
| `MpdAnswers.WrongCountIsRefused` | src/Protocols/MPD.cpp:270-276 | a known command outside a list with a wrong number of arguments gets error 2 with its name, and does not run |
| `MpdAnswers.UnservedIsRefused` | src/Protocols/MPD/Commands.cpp:190-193 | a command of the table that nothing serves gets error 5 |
| `MpdAnswers.UnknownWordIsRefused` | src/Protocols/MPD/Commands.cpp:117-149 | an idle with an unknown word gets error 2 for the first one, and nothing else changes |
| `MpdAnswers.NoidleStopsWaiting` | src/Protocols/MPD/Commands.cpp:300-304 | noidle ends the waiting, keeps what is pending and is closed by OK |
| `MpdAnswers.OpeningIsSilent` | src/Protocols/MPD/Commands.cpp:498-513 | opening a list writes nothing and changes two flags of the client |
| `MpdAnswers.ListedAnswers` | src/Protocols/MPD.cpp:263-310 | what a listed command does and raises: the same as outside, with list_OK for OK and the errors passed on |
| `MpdTable.FitExactlyWhen` | src/Protocols/MPD/Commands.hpp:166-289 | with which numbers of arguments each served command runs |
| `MpdTable.Lookup` | src/Protocols/MPD.cpp:226-229 | what the search for a name finds has that name, so a reply naming the command names what was sent |
| `MpdTable.EveryServedIsFound` | src/Protocols/MPD.cpp:226-229 | every served command is found under its name |
| `MpdCommandLists.CommandReplies` | src/Protocols/MPD/Commands.cpp:83-196 | the same for a command that runs |
| `MpdCommandLists.MaskKnownExactlyWhen` | src/Protocols/MPD/Commands.cpp:123-149 | idle refuses exactly the argument lists with a word it does not know |
| `MpdCommandLists.EndEmptiesList` | src/Protocols/MPD.cpp:263-268 | command_list_end empties the list and leaves list mode if and only if the literal comparison recognises its name |
| `MpdOpenList.OpenListNeverEnds` | src/Protocols/MPD.cpp:254-268 | where the literal comparison fails, over every run in which the client stays connected: its open list stays open and every known command handled for it is queued in order, command_list_end included |
| `MpdOpenList.OpenListQueues` | src/Protocols/MPD.cpp:263-268 | there, no message of such a client touches the player or the events |
| `MpdCommandLists.RunAllRefines` | src/Protocols/MPD.cpp:314-341 | the list loop and sending singly up to the first ACK end alike |
| `MpdCommandLists.FailingPosition` | src/Protocols/MPD.cpp:321-337 | the error of a list carries the position of the command that raised it; those before it ran, none after it was started |
| `MpdReplies.AckPositionRightExactlyWhen` | src/Protocols/MPD/Acks.cpp:35-59 | the position in the ACK that ends a list is 0, and right if and only if the first command failed |
| `MpdReplies.OpeningMakesNoDifference` | src/Protocols/MPD/Commands.cpp:498-513 | whether a list is opened with or without the wish for list_OK, everything sent after it gets the same replies |
| `MpdReplies.TwinHandle` | src/Protocols/MPD.cpp:254-312 | no message is handled differently because of the verbose flag |
| `MpdCommandLists.ListedAreQueued` | src/Protocols/MPD.cpp:263-268 | while a list is open its commands are only remembered, in order |
| `MpdCommandLists.CommandListRefines` | src/Protocols/MPD.cpp:254-340 | for known commands other than the list commands: begin, commands, end leave the same player, events and client as sending the commands singly up to the first ACK |
| `MpdProto.MPDProto.AcceptConnection` | src/Protocols/MPD.cpp:137-154 | a connection gets a fresh identifier and the greeting |
| `MpdProto.MPDProto.PostEvent` | src/Protocols/MPD.cpp:53-60 | only broadcast events are queued |
| `MpdProto.MPDProto.NotifyClients` | src/Protocols/MPD.cpp:105-111 | the fan-out over the client map, in whatever order it yields its clients, equals the fan-out function |
| `MpdProto.MPDProto.DrainSendQueue` | src/Protocols/MPD.cpp:83-114 | the send half of the socket thread |
| `MpdProto.MPDProto.HandOffMessages` | src/Protocols/MPD.cpp:243-250 | the batch moves behind the receive queue, in order |
| `MpdProto.MPDProto.HandleMessage` | src/Protocols/MPD.cpp:254-312 | top-level and listed messages, and the recursion through lists ends |
| `MpdProto.MPDProto.RunCommandOf` | src/Protocols/MPD/Commands.cpp:83-196 | dispatch on the command |
| `MpdProto.MPDProto.DoIdleFor` | src/Protocols/MPD/Commands.cpp:275-290 | the idle handler |
| `MpdProto.MPDProto.DoNoidle` | src/Protocols/MPD/Commands.cpp:300-304 | the noidle handler |
| `MpdProto.MPDProto.DoCommandList` | src/Protocols/MPD/Commands.cpp:498-513 | opening and ending a list |
| `MpdProto.MPDProto.RunCommandList` | src/Protocols/MPD.cpp:314-341 | the list is taken out, cleared, and run up to the first error |
| `MpdProto.MPDProto.HandleReceived` | src/Protocols/MPD.cpp:62-76 | everything received is handled in order |
| `MpdProto.MPDProto.OnTick` | src/Server.cpp:124-152 | update, then post every event and clear |
| `MpdProto.MPDProto.PushEvents` | src/Server.cpp:119-122 | events are appended in order |
| `Playlist.StoredTwiceExactlyWhen` | src/Playlist.cpp:45-49 | URL normalisation is idempotent exactly when no prefix is left that would be stripped again |
| `Playlist.AddPuts` | src/Playlist.cpp:264-301 | what adding puts into the list and where: one prefix is taken off, a file that does not say so gets "file://", a file has its URL as data URL, the song has the next identifier, and the others keep their order |
| `Playlist.PlainIsStoredAs` | src/Playlist.cpp:289-293 | a URL without a prefix is stored as it is, except that a file that does not say so gets "file://" |
| `Playlist.PrefixIsTakenOff` | src/Playlist.cpp:266-270 | "youtube:" and "yt:" are taken off alike, once |
| `Playlist.HasExactlyWhen` | src/Playlist.cpp:48 | the search for a text in a text finds it exactly when it stands somewhere in it |
| `Playlist.RemovesFirstWithText` | src/Playlist.cpp:153-161 | removal by text takes out the first song that has it as URL or title |
| `Playlist.RunKeepsIdentity` | src/Playlist.cpp:145-204 | over every run of add, the removals, clear, shuffle, update and reload: identifiers are unique and below the counter, and a song with an old identifier is that old song |
| `Playlist.GoneForGood` | src/Playlist.cpp:162-178 | an identifier given out and gone never comes back |
| `Playlist.IndexOfSongAt` | src/Playlist.cpp:99-143 | position to identifier and back is the identity |
| `Playlist.RemovalByPositionIsById` | src/Playlist.cpp:162-175 | in the plain list, removal by position takes out that song and keeps the order of the rest, as does removal by its identifier; nothing happens exactly for a bad position or an unknown identifier |
| `Playlist.PositionHonouredExactlyWhen` | src/Playlist.cpp:278-285 | a new song gets the position asked for exactly when it lies inside the list |
| `Playlist.AddFromKeepsIdentityExactlyWhen` | src/Playlist.cpp:199-204 | addFromPlaylist keeps identifiers unique exactly in the two degenerate cases |
| `Playlist.AddFromPuts` | src/Playlist.cpp:199-204 | what addFromPlaylist leaves: the old songs, as many blank ones as the other list has, and its songs in order under the next identifiers |
| `Playlist.SongList.AddSong` | src/Playlist.cpp:264-301 | _addSong in place equals the add function |
| `Playlist.IndexIn` | src/Playlist.cpp:99-108 | the search loop finds the first song with the identifier |
| `Playlist.SongList.RemoveSongId` | src/Playlist.cpp:167-175 | removal by identifier in place |
| `Playlist.SongList.RemoveSongAt` | src/Playlist.cpp:162-166 | removal by position in place |
| `Playlist.SongList.RemoveAllSongs` | src/Playlist.cpp:176-179 | clearing keeps the counter |
| `PlaylistFile.SaveThenLoadExactlyWhen` | src/Playlist.cpp:218-262 | saving then loading gives the same URLs in order if and only if every URL is non-empty, starts with no #, holds no newline and is left alone by normalisation; for all lists whose other fields hold no newline |
| `PlaylistFile.StoredUrlSurvivesExactlyWhen` | src/Playlist.cpp:264-301 | when a URL as _addSong stores it is such a URL |
| `PlaylistFile.TitleWithNewlineAddsSong` | src/Playlist.cpp:245 | a newline in a title adds a song |
| `PlaylistFile.LoadsEachLineOnceExactlyWhen` | src/Playlist.cpp:225-233 | for every text: each line is loaded once if and only if what follows the last newline is skipped; otherwise that line is loaded twice |
| `PlaylistFile.LastLineLoadedTwice` | src/Playlist.cpp:225-233 | the smallest instance: a file of one line without a newline |
| `PlaylistFile.UrlsOfLoad` | src/Playlist.cpp:218-235 | the loaded URLs are those of the kept lines |
| `PlaylistFile.GetLine` | src/Playlist.cpp:227 | getline on a stream with its two state bits yields the next of the lines still to come |
| `PlaylistFile.LoadFromFile` | src/Playlist.cpp:222-233 | the read loop equals the load function on the text |
| `PlaylistFile.SaveToFile` | src/Playlist.cpp:241-259 | the write loop yields the saved text |
| `PlaylistInfo.SavedReadsBack` | src/Playlist.cpp:236-262 | a reader for the whole file gets back durations, titles, data URLs, thumbnails, tags and URLs of all songs in order, for fields that stay on their line, URLs without commas and keys without "=" |
| `PlaylistInfo.UnquotedBack` | src/Playlist.cpp:254 | reading a quoted tag up to its closing quote undoes the escaping |
| `Duration.TextDeterminesTime` | src/Util/Logging.cpp:16-62 | reading the printed text gives exactly the whole milliseconds, for every duration, negative ones included |
| `Duration.SameTextExactlyWhen` | src/Util/Logging.cpp:16-62 | two durations print alike exactly when their whole milliseconds agree |
| `Duration.NullExactlyWhen` | src/Util/Logging.cpp:58-59 | "null" exactly below one millisecond |
| `Duration.PartsSumBack` | src/Util/Logging.cpp:19-34 | the numbers printed are in range, of one sign, and sum back to the input |
| `Duration.FractionRightExactlyWhen` | src/Util/Logging.cpp:53-56 | read as a decimal fraction the part of the text behind the dot is right exactly for 0 and for 100 milliseconds and more |
| `Duration.WrittenLooksLike` | src/Util/Logging.cpp:38-56 | the text from a second on: as many clock fields as needed, the first without a leading zero, the others two wide, then a dot and two digits below 100 milliseconds and three from there on |
| `Duration.WrittenBelowASecond` | src/Util/Logging.cpp:53-56 | the text below a second: the bare number of milliseconds |
| `Duration.NegativeLooksLike` | src/Util/Logging.cpp:53-56 | behind the dot of a negative duration: a signed number without padding, or two zeros |
| `Duration.Components` | src/Util/Logging.cpp:18-28 | taking off days, hours, minutes, seconds and milliseconds in turn gives the mixed-radix digits |
| `Duration.FormatClock` | src/Util/Logging.cpp:38-52 | the four conditional writes give the shown numbers joined by colons |
| `Duration.Format` | src/Util/Logging.cpp:53-59 | the whole text |
| `Duration.ToString` | src/Util/Logging.cpp:16-62 | the printer equals the text function on whole milliseconds |
| `PlayRuns.RunOwesExactlyWhen` | src/ActivePlaylist.cpp:153-228 | over every run, the queue holds one entry for each listed song and one more for each song added since the last rebuild throughout, if and only if no step of the run, read off the state before it, puts the current song in again or removes unevenly |
| `PlayRuns.StepOwesExactlyWhen` | src/ActivePlaylist.cpp:81-228 | the same for one step of any kind: kept exactly when the step is not one of the named breaking ones |
| `PlayOrder.ExcessChanged` | src/ActivePlaylist.cpp:375-407 | changeSong, consuming included, adds to the queue relative to the list exactly what its insertion branch adds |
| `PlayOrder.NextIsQueued` | src/ActivePlaylist.cpp:486-495 | without a rebuild the next song is still queued once the current one is consumed |
| `PlayRemoval.RemoveOwes` | src/ActivePlaylist.cpp:160-211 | a removal by position, identifier or text, whatever the erased iterator reads, keeps the count exactly when it is not one of those named on the state before it |
| `PlayRuns.RebuildHeals` | src/ActivePlaylist.cpp:212-228 | clearing and shuffling put the queue right from any state |
| `PlayMeaning.PermutationExactlyWhen` | src/ActivePlaylist.cpp:697-706 | the queue is a permutation of the songs exactly when nothing was added since it was rebuilt, and then has no duplicate |
| `PlayRuns.RunPermutationExactlyWhen` | src/ActivePlaylist.cpp:153-228 | the same after every unbroken run of a new player |
| `PlayRuns.AddedTwice` | src/ActivePlaylist.cpp:153-158 | one added song stands in the queue twice |
| `PlayMeaning.ReinsertsExactlyWhen` | src/ActivePlaylist.cpp:406-407 | the insertion branch is taken exactly for the current song again: just consumed and queued once, or gone from the queue before |
| `PlayMeaning.NextReinsertsExactlyWhen` | src/ActivePlaylist.cpp:138-144 | next takes it exactly with repeat and consume on and the current song the only one |
| `PlayRemoval.RemovalBreaksExactlyWhen` | src/ActivePlaylist.cpp:195-211 | when removal by identifier leaves the queue wrong: exactly which next() in between, under which flags |
| `PlayRemoval.PositionIsIdentifier` | src/ActivePlaylist.cpp:177-194 | removal by position is removal by identifier while no next() comes between |
| `PlayRemoval.PositionBreaksExactlyWhen` | src/ActivePlaylist.cpp:177-194 | when removal by position leaves the queue wrong, read off the state before it |
| `PlayRemoval.TextBreaksExactlyWhen` | src/ActivePlaylist.cpp:160-176 | when removal by text does: different first matches in queue and list, or a rebuild with a match left |
| `PlayRemoval.PositionNamesSongExactlyWhen` | src/ActivePlaylist.cpp:177-194 | removal by position takes the named song exactly when the next() in between consumed nothing at or in front of it |
| `PlayRemoval.RemovingGoneBreaksExactlyWhen` | src/ActivePlaylist.cpp:195-211 | removing an unlisted identifier breaks the count exactly when it is still queued; with a rebuild in between, exactly when that puts the only song back |
| `PlayRemoval.RemovesOneExactlyWhen` | src/ActivePlaylist.cpp:195-211 | removal by identifier takes out that song alone if and only if no next() in between consumed another |
| `PlayRemoval.DeleteByPositionIsDeleteById` | src/Protocols/MPD/Commands.cpp:257-273 | delete by position is deleteid of that song; the rest keeps its order, and another song leaves with it exactly when a next() in between consumed it; the errors are exactly the bad positions and the identifiers nobody has |
| `PlayCurrent.StepFailsExactlyWhen` | src/ActivePlaylist.cpp:81-228 | every step in every state: undefined exactly when it erases the current song where it no longer stands, steps in front of the only entry, or gets a position that is not there |
| `PlayCurrent.NextFailsExactlyWhen` | src/ActivePlaylist.cpp:386-389 | while the queue fits, next() is undefined exactly when it would consume an unlisted song |
| `PlayCurrent.RemovalFailsExactlyWhen` | src/ActivePlaylist.cpp:195-211 | while the queue fits and the current song is listed, removal is undefined exactly when the next() in between would consume the song whose only entry was just erased |
| `PlayCurrent.MoveOnListed` | src/ActivePlaylist.cpp:138-144 | from any state, the song next() goes to is listed afterwards exactly when it was listed and is not the one consumed |
| `PlayCurrent.StepStrandsExactlyWhen` | src/ActivePlaylist.cpp:153-228 | every defined step, songs added or not: the current song is none or listed afterwards, exactly when the step is not one of those named on the state before it |
| `PlayCurrent.RunListedExactlyWhen` | src/ActivePlaylist.cpp:153-228 | over every defined run, additions included, the current song is none or listed throughout if and only if no step strands it |
| `PlayCurrent.NextStraysExactlyWhen` | src/ActivePlaylist.cpp:469-496 | while the queue fits, next() strays with repeat on exactly when it consumes the only song; with repeat off exactly when it goes to a song added since the last rebuild that has left the list or is being consumed |
| `PlayWhole.RunDefinedExactlyWhen` | src/ActivePlaylist.cpp:81-228 | a run is defined if and only if no step of it fails |
| `PlayWhole.SaneFailsExactlyWhen` | src/ActivePlaylist.cpp:81-228 | while the queue fits and the current song is listed, only three things can be undefined, each with its condition |
| `PlayWhole.RunSaneExactlyWhen` | src/ActivePlaylist.cpp:81-228 | over every run: defined, the queue fitting and the current song listed throughout, if and only if every step is harmless where it happens |
| `PlayWhole.NewPlayerSaneExactlyWhen` | src/ActivePlaylist.cpp:19-25 | the same over every run of a new player |
| `PlayWhole.TwoEntriesStrand` | src/ActivePlaylist.cpp:153-158 | from a new player: two songs added, played with consume and two next()s leave an unlisted current song and an undefined next(), no step having broken the count |
| `PlayWhole.RunTidyExactlyWhen` | src/ActivePlaylist.cpp:153-228 | over every defined run, permutation and listed current song hold together throughout if and only if no step adds, breaks or strands |
| `PlayRuns.CounterMovesOnlyOnAdd` | src/Playlist.cpp:289 | only adding gives out an identifier, and one |
| `PlayControls.RunTurns` | src/ActivePlaylist.cpp:81-525 | over every run the playbin is in the state the last step to touch it put it in, the mark of a changed song, the current song and the options are what the last step to set them made them; which steps do is read off the state before them |
| `PlayControls.StepTurns` | src/ActivePlaylist.cpp:81-525 | the same for every defined step |
| `PlayControls.ChangeSets` | src/ActivePlaylist.cpp:399-451 | changeSong starts the new song in the state asked for and marks the change if one was playing; without a song nothing plays |
| `PlayControls.PlayStarts` | src/ActivePlaylist.cpp:96-116 | play starts a song of the list, or the current one again, and ends in Playing whenever there is one |
| `PlayControls.ChosenSongStarts` | src/ActivePlaylist.cpp:81-95 | a song chosen by position or identifier is current and playing afterwards |
| `PlayControls.FinishTurns` | src/ActivePlaylist.cpp:638-661 | the end of a song: nothing but the mark while a change is marked; otherwise Playing, Ready or Null with its condition |
| `PlayControls.PlayingMeansCurrent` | src/ActivePlaylist.cpp:81-525 | over every run without messages of the playbin: it plays only when there is a current song |
| `PlayControls.AlwaysStays` | src/ActivePlaylist.cpp:649-658 | single stays on and with its song however many songs end |
| `PlayControls.OneshotLastsOneSong` | src/ActivePlaylist.cpp:649-658 | oneshot is off after one song, which is played once more under repeat and followed by the next |
| `PlayControls.OrdersReached` | src/ActivePlaylist.cpp:220-228 | shuffling reaches exactly the orders of the same songs, and the queue follows |
| `PlayControls.RandomReorders` | src/ActivePlaylist.cpp:287-304 | what switching random can do to the queue |
| `PlayControls.AddQueuesTwice` | src/ActivePlaylist.cpp:153-158 | where an added song can stand in the queue: anywhere under random and once more at the end, or twice at the end |
| `PlayCycles.ConsumeDrainsCompletely` | src/ActivePlaylist.cpp:96-144 | consume on, repeat off: play fixes an order, the k-th next makes its k-th song current with exactly the rest queued and listed, and after the last all is empty and stays so |
| `PlayCycles.RepeatGoesRound` | src/ActivePlaylist.cpp:469-496 | repeat on, random and consume off: the k-th next from song i plays song i + k modulo the number of songs |
| `PlayCycles.EachOnceInARound` | src/ActivePlaylist.cpp:469-496 | so in any n steps each of n songs is visited once, and the n-th step returns |
| `PlayCycles.StraightThrough` | src/ActivePlaylist.cpp:469-496 | all flags off: the k-th next from song i plays song i + k, and behind the last nothing is current and nothing plays |
| `PlayCycles.BehindTheEnd` | src/ActivePlaylist.cpp:482-485 | next behind the end goes to the second song |
| `PlayCycles.NowhereToGo` | src/ActivePlaylist.cpp:471-481 | without songs, or with nothing queued and repeat off, both searches give up and change nothing; under repeat there is always a next song |
| `PlayCycles.RandomNextReachesExactly` | src/ActivePlaylist.cpp:476-495 | repeat and random on: the possible next songs are exactly the other listed songs, or the only one |
| `PlayCycles.NextUnderRepeat` | src/ActivePlaylist.cpp:469-496 | for every shuffle outcome a listed song, another one when there are two |
| `PlayCycles.StatusForetellsNext` | src/Protocols/MPD/Commands.cpp:467-475 | status changes at most the queue, and without a current song nothing; it names where next goes unless repeat and random are both on |
| `PlayCycles.PreviousRightExactlyWhen` | src/ActivePlaylist.cpp:511-524 | previousSong finds the predecessor exactly from the third place on and from the first of two; it leaves the queue exactly with one song |
| `PlayCycles.PreviousGoesTo` | src/ActivePlaylist.cpp:511-524 | where previous goes from each place of the queue |
| `PlayCycles.RunPushesKnownEvents` | src/ActivePlaylist.cpp:153-338 | over every run the player pushes only events with an idle flag |
| `ActiveList.ActiveList.constructor` | src/ActivePlaylist.cpp:19-25 | a new player |
| `ActiveList.ActiveList.ResetQueue` | src/ActivePlaylist.cpp:697-702 | the loop rebuilds the queue as the identifiers in list order |
| `ActiveList.ActiveList.ShuffleQueue` | src/ActivePlaylist.cpp:703-706 | any order of the same entries |
| `ActiveList.ActiveList.AddedSong` | src/ActivePlaylist.cpp:676-689 | inserts at a random place or at the end |
| `ActiveList.ActiveList.ChangeSong` | src/ActivePlaylist.cpp:375-467 | consume, select, insert, set the playbin, push the event: the whole new state |
| `ActiveList.ActiveList.NextSong` | src/ActivePlaylist.cpp:469-496 | the search, and the rebuild it does under repeat |
| `ActiveList.ActiveList.PreviousSong` | src/ActivePlaylist.cpp:498-525 | the search with its shifted ends; not callable where the iterator leaves the queue |
| `ActiveList.ActiveList.Play` | src/ActivePlaylist.cpp:96-116 | restart the current song, or rebuild and play the front |
| `ActiveList.ActiveList.PlaySong` | src/ActivePlaylist.cpp:81-87 | by position, nothing when out of range |
| `ActiveList.ActiveList.PlaySongID` | src/ActivePlaylist.cpp:88-94 | by identifier, nothing when unknown |
| `ActiveList.ActiveList.Resume` | src/ActivePlaylist.cpp:125-137 | play without a current song, otherwise only from paused |
| `ActiveList.ActiveList.Next` | src/ActivePlaylist.cpp:138-144 | next song in the present state of the playbin |
| `ActiveList.ActiveList.Previous` | src/ActivePlaylist.cpp:145-151 | previous song likewise |
| `ActiveList.ActiveList.OnAboutToFinish` | src/ActivePlaylist.cpp:638-661 | song change pending, single, oneshot, repeat, or on to the next |
| `ActiveList.ActiveList.AddSong` | src/ActivePlaylist.cpp:153-158 | into the list, into the queue, and into the queue again |
| `ActiveList.ActiveList.RemoveSong` | src/ActivePlaylist.cpp:160-176 | first match of the queue and first match of the list |
| `ActiveList.ActiveList.RemoveSongAt` | src/ActivePlaylist.cpp:177-194 | by position, in the list as it is after the next() in between |
| `ActiveList.ActiveList.RemoveSongID` | src/ActivePlaylist.cpp:195-211 | by identifier |
| `ActiveList.ActiveList.RemoveAllSongs` | src/ActivePlaylist.cpp:212-218 | list and queue empty, current song kept |
| `ActiveList.ActiveList.Shuffle` | src/ActivePlaylist.cpp:220-228 | reorder, rebuild, shuffle again under random |
| `ActiveList.ActiveList.SetRandom` | src/ActivePlaylist.cpp:287-304 | shuffles or rebuilds only on a change |
| `ActiveList.ActiveList.SetSingle` | src/ActivePlaylist.cpp:325-338 | sets both flags |

## Left out

- Sockets, epoll, `recv` and `send`: bytes come in as arbitrary pieces, replies go out to an append-only history per client.
- GStreamer, bus messages, tags and buffering: the playbin is a state out of four that the environment may change at any step; failures to change state and the live flag are not modelled.
- youtube-dl, JSON, the file system, path expansion and the song update task: a song's details may change at any step, its URL and identifier do not.
- `close()` of the protocol, which ends the socket thread by clearing its flag, and `stop()` of the socket server.
- Configuration, loggers, volume arithmetic on floats and the wall clock: they would only add easy members.
- The player behind the protocol is a parameter of the protocol modules, so every command that works on it (`play`, `pause`, `setvol`, `status` and the rest) is one arbitrary player step there, but for `MpdSurvival` and `MpdNews`. Commands that only some builds have are not in `MpdTable`.
- `WorkQueue.Pool.Start`: starting a pool that is already running destroys joinable threads and ends the process; the step is offered for a stopped pool only. `setWorkerCount` is its `Resize` step between a stop and a start; it has no method.
- C++ lifetime: views into a buffer that is reassigned, pointers into a deque that has grown or shrunk, and data races on flags read without a lock are not captured; identifiers and values take their place.
- `Playlist.SongList.AddSong`: does not model wrap-around of the song counter, which is 64 bits wide.
- `Duration.ToString`: does not model the 64-bit range of the argument, because nothing in it can overflow.
- `MpdProto.MPDProto.PostEvent`: events posted to one client are dropped by the source, so only the broadcast path has an effect.
- `ActiveList.ActiveList.RemoveSong`: of queue entries whose song is gone, which compare equal to the text is a parameter, because the source reads freed records there.
- `SetConsume`, `SetRepeat`, `SetVolume`, `stop` and `pause` of the player are steps of `ActivePlaylist.Apply` only; as methods they would be single assignments.
- Loading a file into the playing list and adding from a playlist to it: nothing in the source calls them on that object.
