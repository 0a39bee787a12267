# A verified model of the chat server and its load generator

The repository holds a single-threaded chat server with two readiness back ends
and a Python load generator. This project models the server's event handling,
its output queues, the poll(2) back end, and the generator's scheduling,
bookkeeping and reporting, and proves what they promise. `dafny verify
dfyconfig.toml` checks all of it.

## How it is organised

| file | subject |
|---|---|
| `text.dfy`, `messages.dfy` | byte strings, lines, tokens; the texts the server sends |
| `kernel.dfy` | accept, recv, send and close as an adversary with a log |
| `readiness.dfy`, `poll_dispatcher.dfy` | the map from descriptor to interest; the array that implements it |
| `server_common.dfy` | a connection's output: fast path, queue, budget, write interest |
| `rooms.dfy` | the room table |
| `server_state.dfy`, `server_effects.dfy` | snapshots, the invariant, and what each event does |
| `server_runs.dfy`, `chat_server.dfy` | abstract steps; the server itself, one method at a time |
| `server_theorems.dfy`, `run_theorems.dfy`, `delivery_theorems.dfy` | what the invariant and whole runs give clients; who gets which message |
| `frame_theorems.dfy` | what a client's next line does, told by its bytes |
| `server_metrics.dfy` | the histogram of batch sizes and its percentile |
| `offers.dfy` | offer scheduling and accounting over all workers |
| `load_generator.dfy`, `relay_theorems.dfy`, `phase_loop.dfy` | a worker's clients; its books, and how server and generator fit; offers and clients together |
| `rate_sweep.dfy`, `sweep_theorems.dfy`, `sweep_repeats.dfy` | the rate sweep, what its summary tells, and what repeats do to it |
| `spreadsheet.dfy`, `arithmetic.dfy` | spreadsheet names; products and quotients |

`ChatServer` is a class whose methods update a client table, a room list and
`ClientConnection` objects, as the C++ class does. Its predicate `Valid` is the
invariant between events: `Inv(Snapshot(), {}, {})`, where a snapshot holds each
client's record, its write bit, the kernel's byte logs and the log of failed and
blocked sends. Inside an event the last two arguments name a client whose output just failed and a room just left.
Long C++ functions are split: `handleRead` into `ReadRound`, `TakeIn`,
`HandleFrames` and `HandleFrame`, `processFrame` into `RunCommand` and its cases,
`acceptConnections` into `AcceptOnce`, `AcceptSocket` and `Prompt`. `Part` stands for the three
places that notify a room and then disconnect.

Ghost fields record what the program forgets: accepted messages (`outbox`), raw
frames cut and frames handled, and the kernel's position at the last budget
refill. The kernel logs its answers to recv and accept and the sends that failed
or would have blocked, the dispatcher its refusals: so contracts say who was
asked for data, and that nobody is dropped but for a full queue or a failure of
its own. A step (`ServerRuns.Does`) gives the exact effect of a frame, a read, a
flush, an arrival or a departure; `Run` shows that all the server ever does is
such steps, and that it handles every event it is given.

## Assumptions

- One `char` is one byte; only comparisons with a few constants matter.
- Integers are unbounded; rates, durations and percentile fractions are exact
  numbers (`real`, or a fraction p/q), not floating point.
- The kernel interrupts calls and delivers new connections only finitely often,
  takes any prefix of what it is offered, and gives a new connection a descriptor
  that is not in use. A failing `fcntl` counts as a refused registration.
- The dispatcher may refuse to register or to change interest, and then changes
  nothing; removing a registered descriptor succeeds. A `generous` kernel and a
  `reliable` dispatcher refuse nothing, and then no client is ever troubled.
- Python repeats a send that a signal interrupts.
- `poll` answers every slot and returns the number of non-zero answers.
- Case folding maps character by character and keeps digits and the underscore.
- Clock readings are arbitrary. What the benchmark runs do, and which offers the
  connections accept, are parameters of the theorems about them. A run's output
  file holds one row, valid or not; runs that differ only in their place in the
  sweep share a file, and the rows are read when all runs are over.

## Where the code differs from what one might expect

- `broadcast` stops at the first recipient whose output is rejected, and the
  sender's read then ends; `notifyRoom` carries on. Both are stated exactly.
- A room may have an empty name: `JOIN` with two spaces creates it. WHERE then
  says "room not found" although the room exists, and in no other case.
- After 32 frames complete frames stay buffered until more bytes arrive, since
  every round reads first. No theorem says that all frames are handled.
- A client that leaves without having sent a name is still announced in main-room.
- The percentile's rank is the ceiling only under an exact condition, which all
  fractions with denominators up to a million meet.
- Every run counts all offers exactly if the last one is due before the deadline.
  Rates up to one per nanosecond guarantee it; in a faster phase there are clock
  readings with which offers are lost.
- Apostrophes are stripped from a sheet's name, but the cut to 31 characters can
  leave one at its end: exactly if no number is added and the 31st of more
  characters is one.
- Rates, tiers and implementations may be listed twice on the command line. The
  summary tells the truth for every course of the runs exactly if nothing that is
  swept is listed twice. A repeated rate has two rows in a trial: it is not
  counted as sustained if all its runs succeed, and it can be counted as
  sustained in two trials though it failed in the second.

## Model

| member | source | states |
|---|---|---|
| `ChatServers.ChatServer.Run` | common/chat_server.cpp:181-217 | whatever batches of events arrive, the invariant holds after each, the whole change of state is a sequence of the eight kinds of steps of `ServerRuns.Does`, and every event of every batch was handled as it means, in order |
| `ChatServers.ChatServer.ServeBatch` | common/chat_server.cpp:203-210 | one iteration keeps the invariant and gives no connection more than 8192 bytes; it is one tick and then each event of the batch, from where the one before it ended, with all answers of recv and accept accounted for |
| `ChatServers.ChatServer.HandleEvent` | common/chat_server.cpp:584-604 | any event, also for a descriptor that is gone or used again, keeps the invariant and is a sequence of steps about its own descriptor; a known client is asked for data if and only if it is readable or in error, and one that is writable and still there is flushed last; the listener accepts and touches nobody else |
| `ChatServers.ChatServer.HandleRead` | common/chat_server.cpp:499-582 | terminates; a known client is asked at least once, all bytes the kernel gave are fed to it and all frames handled are counted; reading ends only when nothing is there, the stream ends or fails, the client is gone, a frame asks to stop, or a limit is reached: at most 8191 + 256 bytes, 32 frames and a username; below the cap only an incomplete frame of at most 4096 bytes stays buffered |
| `ChatServers.ChatServer.ReadRound` | common/chat_server.cpp:508-580 | one recv and what it completes, as a sequence of steps about that client: data is fed to it, the end of the stream or an error closes it, would-block does nothing |
| `ChatServers.ChatServer.ReceiveOnce` | common/chat_server.cpp:510-515 | appends exactly the received bytes to the buffer |
| `ChatServers.ChatServer.TakeIn` | common/chat_server.cpp:519-522 | after a read the buffer is within 8192 bytes or the client is gone, and what happened is a feed followed by the counted handling of frames |
| `ChatServers.ChatServer.HandleFrames` | common/chat_server.cpp:523-563 | a sequence of steps about that client, one for each frame counted; it stops exactly if the client is gone or a frame asks to, and otherwise ends with the cap reached or no newline and at most 4096 bytes in the buffer |
| `ChatServers.ChatServer.HandleFrame` | common/chat_server.cpp:536-562 | the first frame names the client, each later one has exactly the effect of a frame; the rest of the buffer stays |
| `ChatServers.ChatServer.CutFrame` | common/chat_server.cpp:536-540 | takes the frame and its newline out of the buffer and strips one carriage return |
| `ChatServers.ChatServer.Authenticate` | common/chat_server.cpp:541-549 | a named client enters main-room, and everyone there including itself gets one notice or is dropped |
| `ChatServers.ChatServer.ProcessFrame` | common/chat_server.cpp:394-461 | the exact effect of every kind of frame on every client, room, queue and registration, with the cases in which it reports false |
| `ChatServers.ChatServer.RunCommand` | common/chat_server.cpp:410-460 | the exact effect of LIST, JOIN, LEAVE, WHERE and QUIT, and of a malformed command, which does nothing |
| `ChatServers.ChatServer.Relocate` | common/chat_server.cpp:417-442 | JOIN of another room and LEAVE: those left behind hear one notice, those joined and the mover another, nobody else hears anything or changes room; every list keeps its order, without the mover and those dropped, and the mover ends its new one; an emptied room is gone |
| `ChatServers.ChatServer.JoinAgain` | common/chat_server.cpp:417-431 | JOIN of one's own room notifies nobody and only moves the client to the end of its list |
| `ChatServers.ChatServer.Broadcast` | common/chat_server.cpp:463-497 | true: every other member of the room got exactly one copy; false: the members before the first that could not take it got one, that one is dropped, nobody after it got any |
| `ChatServers.ChatServer.ChatMessage` | common/chat_server.cpp:463-468 | the message built word by word is the sender, then each word with a space, then one newline |
| `ChatServers.ChatServer.NotifyRoom` | common/chat_server.cpp:315-336 | every member of the room but one gets exactly one copy or is dropped, even while drops shrink the room; all others are untouched; a member is dropped if and only if it had no room for the message, its own send broke down or its own write interest was refused |
| `ChatServers.ChatServer.GiveMember` | common/chat_server.cpp:323-334 | one recipient of a notification or a broadcast |
| `ChatServers.ChatServer.GiveOrDrop` | common/chat_server.cpp:332-334 | a rejected output always ends in removal, and output is rejected if and only if it does not fit, its send breaks down or write interest is refused |
| `ChatServers.ChatServer.NeverTroubled` | common/chat_server.cpp:225-243 | where no send fails and no interest is refused nobody is ever troubled, so that only a full queue drops a client |
| `ChatServers.ChatServer.Disconnect` | common/chat_server.cpp:263-289 | removes the client from rooms, dispatcher, kernel and table and deletes the room it emptied; repeated, it does nothing |
| `ChatServers.ChatServer.RemoveFromRooms` | common/chat_server.cpp:245-251 | every list loses the client and nothing else |
| `ChatServers.ChatServer.DeleteEmptyRoom` | common/chat_server.cpp:253-261 | the room goes if it is empty and not main-room |
| `ChatServers.ChatServer.JoinRoom` | common/chat_server.cpp:298-313 | the room is found or created under a fresh id; the client leaves every list and ends that room's list |
| `ChatServers.ChatServer.FreshRoomId` | common/chat_server.cpp:303-306 | the new id is above every id in use |
| `ChatServers.ChatServer.RoomList` | common/chat_server.cpp:385-390 | the answer split at newlines is the table: header, one line per room in order, rule |
| `ChatServers.ChatServer.ListRooms` | common/chat_server.cpp:385-392 | LIST answers the client alone, or drops it |
| `ChatServers.ChatServer.Reply` | common/chat_server.cpp:443-452 | an answer reaches the client or the client is dropped |
| `ChatServers.ChatServer.Part` | common/chat_server.cpp:453-459 | QUIT, a closed peer and a failed flush: the rest of the room hears it once, then the client is gone |
| `ChatServers.ChatServer.CloseClient` | common/chat_server.cpp:566-580 | the end of a connection is announced in the client's room, also for a client without a name, and the client is dropped |
| `ChatServers.ChatServer.Expel` | common/chat_server.cpp:519-535 | a client over a limit is dropped without a word |
| `ChatServers.ChatServer.AcceptConnections` | common/chat_server.cpp:338-373 | accepts until none is waiting or accept fails; nobody who was there is affected; each connection accepted is a prompted client listed in no room, or could not be registered or prompted exactly once |
| `ChatServers.ChatServer.AcceptOnce` | common/chat_server.cpp:342-366 | one accept: a connection that cannot be registered or prompted leaves no trace but in the log |
| `ChatServers.ChatServer.AcceptSocket` | common/chat_server.cpp:342-357 | accept and registration; a connection that is refused registration is closed again |
| `ChatServers.ChatServer.Prompt` | common/chat_server.cpp:358-366 | the prompt is queued or the newcomer is removed |
| `ChatServers.ChatServer.HandleWritable` | common/chat_server.cpp:596-603 | a flush moves only bytes already queued, all that the budget allows unless a send would block; the client is dropped and its room told if and only if a send broke down or its interest was refused |
| `ChatServers.ChatServer.QueueOutput` | common/chat_server.cpp:225-237 | queueing affects one client and its write interest only, and fails exactly as `QueueOutputCommon` does |
| `ChatServers.ChatServer.FlushOutput` | common/chat_server.cpp:239-243 | flushing affects one client and its write interest only, and sends what the budget allows unless a send would block |
| `ServerRuns.ClientMeans` | common/chat_server.cpp:590-603 | the meaning of an event on a client: data is asked for exactly if it is known and readable or in error, and a writable one still there is flushed last |
| `ServerRuns.OneMoreRead` | common/chat_server.cpp:508-580 | reads in sequence: only the last may bring no data, and the bytes received are exactly those fed |
| `ServerRuns.PathsJoin` | common/chat_server.cpp:191-211 | runs of the server compose |
| `RunTheorems.RunConserves` | common/chat_server.cpp:499-604 | over any run that admits no new connection on its descriptor, a client still there received exactly the bytes fed to it, and its frames and messages are extended, never changed or lost |
| `RunTheorems.ChunksDoNotMatter` | common/chat_server.cpp:508-564 | for any client that connected during a run, or had sent nothing before it: its username and the frames handled are the first lines of all it sent since, however that was cut into reads |
| `RunTheorems.RunReceives` | common/chat_server.cpp:338-604 | over any run, a client that is there in the end received exactly what was fed to its descriptor since its connection was admitted, though the descriptor may have served others before |
| `RunTheorems.AdmittedDuring` | common/chat_server.cpp:338-604 | a client admitted during a run starts, at that moment, with the prompt alone and nothing received, and from then on only adds to it |
| `RunTheorems.StepContinues` | common/chat_server.cpp:338-604 | no step takes back a message, a frame or a byte from a client that survives it; accepting touches no existing client |
| `DeliveryTheorems.RunDelivers` | common/chat_server.cpp:338-604 | over any run that admits no new connection on its descriptor, what a client got is exactly what the steps addressed to it, in order: nothing lost, doubled, reordered or misdirected |
| `DeliveryTheorems.StepDelivers` | common/chat_server.cpp:338-604 | each step gives every surviving client exactly what it addresses to it, by kind of frame and by room |
| `DeliveryTheorems.ChatStaysInRoom` | common/chat_server.cpp:463-497 | a chat message is addressed to nobody outside the sender's room, and if its frame reports success to everyone else in it |
| `FrameTheorems.QuitLeaves` | common/chat_server.cpp:453-459 | a line whose first word is QUIT: its client is gone, everyone else in its room got the one notice or was dropped for a full queue or a failed send of its own, nobody outside heard anything |
| `FrameTheorems.ListAnswers` | common/chat_server.cpp:385-416 | a line whose first word is LIST: its client gets the table, whose lines are spelled out, and nobody else anything |
| `FrameTheorems.WhereTells` | common/chat_server.cpp:443-452 | the line WHERE: its client is told its room in these words, and nobody else anything |
| `FrameTheorems.JoinMoves` | common/chat_server.cpp:417-431 | JOIN and one word: its client is in the room of that name afterwards, and exactly the members of both rooms are told |
| `FrameTheorems.LeaveReturns` | common/chat_server.cpp:432-442 | a line whose first word is LEAVE: outside main-room its client is in main-room afterwards and both rooms are told; in main-room nothing happens |
| `FrameTheorems.OthersIgnored` | common/chat_server.cpp:394-460 | an empty line, JOIN without or with several words and WHERE with any do nothing at all |
| `FrameTheorems.ElseChat` | common/chat_server.cpp:405-408 | a non-empty line whose first word is none of the five goes to the rest of the sender's room as chat, and to nobody else |
| `FrameTheorems.FirstToken` | common/chat_server.cpp:375-400 | the first token of a line is a word exactly if the line is that word or begins with it and a space |
| `FrameTheorems.NameEnters` | common/chat_server.cpp:541-549 | the first line of a connection puts it in main-room under that name, and everyone there is told |
| `FrameTheorems.HangupTells` | common/chat_server.cpp:566-603 | a peer that hung up, or a failed flush: the client is gone, everyone else in its room is told, nobody else hears anything |
| `FrameTheorems.NewcomersPrompted` | common/chat_server.cpp:338-373 | newcomers are asked for their name and have said nothing; nobody who was there is affected |
| `ServerTheorems.MembershipExact` | common/chat_server.cpp:245-336 | between events main-room is first with id 0, ids and names are unique, no other room is empty, a named client is listed exactly once and only in its own room, and nobody else is listed |
| `ServerTheorems.FramesAreLines` | common/chat_server.cpp:508-564 | consumed frames and buffer are all bytes received: the frames are the first lines of the stream, at most 4096 bytes each, and the buffer holds at most 8192 |
| `ServerTheorems.StreamExact` | common/server_common.hpp:96-223 | bytes taken by the kernel followed by the unsent queue are the prompt and then all accepted messages in order; at most 16384 are pending; the queue is non-empty exactly when the dispatcher holds the write bit |
| `ServerTheorems.DrainedStreamSplits` | common/server_common.hpp:96-223 | splitting a drained stream at newlines after the prompt and keeping the lines marked as messages recovers exactly the messages in order; all else are room tables |
| `Messages.MessagesRecovered` | common/server_common.hpp:96-223 | recovery of messages of one line each from between room tables |
| `ServerTheorems.ChatTextIsFrame` | common/chat_server.cpp:463-468 | tokenising and rejoining gives the frame itself, with one space added unless it ends in one |
| `ServerTheorems.ChatIsLine` | common/chat_server.cpp:463-468 | a chat message is one line |
| `Messages.NoticesAreLines` | common/chat_server.cpp:421-456 | every notification and WHERE answer is one line and begins with the mark of a message |
| `Messages.ChatIsMessage` | common/chat_server.cpp:463-468 | so is every chat message of words without newlines |
| `Messages.ListSplits` | common/chat_server.cpp:385-390 | split at newlines the answer to LIST is three lines of header, one line per room in order, and a rule |
| `ServerTheorems.WhereAnswers` | common/chat_server.cpp:443-446 | a client's room always exists, and WHERE says "room not found" if and only if its name is empty |
| `ServerTheorems.EmptyRoomEntered` | common/chat_server.cpp:417-431 | "JOIN" and two spaces take a client to the room with the empty name |
| `ServerTheorems.EmptyRoomNotFound` | common/chat_server.cpp:443-446 | and WHERE then tells it that its room was not found |
| `ServerTheorems.DrainInTwoIterations` | common/server_common.hpp:170-223 | with a kernel that takes all it is offered, flushes in two iterations empty any queue and disarm interest |
| `ServerState.OneMore` | common/chat_server.cpp:315-336 | one more recipient keeps the invariant and the exact account of who got the message |
| `ServerState.DeliversBoth` | common/chat_server.cpp:315-336 | deliveries to disjoint sets add up, also when the first emptied the room |
| `ServerState.DroppedKeeps` | common/chat_server.cpp:263-289 | dropping any client restores every part of the invariant |
| `ServerState.AudienceIs` | common/chat_server.cpp:322-331 | the members by subscription list are exactly the clients whose current room it is |
| `ServerEffects.MoveRelocates` | common/chat_server.cpp:417-442 | the four steps of a move amount to exactly what a move means, whoever is dropped on the way |
| `ServerEffects.MoveLists` | common/chat_server.cpp:417-442 | what a move does to every list of the room table |
| `ServerEffects.PartingIs` | common/chat_server.cpp:453-459 | notify then disconnect is one delivery that also removes the client |
| `ServerEffects.CutKeepsFraming` | common/chat_server.cpp:536-537 | cutting a frame conserves bytes |
| `ServerEffects.CutAndLogged` | common/chat_server.cpp:536-556 | a cut frame is handled once, in order, stripped |
| `ServerEffects.ArrivalKeeps` | common/chat_server.cpp:541-546 | naming a client restores the invariant |
| `ServerEffects.FrameKeepsInput` | common/chat_server.cpp:394-461 | no frame touches anyone's input or exceeds anyone's write budget |
| `ServerEffects.PromptedKeeps` | common/chat_server.cpp:358-366 | a prompted newcomer joins the invariant, an unprompted one leaves the state as it was but for the log |
| `ServerEffects.BudgetHolds` | common/server_common.cpp:85-95 | pacing within an iteration bounds what each connection is sent by 8192 |
| `Rooms.SettleKeeps` | common/chat_server.cpp:245-261 | departures keep lists and membership exact inverses and delete what they empty |
| `Rooms.SettleTwice` | common/chat_server.cpp:245-261 | leaving one after the other equals leaving together, even if the first departure deleted the room |
| `Rooms.JoinKeeps` | common/chat_server.cpp:298-313 | entering or creating a room keeps the table consistent and at most the old room empty |
| `Rooms.SettleKeepsNames` | common/chat_server.cpp:291-296 | a surviving room id keeps its name |
| `Rooms.ListSettled` | common/chat_server.cpp:245-261 | departures only take members out of lists, also where they delete a room |
| `Rooms.ListMoved` | common/chat_server.cpp:298-313 | moving to a room takes a member out of every list and ends that room's |
| `Rooms.NextId` | common/chat_server.cpp:303-306 | one above the largest id in the table |
| `ServerCommon.QueueOutputCommon` | common/server_common.hpp:96-168 | true: the message joined the byte stream whole, and queue, flag and dispatcher agree; false, if and only if it is above 16384 with what waits, its send broke down or its interest was refused: it did not; a would-block answer is no failure; a send is made exactly if nothing waits and the budget allows, so bytes never overtake queued ones; taken bytes plus budget are constant in an iteration |
| `ServerCommon.FlushOutputCommon` | common/server_common.hpp:170-223 | the stream is unchanged, bytes only move from queue to kernel, all that the budget allows unless a send would block; the flag is disarmed exactly when the queue is empty; false if and only if a send broke down or disarming was refused |
| `ServerCommon.SendNow` | common/server_common.hpp:109-146 | the fast path: sends exactly when nothing is queued and the budget allows, and fails exactly when the send breaks down |
| `ServerCommon.EnqueueRest` | common/server_common.hpp:148-167 | the slow path: what was not sent is queued, and interest is armed once |
| `ServerCommon.WriteQueued` | common/server_common.hpp:173-214 | the send loop ends, keeps the stream and never exceeds the budget |
| `ServerCommon.WriteFront` | common/server_common.hpp:175-201 | one partial write of the first entry |
| `ServerCommon.SendRetrying` | common/server_common.hpp:114-119 | retries while interrupted, and sends once |
| `ServerCommon.StreamGrows` | common/server_common.hpp:148-152 | a partly sent message extends the stream by exactly its bytes |
| `ServerCommon.FlushKeepsStream` | common/server_common.hpp:187-201 | moving bytes from the queue to the kernel keeps the stream |
| `ServerCommon.QueueKeepsOutputOk` | common/server_common.hpp:100-167 | the fast path refines the byte stream with its size, peak, budget and flag |
| `ServerCommon.ClientConnection.RefillWriteBudget` | common/server_common.cpp:89-95 | the budget is refilled on first use in an iteration only |
| `Text.Tokens` | common/chat_server.cpp:375-383 | reading words until the stream ends gives the tokens |
| `Text.RejoinTokens` | common/chat_server.cpp:375-383 | tokenising loses nothing but a missing final space |
| `Text.TokensOfRejoin` | common/chat_server.cpp:375-383 | tokenising undoes joining for words without spaces |
| `Text.LinesOfJoin` | common/chat_server.cpp:523-537 | splitting undoes joining whatever the reads were |
| `Text.JoinOfLines` | common/chat_server.cpp:523-537 | any stream is its lines and a rest |
| `Text.LinesUnique` | common/chat_server.cpp:523-537 | a stream is cut into newline-free lines and a newline-free rest in one way only, that of the frame loop |
| `Text.TokensUnique` | common/chat_server.cpp:375-383 | the tokens are the only space-free words that rejoin to the frame, up to its final space |
| `Text.StripCrIs` | common/chat_server.cpp:538-540 | exactly one carriage return is taken off a frame, and nothing else |
| `PollBackEnd.PollDispatcher.Add` | poll(2)/poll_dispatcher.cpp:12-16 | a new descriptor is registered for reading only |
| `PollBackEnd.PollDispatcher.Remove` | poll(2)/poll_dispatcher.cpp:18-33 | exactly that descriptor is forgotten, through swap-remove, also for the last slot; false iff it was unknown |
| `PollBackEnd.PollDispatcher.SetWriteInterest` | poll(2)/poll_dispatcher.cpp:35-48 | exactly that descriptor's write bit changes; false iff it is unknown |
| `PollBackEnd.PollDispatcher.Wait` | poll(2)/poll_dispatcher.cpp:50-70 | every registered descriptor with a non-zero answer is reported exactly once and nothing else is; readable is POLLIN, writable POLLOUT, error any of POLLERR, POLLHUP and POLLNVAL in its own answer; the interest map is untouched |
| `PollBackEnd.Perform` | poll(2)/poll_dispatcher.cpp:12-70 | any run of calls makes the array behave as a map from descriptor to write interest, with no stale slot |
| `PollBackEnd.SwapRemoved` | poll(2)/poll_dispatcher.cpp:24-31 | swap-remove keeps the index the exact inverse |
| `PollBackEnd.SlotsMatchIndexes` | poll(2)/poll_dispatcher.cpp:50-51 | as many slots as registered descriptors |
| `PollBackEnd.EventsExact` | poll(2)/poll_dispatcher.cpp:57-68 | the scan reports each ready slot once |
| `PollBackEnd.EventsCounted` | poll(2)/poll_dispatcher.cpp:52-69 | as many events as poll(2) announced |
| `Metrics.ServerMetrics.RecordWait` | common/server_common.cpp:41-54 | the histogram counts every recorded batch, its totals are those of the history, inactive metrics record nothing |
| `Metrics.ServerMetrics.EventsPercentile` | common/server_common.cpp:56-70 | the result is the element of the computed rank of the sorted history, or the largest past the end, 0 without waits |
| `Metrics.ServerMetrics.MaxEventsPerWait` | common/server_common.cpp:72-79 | the largest batch |
| `Metrics.ServerMetrics.Reset` | common/server_common.cpp:35-39 | an empty history, still active if it was |
| `Metrics.TargetIsCeiling` | common/server_common.cpp:60-61 | adding 0.999999 and truncating gives the ceiling rank if and only if the product is below 1, whole, or at least a millionth above a whole |
| `Metrics.CeilingBounds` | common/server_common.cpp:60-61 | the ceiling rank is the least whole number not below the product |
| `Metrics.TargetOnGrid` | common/server_common.cpp:60-61 | for fractions with denominators up to a million the rank is the ceiling, between 1 and the number of waits |
| `Metrics.TargetOffGrid` | common/server_common.cpp:60-61 | a finer fraction for which it is not |
| `Metrics.RankIs` | common/server_common.cpp:62-68 | the cumulative count reaches a rank at the element of that rank |
| `Offers.RunAllWorkers` | bench/benchmark.py:429-485 | over all workers sent + missed = offered <= floor(rate x duration), with equality if the last offer is due before the deadline; only then, if no client has more than one offer, or if every worker has as many clock readings just before the deadline as there are offers; popped offers are sent exactly unless late or refused |
| `Offers.LoseOffers` | bench/benchmark.py:429-485 | if the last offer is due too late there are clock readings that a real clock can give with which fewer are counted, whatever the connections accept |
| `Offers.Worker.RunPhase` | bench/benchmark.py:429-485 | a worker counts every offer of its clients except those behind entries due too late, whatever the clock readings; with enough readings before the deadline exactly the offers due in time; what each round popped was due then and is sent exactly unless late or refused |
| `Offers.Worker.TakeOffers` | bench/benchmark.py:446-473 | popping, counting and rescheduling conserve the offers of every worker; each popped offer was due, no earlier than its exact time but for rounding, and is counted once; exactly those past the permitted lag or refused by their connection are missed, the others sent; all that is due is popped unless the cap is reached |
| `Offers.Worker.CountOffer` | bench/benchmark.py:451-473 | one popped offer is counted, its client's next one scheduled, and it is sent unless late or refused |
| `PhaseLoop.RunPhase` | bench/benchmark.py:429-500 | the loop with its connections: every offer is sent or missed; those sent are exactly the popped ones that were not late and whose client was open with room for the frame, and are what the connections sent; each direct request sent is answered or still pending; in every round the readable clients were read |
| `PhaseLoop.SendOffer` | bench/benchmark.py:459-473 | an offer is queued at its own client's connection, with its frame, if and only if it is not late, the client is open and the frame fits in 65536 bytes, and is counted as such |
| `Offers.Worker.DueOffers` | bench/benchmark.py:96-101 | pops due offers, at most the cap, in order of time and before all that is left; leaves a due one only if the cap is reached |
| `Offers.Worker.HeapPop` | bench/benchmark.py:99 | the least entry leaves the heap |
| `Offers.Worker.ScheduleForClients` | bench/benchmark.py:410-426 | the heap holds exactly the first offers of the active clients |
| `Offers.Worker.AccountLeftovers` | bench/benchmark.py:480-485 | bulk accounting counts every remaining offer of an entry due in time, as missed |
| `Offers.SharesCoverPhase` | bench/benchmark.py:85-86 | the workers' shares are all offers of the phase, each once |
| `Offers.StridesPartition` | bench/benchmark.py:85-86 | residue classes partition a range |
| `Offers.StrideLength` | bench/benchmark.py:483 | 1 + (T - 1 - s) div A offers remain |
| `Offers.DueBeforeDeadline` | bench/benchmark.py:424 | up to one offer per nanosecond no offer is due at or past the deadline |
| `Offers.DueMonotone` | bench/benchmark.py:455-459 | offers are due in the order of their numbers |
| `Offers.DueAtMost` | bench/benchmark.py:419-459 | no offer is due after its exact time, its number times the period |
| `Offers.DueAtLeast` | bench/benchmark.py:419-459 | nor earlier than a nanosecond before it, and one more for each offer its client had before |
| `Offers.EveryMillisecond` | bench/benchmark.py:419-459 | due times, deadline and number of offers of two phases of a thousand offers a second, in nanoseconds |
| `Offers.PartitionAt` | bench/benchmark.py:85-86 | worker number o has the clients o, o + workers, o + 2 workers and so on |
| `Offers.OnTimeAtNormalRates` | bench/benchmark.py:481-482 | up to one offer per nanosecond the exact condition holds |
| `Offers.LateOffersAreMissing` | bench/benchmark.py:481-482 | offers due too late exist exactly when the last one is |
| `Offers.TooFast` | bench/benchmark.py:481-482 | above that rate the condition can fail |
| `Offers.RushedLoses` | bench/benchmark.py:429-485 | and then offers are lost in every run whose clock stays before the deadline |
| `LoadGenerator.Generator.QueueClientFrame` | bench/benchmark.py:298-306 | a frame is queued whole if it fits in 65536 bytes with what waits, else refused whole; it is sent unless a send blocks or breaks down |
| `LoadGenerator.Generator.FlushClientSend` | bench/benchmark.py:276-295 | bytes only move from buffer to kernel; exactly a send that breaks down is an error, which empties the buffer, and only one that would block leaves bytes behind; write interest is on exactly while bytes wait |
| `LoadGenerator.Generator.ProcessClientRead` | bench/benchmark.py:320-374 | at most the permitted calls and bytes; reading ends when nothing is there, at a limit, or at the end of the stream, which alone closes the client; exactly what the lines read complete and deliver is counted |
| `LoadGenerator.Generator.ReadOnce` | bench/benchmark.py:328-374 | one recv with its outcomes |
| `LoadGenerator.Generator.constructor` | bench/benchmark.py:544-551 | a phase starts with the clients of the last: what they read and awaited is forgotten, what they have yet to send is not |
| `LoadGenerator.Generator.HandleLines` | bench/benchmark.py:341-374 | no complete line is left and none is handled twice |
| `LoadGenerator.Generator.HandleLine` | bench/benchmark.py:343-374 | an answer completes the oldest pending request; a relayed message completes at the sender's successor; what arrives up to the deadline, and nothing else, is counted as such |
| `LoadGenerator.Generator.CloseClient` | bench/benchmark.py:309-317 | the client is closed, forgotten by the selector and noted once; closing again changes nothing |
| `LoadGenerator.Generator.UpdateInterest` | bench/benchmark.py:269-273 | write interest follows the buffer |
| `LoadGenerator.Generator.ServiceEvents` | bench/benchmark.py:377-389 | a batch keeps the books, only adds to what each client has read and had answered, and leaves clients that were not ready alone; every open client that is readable is asked for data, every one still open and writable has sent all unless a send blocked; exactly the newly closed clients and the failed sends are noted |
| `LoadGenerator.RotatedHasAll` | bench/benchmark.py:89-93 | rotation keeps every ready client as often as it was reported |
| `LoadGenerator.RotatedAt` | bench/benchmark.py:89-93 | in turn from the cursor on, which moves on by one |
| `LoadGenerator.OneMoreEvent` | bench/benchmark.py:377-389 | one event more keeps the account of who was asked for data and who has sent all |
| `LoadGenerator.Completed` | bench/benchmark.py:343-354 | direct requests are answered oldest first |
| `LoadGenerator.CompletedAppend` | bench/benchmark.py:341-374 | handling lines in pieces or at once completes the same |
| `RelayTheorems.BooksBalance` | bench/benchmark.py:276-374 | latencies = completions <= deliveries; for direct requests completions = deliveries and completions + pending = sent; otherwise deliveries are the relayed lines read and completions those of them read by the successor of their sender; each client read exactly the complete lines it received; absent send errors bytes sent and buffered are the queued frames |
| `RelayTheorems.RelayedIsRecognised` | bench/benchmark.py:355-374 | a broadcast frame relayed by the chat server is read back by its receiver with its sender and send time |
| `RelayTheorems.SuccessorCompletes` | bench/benchmark.py:368-374 | a relayed line completes its operation at the client after its sender, the last one's at the first, and at no other |
| `RelayTheorems.OtherTokenIgnored` | bench/benchmark.py:358-362 | a relayed line of another phase counts for nothing |
| `RelayTheorems.OtherLinesIgnored` | bench/benchmark.py:355-362 | nor does a line without the mark or with too few fields |
| `LoadGenerator.SplitExactly` | bench/benchmark.py:358 | cutting at bars loses nothing and stops at the limit |
| `LoadGenerator.SignsRead` | bench/benchmark.py:363-367 | int() reads a sign and reads over blanks |
| `LoadGenerator.UnderscoreRead` | bench/benchmark.py:363-367 | and over single underscores between digits |
| `LoadGenerator.NoInts` | bench/benchmark.py:363-367 | what int() rejects |
| `PhaseLoop.FrameIs` | bench/benchmark.py:463-466 | the frame of an offer, spelled out |
| `LoadGenerator.ReadDecimal` | bench/benchmark.py:363-364 | int() reads a number as it was written |
| `RelayTheorems.WhereIsRecognised` | bench/benchmark.py:343-354 | the server's WHERE answer in main-room completes a request |
| `SweepRepeats.SummaryTellsIff` | bench/compare.py:314-382 | whatever the runs do, the summary tells exactly which rates always succeeded, if and only if each selected dense or broadcast experiment with something to sweep lists its tiers, its rates and the implementations once each |
| `SweepRepeats.OnceTells` | bench/compare.py:336-382 | with nothing listed twice: the swept rates up to the reported one are exactly those whose run was valid in every trial, and exactly those with one valid row for each trial and no other row |
| `SweepRepeats.DoubledMisleads` | bench/compare.py:336-376 | where anything is listed twice, flawless runs leave a rate with too many rows, so it is not counted as sustained though every run of it succeeded |
| `SweepRepeats.RepeatedRateUncounted` | bench/compare.py:90-91 | at a dense tier with one rate listed twice that is what the sweep does |
| `SweepRepeats.RepeatedRateMiscounted` | bench/compare.py:365-376 | at the same tier a rate that fails in the second of two trials is counted as sustained, since the first trial left two valid rows |
| `SweepRepeats.FlawlessTrials` | bench/compare.py:336-376 | flawless runs give a key as many rows a trial as its tier, rate and implementation are listed, and skip nobody |
| `SweepRepeats.Compare` | bench/compare.py:314-382 | groups, sweep and summary together: the reports are exactly those of the rows, one for each key, and tell the truth if nothing is listed twice |
| `SweepTheorems.GroupSwept` | bench/compare.py:338-376 | in one trial an implementation is run at a rate exactly if its runs at all lower rates were valid, in whatever order the implementations come; if the directory held none of its files, each run that did not fail has one row |
| `SweepTheorems.TurnKeeps` | bench/compare.py:341-376 | one turn, skipped or run, keeps that exact account |
| `SweepTheorems.TrialsKeep` | bench/compare.py:336-376 | over all trials the rows count exactly the runs that yielded one, and the valid runs, of every reported group |
| `SweepTheorems.GroupConfined` | bench/compare.py:349-352 | a group writes and lists only files of its own tier, rates and trial |
| `SweepTheorems.SustainedMeans` | bench/compare.py:231-234 | a rate counts as sustained if and only if its run was valid in every trial |
| `SweepTheorems.LowerToo` | bench/compare.py:341-376 | a rate valid in every trial has only such rates below it |
| `SweepTheorems.OrderIsAll` | bench/compare.py:49-50 | either order has every implementation as often as it is listed |
| `SweepTheorems.OrderAlternates` | bench/compare.py:49-50 | odd trials take the implementations as listed, even ones backwards |
| `SweepTheorems.GroupHonest` | bench/compare.py:341-376 | in a directory without files of the group, each run is recorded with its own result: valid or not if it exited well and wrote a row, else failed |
| `SweepTheorems.TrialsHonest` | bench/compare.py:336-376 | with nothing listed twice that holds of every run of every trial, so the summary is about the results themselves |
| `RateSweep.Sweep` | bench/compare.py:336-382 | the loops over trials and groups, with rows read from the listed files in the end, compute the sweep that the theorems are about |
| `RateSweep.SweepGroup` | bench/compare.py:338-376 | so do the loops over rates and implementations, with failed, skipped and invalid runs and with output files that repeated runs share |
| `RateSweep.HighestRate` | bench/compare.py:223-238 | the reported rate is sustained and the greatest that is; none is reported if and only if none is |
| `RateSweep.SustainedIs` | bench/compare.py:231-234 | sustained: as many rows as runs, and all valid |
| `RateSweep.Summarize` | bench/compare.py:219-238 | exactly one report for every dense or broadcast tier and implementation with rows, and no other |
| `RateSweep.ExperimentGroups` | bench/compare.py:76-104 | the sparse groups are exactly the listed pairs that fit; then exactly one group for each listed dense and broadcast tier, in order |
| `RateSweep.AddTiers` | bench/compare.py:90-103 | exactly one group per listed tier, in order, with the sorted rates |
| `RateSweep.PairTiers` | bench/compare.py:82-89 | every sparse tier with every active count that fits in it |
| `RateSweep.GroupsInOrder` | bench/compare.py:76-104 | the order of the groups, at an example with all three kinds |
| `SweepRepeats.SortedIs` | bench/compare.py:91 | sorting keeps every rate as often as it is listed |
| `SweepRepeats.SortedIncreases` | bench/compare.py:91 | distinct rates increase strictly once sorted |
| `Spreadsheet.ColumnName` | bench/csv_to_xlsx.py:21-26 | the loop computes the column letters |
| `Spreadsheet.NumberOfLetters` | bench/csv_to_xlsx.py:21-26 | decoding undoes naming |
| `Spreadsheet.LettersOfNumber` | bench/csv_to_xlsx.py:21-26 | naming undoes decoding for every string of letters |
| `Spreadsheet.LettersIncrease` | bench/csv_to_xlsx.py:21-26 | names increase by length, then alphabetically |
| `Spreadsheet.ThreeLetters` | bench/csv_to_xlsx.py:59-64 | at most three letters up to column 16384, XFD |
| `Spreadsheet.SheetNames` | bench/csv_to_xlsx.py:29-42 | terminates; one name per path in order, each the first free candidate, pairwise different after folding, free of the seven forbidden characters, at most 31 characters for up to 10^29 paths |
| `Spreadsheet.PickName` | bench/csv_to_xlsx.py:33-41 | the first free name, found by pigeonhole |
| `Spreadsheet.NumberedIs` | bench/csv_to_xlsx.py:37-38 | a numbered name is the longest part of the base that leaves room for underscore and number in 31 characters, and these |
| `Spreadsheet.BaseExactly` | bench/csv_to_xlsx.py:33 | the base is the stem between its outer apostrophes with each forbidden character replaced, or Sheet if nothing is left |
| `Spreadsheet.NumberedDiffer` | bench/csv_to_xlsx.py:37-38 | different suffixes give different folded names |
| `Spreadsheet.QuotedExactly` | bench/csv_to_xlsx.py:33-38 | a name ends in an apostrophe if and only if it is the unnumbered cut of a longer one whose 31st character is an apostrophe |
| `Spreadsheet.QuotedName` | bench/csv_to_xlsx.py:33-34 | a stem for which it does |
| `Spreadsheet.Pigeonhole` | bench/csv_to_xlsx.py:36-39 | more candidates than used names cannot all be used |

## Left out

- The epoll back end: a thin wrapper over kernel calls. `ReadinessDispatcher` is the interest map it keeps; its batches may be any subset of ready events, which the server's theorems allow.
- Listener setup, address text, signals, environment variables, logging, and the metrics file and counters other than those of the wait histogram: input and output with nothing to prove.
- `errno`: outcomes of system calls are a datatype. The reason given to `disconnect` only reaches the log.
- The two terminal clients.
- Process spawning, affinity, profilers, `/proc`, pipes between workers, and JSON, CSV, ZIP and XML writing.
- Machine integer wrap-around and floating-point rounding.
- Real time: latency, fairness and eventual handling of buffered frames are not promised by the code. The order in which the selector reports clients and its timeouts are arbitrary.
- The generator's heap is a list from which the least entry is taken; the array layout of `heapq` is not modelled.
- `Offers.RunAllWorkers` takes what the connections accept as a parameter; `PhaseLoop.RunPhase` joins one worker with its connections.
- The limit on the number of digits that `int` reads.
- What the shell does with a run that cannot be started, and rates or tiers that the benchmark itself refuses: they are runs that fail.
- The generator's setup (connecting, sending names, `settle_clients`), when its draining loop ends, scheduling-lag and read-gap statistics, and `merge_states`.
- `row_valid`, `classify_result`, medians and metadata: field by field, without a hard property. Whether a row of the sweep is valid is a parameter.
- Unknown experiment names, which the driver rejects: experiments are an enumeration.
- Text cells of the spreadsheet and its XML; only column letters and sheet names are modelled.
