# Verified model of the-game

A Dafny model of the parts of the-game in which state is shared, handlers
interleave or data is walked recursively, with proofs about every run or every
input.

* **Game session** (`GameCalls`, `GameStrands`, `GameSession`). Two strands, a
  roster and a stream of join and leave notices. `GameCalls` says what the calls
  mean one after another; `GameStrands` splits every player handler at each point
  where the command strand can run and proves that all schedules agree with
  `GameCalls`; `GameSession` is the object whose handlers do it.
* **Pipelined HTTP session** (`PipelinedHttp`, `PipelinedHttpRuns`). A read loop
  and a write loop around a queue of at most eight responses: order,
  backpressure, wind-down.
* **Visitable traversal** (`Visitable`, `EventStreams`, `NestedVisitor`). A walk
  over nested property lists with any visitor, including visitors that write to
  leaves or lack hooks.
* **WebSocket sessions and the connection registry** (`WebSocketSession`,
  `WebSocketRuns`, `ConnectionRegistry`). Callback order, message boundaries,
  frames, object lifetime, and the map of connected sessions.
* **One-slot HTTP session and routes** (`HttpSession`, `Routes`). The HTTP session
  the server uses, and the first-registration-wins tables behind it.
* **Deck** (`Deck`). Conservation, sorting and drawing.

`dafny verify dfyconfig.toml` checks everything.

## How the model is set up

Each object the source updates in place is a class whose methods are proved to compute a
function of its old state (`View`). Theorems about all runs are lemmas about those
functions: `IsRun` says that each event of a list could happen when it did,
`After` is the state it leads to. Completions of asynchronous operations, their
errors, the contents of messages and the scheduler's choices are events, so a
statement about every run covers every outcome and order. Fields such as `log`,
`sent`, `requests`, `written`, `frames` and `notices` record what has happened.

Assumptions, all from the source's surroundings: handlers of one strand run one at
a time in posting order; handlers of one HTTP session or one server do not overlap;
a write that succeeds has transferred the whole frame. Nothing keeps two writes on
one stream from overlapping, which Beast forbids: the model lets them overlap and
complete in any order, says exactly when they do, and a theorem that needs them not
to has that in its statement.

## Where the code does less than one would expect

Each of these has a witness lemma, an exact condition or both.

* A removal posts its notice before it erases the player, so the game logic can see
  a roster that `players_` has never been: `ViewCanBeAhead`; it happens only inside a
  removal whose notice has already been run: `ViewAheadExactly`, `PastUnlessAhead`.
* After a request that asks to close, the pipelined session goes on accepting
  requests it will never answer, up to seven: `CloseBoundIsTight`,
  `FewRequestsAfterClose`.
* The end of the stream shuts down the sending side of the pipelined session at once,
  with up to seven answers still to be written: `CutsOffExactly`, `SevenCutOff`.
* The nested visitor clears its flag on every exit and so misses leaves declared
  after a nested sibling: `LeafAfterNestedIsMissed`, `RecordsInsideExactly`.
* A failed WebSocket write leaves its data in the write buffer and the next frame
  carries it again: `StaleData`. The frames are what was sent exactly when nothing is
  sent while a frame with data is being written or after one has failed:
  `FramesAreSends`.
* A WebSocket session writes whenever it is told to, so a client that does not wait
  for the answer to its message makes writes overlap: `WebSocketRuns.OverlapExactly`,
  `EchoOverlapsExactly`.
* A delayed broadcast sends the state of the moment its timer fires; when another
  broadcast comes first, that one is sent in its place: `DelayedSendIsReplaced`,
  `DelayedSendIsLatest`.
* A read error does not unregister the session, whose entry then dangles:
  `ReadErrorDangles`, `DanglingExactly`. Two clients with one key unregister each
  other: `SharedKeyUnregisters`, `EveryRegistry`.
* The comment in `on_receive` speaks of removing the session from the list; that
  branch cannot be reached: `ReceiveAnswers`.
* With a pipelining client the one-slot session overlaps its writes, can lose a close
  and leaves the order of its responses open: `HttpSessions.OverlapExactly`,
  `PipeliningLosesAClose`, `FlagIsTheLastStarted`, `PipeliningReorders`,
  `ResponsesInOrder`.

## Model

| member | source | states |
|---|---|---|
| GameStrands.EveryStateIsSerial | apps/simple_server/game_session.hpp:36-78 | In every state of every schedule, what is settled equals running the begun calls one by one, the waiting calls are the rest, and the commands run or waiting are the commands issued, in order |
| GameStrands.DrainedIsSerial | apps/simple_server/game_session.hpp:36-78 | A schedule that drains both strands ends with the serial roster, notices and messages, and has run each command once in order |
| GameStrands.Confluence | apps/simple_server/game_session.hpp:36-78 | Two draining schedules of the same calls end with the same roster, notices and inboxes |
| GameStrands.PostedIsTasks | apps/simple_server/game_session.hpp:36-64 | What the command strand has run and still holds is every command, join and leave in the order in which the actions posted them |
| GameStrands.PostingOrder | apps/simple_server/game_session.hpp:36-64 | Tasks run in posting order, commands and notices alike: what is posted or has run at any time stays, in place, at the beginning of what is posted or has run later |
| GameStrands.RosterAgreement | apps/simple_server/game_session.hpp:42-64 | Replaying executed then pending notices gives players_ in order, except inside an add or a remove, where they differ by that one player |
| GameStrands.ViewIsAMoment | apps/simple_server/game_session.hpp:45-49 | The game logic's view is always the roster after some prefix of the begun calls |
| GameStrands.ViewAheadExactly | apps/simple_server/game_session.hpp:55-62 | The view is ahead of the finished calls iff a removal has posted but not erased and every notice has been run; then it lacks that entry |
| GameStrands.PastUnlessAhead | apps/simple_server/game_session.hpp:42-64 | Unless it is ahead, the view is the roster that some of the finished calls left in players_ |
| GameStrands.ViewCanBeAhead | apps/simple_server/game_session.hpp:55-62 | A schedule after which the game logic sees a roster that players_ has not been after any of the finished calls |
| GameStrands.LogLeavesNeverLead | apps/simple_server/game_session.hpp:42-64 | In every state and every prefix of the executed notices a player has at most as many leaves as joins |
| GameStrands.IdleCounts | apps/simple_server/game_session.hpp:42-78 | Between handlers, joins, leaves, roster entries and inbox of a player are those of the walk of its adds and removes reflected at zero |
| GameStrands.InboxNeverStrays | apps/simple_server/game_session.hpp:66-78 | In every state, even inside a broadcast, a player's inbox is a beginning of what the begun broadcasts owe it |
| GameStrands.InboxInEveryState | apps/simple_server/game_session.hpp:66-78 | A player's inbox is exactly what the begun broadcasts owe it, and inside one what the finished ones owe it and a copy for each of its entries already passed |
| GameStrands.DrainsExactly | apps/simple_server/game_session.hpp:36-78 | With no new calls every schedule takes exactly the same number of moves, can move until then, and is drained exactly then |
| GameStrands.HandlerBound | apps/simple_server/game_session.hpp:36-64 | With no new calls at most twice the player queue plus the command queue handlers still run |
| GameCalls.NoticesDetermineRoster | apps/simple_server/game_session.hpp:42-64 | Append on join and remove first match on leave rebuild the roster exactly |
| GameCalls.NoticePrefixIsAMoment | apps/simple_server/game_session.hpp:42-64 | Every prefix of the notices is the full account of some earlier moment |
| GameCalls.LeavesAreDepartures | apps/simple_server/game_session.hpp:52-64 | Leaves count the removals that find their player; unknown or repeated removals emit nothing |
| GameCalls.LeavesNeverLead | apps/simple_server/game_session.hpp:42-64 | No prefix of the notices has more leaves than joins of a player |
| GameCalls.RosterCount | apps/simple_server/game_session.hpp:42-64 | The roster holds a player as often as its reflected walk says |
| GameCalls.InboxIsExpected | apps/simple_server/game_session.hpp:66-78 | Every inbox is the in-order list of broadcasts made while its player was a member, once per entry, excluded broadcasts left out |
| GameCalls.BroadcastReachesRoster | apps/simple_server/game_session.hpp:69-77 | A broadcast is one message to each roster entry, in order, with exactly the entries of the excepted player struck out |
| GameCalls.OneMoreCall | apps/simple_server/game_session.hpp:42-78 | One more call appends a player and a join; or takes out the first entry and appends a leave, or does nothing; or sends one message to each entry not excepted, in order |
| GameSessions.GameSession.OnCommand | apps/simple_server/game_session.hpp:36-40 | Appends one command to the command strand and nothing else |
| GameSessions.GameSession.RunPlayerHandler | apps/simple_server/game_session.hpp:42-78 | One player handler does to roster, notices and messages what its call does in the serial meaning |
| GameSessions.GameSession.HandleRemove | apps/simple_server/game_session.hpp:55-63 | Removes the first match, leaving the rest in order, and posts one leave iff the player is found |
| GameSessions.GameSession.HandleBroadcast | apps/simple_server/game_session.hpp:69-77 | Sends the message to the roster in order, skipping the excepted player |
| GameSessions.UninterruptedHandler | apps/simple_server/game_session.hpp:42-78 | A whole handler of the object is a run of the machine's player moves without interleaving |
| PipelinedHttp.HttpSession.HandleRead | networking/.boostbeast.cpp:348-374 | A completed read ends reading or queues one response and reads on iff there is room |
| PipelinedHttp.HttpSession.HandleWrite | networking/.boostbeast.cpp:400-421 | A completed write ends writing or pops, resumes a paused reader and writes on |
| PipelinedHttpRuns.EveryState | networking/.boostbeast.cpp:331-421 | In every state one read is outstanding iff reading goes on and the queue has room, one write iff writing goes on and the queue is not empty, the queue is bounded, and popped plus queued responses are the answers in order |
| PipelinedHttpRuns.EveryRecord | networking/.boostbeast.cpp:348-421 | The requests, the responses queued, the number written, how reading ended and whether a write failed are those the events bring |
| PipelinedHttpRuns.ResponseOrder | networking/.boostbeast.cpp:368-420 | Responses written are the first of those built for the messages read, in order and as many as writes have succeeded; writes started are a beginning of them; only the last written can close, and the writer has closed iff it does |
| PipelinedHttpRuns.NothingAfterClose | networking/.boostbeast.cpp:407-412 | After a closing response no write is started and the reader accepts at most the free slots |
| PipelinedHttpRuns.NeverDeadlocks | networking/.boostbeast.cpp:371-416 | While neither side has stopped something is outstanding; nothing is outstanding exactly when both sides are done or blocked for good |
| PipelinedHttpRuns.PausedReaderResumes | networking/.boostbeast.cpp:414-420 | A reader paused by a full queue resumes with the next successful keep-alive write |
| PipelinedHttpRuns.FewRequestsAfterClose | networking/.boostbeast.cpp:368-412 | At most seven requests are accepted after the first one that asks to close, and none after it is answered |
| PipelinedHttpRuns.CloseBoundIsTight | networking/.boostbeast.cpp:368-374 | Seven requests can be accepted after one that asks to close |
| PipelinedHttpRuns.EveryShutdown | networking/.boostbeast.cpp:353-354 | The sending side is shut down at most once per side that stopped, each time with at most seven answers still to be written |
| PipelinedHttpRuns.CutsOffExactly | networking/.boostbeast.cpp:353-412 | Answers are cut off iff the stream ends with an unwritten one queued, or a closing response is written with others behind it |
| PipelinedHttpRuns.SevenCutOff | networking/.boostbeast.cpp:353-354 | A run in which the end of the stream cuts off seven answers |
| PipelinedHttpRuns.WriterStopped | networking/.boostbeast.cpp:404-412 | Once writing has stopped with s queued, at most eight minus s further requests are queued and nothing is written |
| PipelinedHttpRuns.ReaderStopped | networking/.boostbeast.cpp:350-366 | Once reading has stopped it never restarts and no request is added |
| PipelinedHttpRuns.DrainsCompletely | networking/.boostbeast.cpp:350-420 | After reading stops, a quiet session whose writer neither failed nor closed has written the response to every request read |
| PipelinedHttpRuns.WindsDown | networking/.boostbeast.cpp:348-421 | Once a side has stopped, a measure of at most eight falls with every completion and is zero exactly when nothing is outstanding |
| Visitable.WalkIsPrefix | libs/visit/visitor_base.hpp:87-119 | Any visitor is told exactly the events before the first one whose hook it lacks, the walk throws iff there is one, and exactly the leaves shown hold what it wrote |
| Visitable.ThrowsExactly | libs/visit/visitor_base.hpp:87-119 | A walk throws iff something is nested and a hook is missing |
| Visitable.WalkKeepsShape | libs/visit/visitable.hpp:92-116 | A walk changes nothing but leaf values, whether or not it throws |
| Visitable.ShapeAndLeavesDetermine | libs/visit/property.hpp:77 | Two instances of one shape with the same leaves are equal |
| EventStreams.DecodeInvertsEvents | libs/visit/visitable.hpp:84-116 | Decoding the event stream of an instance gives the instance |
| EventStreams.EventsInvertsDecode | libs/visit/visitable.hpp:84-116 | A stream that decodes is the stream of what it decodes to |
| EventStreams.DecodesExactlyBalanced | libs/visit/visitable.hpp:98-109 | Exactly the streams with matching enter and exit names come from an instance |
| EventStreams.EventsIsInjective | libs/visit/visitable.hpp:84-116 | Different instances have different streams |
| EventStreams.VisitsEachLeafOnce | libs/visit/visitable.hpp:112-116 | Each leaf is visited once in declaration order |
| EventStreams.RecordWalk | libs/visit/visitor_base.hpp:72-76 | A recording visitor collects the leaves and changes nothing |
| EventStreams.WriteBackRoundTrip | libs/visit/visitable.hpp:92-116 | Leaves recorded from one instance and replayed into another of its shape make them equal and are used up exactly |
| NestedVisitors.NestedVisitor.Accept | libs/visit/test/test_visitors.hpp:41-98 | The visitor's fields after a walk as functions of the event stream; a fresh one holds what VisitorHolds says |
| NestedVisitors.WalkTakesNotes | libs/visit/test/test_visitors.hpp:41-98 | The generic walk leaves this visitor in the same state and never throws |
| NestedVisitors.NameLogs | libs/visit/test/test_visitors.hpp:49-58 | Enter events come in pre-order, exit events in post-order, and the flag ends cleared unless nothing was nested |
| NestedVisitors.VisitorHolds | libs/visit/test/test_visitors.hpp:41-98 | A fresh visitor ends with enter_names in pre-order, exit_names in post-order, the flag cleared, and as results the last leaf of each type among those inside nested objects before a nested sibling, which are all inside ones iff leaves come first |
| NestedVisitors.LogsArePermutations | libs/visit/test/test_visitors.hpp:49-58 | The two logs are permutations, and equal when depth is at most one |
| NestedVisitors.LogsEqualExactly | libs/visit/test/test_visitors.hpp:49-58 | With distinct names the two logs are equal iff depth is at most one |
| NestedVisitors.RecordsInsideExactly | libs/visit/test/test_visitors.hpp:60-88 | The leaves recorded are those inside nested objects iff leaves come before nested ones within every nested object; otherwise some are missed |
| NestedVisitors.LeafAfterNestedIsMissed | libs/visit/test/test_visitors.hpp:54-69 | A leaf after a nested sibling, both inside a nested object, is not recorded |
| WebSockets.WebSocketSession.OnRead | networking/websocket/websocket_session.cpp:34-60 | A completed read makes one callback; a message is echoed, whether or not a write is outstanding, consumed, and reading goes on; only a close unregisters |
| WebSockets.WebSocketSession.OnAccept | networking/websocket/websocket_session.cpp:84-100 | A handshake ends in an accept error or in a registered session that reads |
| WebSockets.WebSocketSession.OnWrite | networking/websocket/websocket_session.cpp:70-82 | The write that ended is no longer outstanding; a successful one takes its bytes off the buffer, a failed one makes a callback and takes none |
| WebSockets.WebSocketSession.Send | networking/websocket/websocket_session.h:61-66 | Appends to the write buffer and writes all of it as one frame, even while another write is outstanding |
| WebSockets.Listener.OnReceive | apps/simple_server/tcp_listener.cpp:33-47 | Answers if the session can be locked, forgets it otherwise |
| WebSockets.Listener.OnDisconnect | apps/simple_server/tcp_listener.cpp:25-32 | Erases the session's key |
| WebSockets.Listener.SetState | apps/simple_game/beast.cpp:67-101 | Stores the state and, for every registered session once, sends it or sets up a delayed send |
| WebSockets.Listener.OnTimer | apps/simple_game/beast.cpp:91-93 | Any of the waiting delayed sends sends the state stored at that moment |
| WebSocketRuns.CallbackLanguage | networking/websocket/websocket_session.cpp:34-100 | The callback lists of all runs are exactly: an accept error, or a connect, then receives and write errors, then at most one disconnect or read error, then write errors: any number where sends can be delayed or writes can overlap, at most one where neither can |
| WebSocketRuns.NoReceiveAfterEnd | networking/websocket/websocket_session.cpp:39-51 | After a disconnect or read error only write errors can follow, and without delayed sends and overlaps a single one |
| WebSocketRuns.OverlapExactly | networking/websocket/websocket_session.h:61-66 | No two writes are ever outstanding iff each Send comes when the writes of all Sends before it have ended |
| WebSocketRuns.OneMessageEach | networking/websocket/websocket_session.cpp:53-59 | The read buffer is empty at every read, so receives show the messages one by one in order |
| WebSocketRuns.EventsTell | networking/websocket/websocket_session.cpp:34-100 | Callbacks, messages received and arguments of Send are exactly those the events of a run call for, one by one |
| WebSocketRuns.EveryFrame | networking/websocket/websocket_session.h:61-66 | Where writes never overlap they complete in order, and between writes the buffer holds only a failed frame |
| WebSocketRuns.FramesAreCutFromTheStream | networking/websocket/websocket_session.h:61-66 | In every run each frame is all that was sent up to then less what successful writes had taken off the front; the write buffer is what is left |
| WebSocketRuns.FramesAreSends | networking/websocket/websocket_session.h:61-66 | In every run, frames are the arguments of Send, in order, iff no Send comes while a frame with data is outstanding or after one has failed |
| WebSocketRuns.FramesWithoutFailures | networking/websocket/websocket_session.cpp:62-82 | When no write fails or overlaps another the frames are the arguments of Send, in order |
| WebSocketRuns.StaleData | networking/websocket/websocket_session.cpp:73-81 | A failed write makes the next frame carry its data again |
| ConnectionRegistry.EveryRegistry | apps/simple_server/tcp_listener.cpp:19-47 | For any interleaving and any keys, a session is registered iff it connected, has not disconnected, and no other notice for its key came since |
| ConnectionRegistry.RegistryOfEvents | apps/simple_server/tcp_listener.cpp:19-47 | The same read off the events alone: accepted, not closed by its peer, and no other session with its key connected or disconnected since |
| ConnectionRegistry.DistinctKeysExact | apps/simple_server/tcp_listener.cpp:19-47 | With distinct keys the registry's keys are those of the connected sessions |
| ConnectionRegistry.EachSessionIsARun | apps/simple_server/tcp_listener.cpp:19-47 | Seen from one session, a run of the server is a run of that session, without delayed sends if no broadcast is delayed and without overlaps if none occur |
| ConnectionRegistry.ReceiveAnswers | apps/simple_server/tcp_listener.cpp:33-47 | Every message is shown whole and answered with its text and the suffix; the lock never fails, so nothing is erased |
| ConnectionRegistry.EchoOverlapsExactly | apps/simple_server/tcp_listener.cpp:33-38 | Without broadcasts, the writes of a session never overlap iff each of its messages arrives when the answers to all earlier ones have been written or have failed |
| ConnectionRegistry.DanglingExactly | networking/websocket/websocket_session.cpp:45-51 | A registered entry dangles iff its session had a read error and has neither a write nor a delayed send outstanding |
| ConnectionRegistry.EntriesAreLive | apps/simple_game/beast.cpp:73-75 | In runs without read errors every entry refers to a live session |
| ConnectionRegistry.BroadcastReachesMembers | apps/simple_game/beast.cpp:73-100 | With distinct keys a broadcast appends its body once to what each connected session sends and writes, or sets up one delayed send of it, and leaves everything else as it was |
| ConnectionRegistry.DelayedSendIsLatest | apps/simple_game/beast.cpp:70-93 | A delayed send was set up by a delayed broadcast, carries the body of the last broadcast before it goes out, and so its own body iff the two are the same |
| ConnectionRegistry.DelayedSendIsReplaced | apps/simple_game/beast.cpp:70-93 | Of two delayed broadcasts, the first one's send goes out with the second one's body |
| ConnectionRegistry.ReadErrorDangles | networking/websocket/websocket_session.cpp:45-51 | A connect followed by a read error leaves a dangling entry |
| ConnectionRegistry.SharedKeyUnregisters | apps/simple_server/tcp_listener.cpp:20-32 | Of two sessions with one key, the first to disconnect unregisters the other |
| Routes.RouteManager.Add | networking/route_manager_base.hpp:96-105 | Adds one registration; lookups stay those of a first-match search |
| Routes.RouteManager.AddWebsocket | networking/route_manager_base.hpp:107-110 | Adds one handler; lookups stay those of a first-match search |
| Routes.RouteManager.GetCallback | networking/route_manager_base.hpp:68-81 | The first callback registered for the method and path |
| Routes.RouteManager.GetWSHandler | networking/route_manager_base.hpp:54-66 | The first handler registered for the path, and none for other methods than GET |
| Routes.FirstIsEarliest | networking/route_manager_base.hpp:96-99 | A first-match search finds the earliest entry, and one iff there is one |
| Routes.ParseQuery | networking/http/http_session.cpp:43-60 | The parameters are the non-empty keys of the query, each with the value of its first occurrence, a missing value read as empty |
| HttpSessions.HttpSession.HandleRead | networking/http/http_session.cpp:94-153 | End of stream closes; an upgrade with a handler hands over; any other request is answered by its route or with the full target not found, and reading goes on |
| HttpSessions.HttpSession.HandleWrite | networking/http/http_session.cpp:166-182 | A successful write, whichever of those outstanding it is, closes iff the session's flag is not keep-alive |
| HttpSessions.HttpSession.Release | networking/http/http_session.h:66 | The session is destroyed, and closed once more, when nothing is outstanding |
| HttpSessions.EveryRequestIsAnswered | networking/http/http_session.cpp:109-158 | For any client and any order of completions: one response is started per request read and not handed over, in order; it is what the first registered callback makes, or not found with the full target; the flag is the last started one's |
| HttpSessions.OneMoreRequest | networking/http/http_session.cpp:119-152 | A GET to upgrade on a registered path is handed over and ends reading; any other request starts the response owed and reading goes on |
| HttpSessions.EveryReadAndClose | networking/http/http_session.cpp:94-182 | For any client: a read is outstanding until reading ends, handed over iff a request asked for it, destroyed iff nothing is outstanding, one Close per end of stream, per write that succeeds while the last started response is closing, and per destruction |
| HttpSessions.EveryResponseOnce | networking/http/http_session.cpp:151-182 | For any client and any order of completions: each response started is in flight, written or failed, and once |
| HttpSessions.ResponsesInOrder | networking/http/http_session.cpp:151-182 | For any client, as long as writes complete in the order they were started, the responses written are those started, in order, without the failed ones and those in flight |
| HttpSessions.SerialClient | networking/http/http_session.cpp:94-182 | With a serial client: a read outstanding until reading ends, one write in flight at most, destroyed exactly when nothing is outstanding, one Close per end of stream, per written response that is not keep-alive and per destruction; written responses are those started, in order, without the failed ones and the one in flight |
| HttpSessions.ClosesForTheRightResponse | networking/http/http_session.cpp:155-182 | With a serial client a successful write closes iff that response is not keep-alive |
| HttpSessions.OverlapExactly | networking/http/http_session.cpp:151-152 | No two writes are ever in flight iff the client is serial |
| HttpSessions.FlagIsTheLastStarted | networking/http/http_session.cpp:155-181 | For any client, whichever write in flight succeeds next closes as its response asks iff that response and the last one started agree about keep-alive |
| HttpSessions.PipeliningLosesAClose | networking/http/http_session.cpp:151-181 | Two pipelined requests after which a closing response does not close |
| HttpSessions.PipeliningReorders | networking/http/http_session.cpp:151-163 | Two pipelined requests of which the second is answered first |
| Decks.Deck.Build | domain/Deck.h:26-36 | A shuffled deck of the cards 1 to n |
| Decks.Deck.PickCard | domain/Deck.cpp:35-40 | Takes the top card off |
| Decks.Sorted | domain/Deck.cpp:17-20 | An ascending rearrangement of the cards |
| Decks.Conservation | domain/Deck.h:26-54 | Over any operations from a fresh deck, drawn plus remaining cards are 1 to n plus the added ones |
| Decks.EveryOp | domain/Deck.cpp:17-40 | Every operation of a run does what it should: an add puts its card on top, a shuffle leaves its order, a sort leaves the same cards ascending, a draw takes the top card |
| Decks.LastInFirstOut | domain/Deck.cpp:30-40 | Cards put on the deck are drawn in the opposite order and leave the deck as it was |
| Decks.SortGivesUpTo | domain/Deck.cpp:17-20 | Sorting a fresh deck gives exactly 1 to n |
| Decks.SortThenDraw | domain/Deck.cpp:35-40 | Drawing it empty then gives n down to 1 |
| Decks.EachCardOnce | domain/Deck.cpp:35-40 | Drawing a fresh deck empty yields each card from 1 to n once |

## Left out

- Sockets, acceptors, TLS, timers and timeouts, logging, and the inside of Asio and Beast: completions are events, strands are FIFO executors.
- `do_close` and `Close` themselves: only when and how often they are called; of the Close in `~WebSocketSession` only that the session is destroyed.
- PipelinedHttpRuns.CutsOffExactly: a write after the sending side was shut down may end either way.
- HTTP and URI parsing, percent-decoding, file serving, `mime_type`, `path_cat`: a request is its method, path and flags; a handler is a function; targets are assumed to parse.
- HttpSessions.Answer: a callback is a function of the request; the parameters it also gets and response fields other than body and keep-alive are not modelled.
- PipelinedHttpRuns.EveryState: a response is its body and keep-alive flag; the hand-over of the socket on upgrade while writes are outstanding is an ending of reading, not a transfer.
- WebSockets.WebSocketSession.Send: a frame is the content of the write buffer when its write starts; what becomes of the bytes of a write outstanding when the buffer grows or is consumed, and what Beast does about overlapping writes, is not modelled beyond the order and outcome of their completions.
- WebSockets.Listener.SetState: the length of a delay, and so the order in which timers fire, is open; every entry must be live, since the code dereferences a raw pointer.
- GameStrands.EveryStateIsSerial: the lifetime of the session object and null players; handlers are assumed not to outlive it.
- NestedVisitors.NestedVisitor.Accept: leaves are integers, doubles and strings, the types the visitor tells apart; what it prints for other types is not modelled.
- Decks.Sorted: `std::sort` is any ascending rearrangement, which is unique; `std::shuffle` may produce any rearrangement.
- `RouteManagerBuilder::Build` and `WithRouteManagerType`, overriding `AddCallback`, `ConvertVerbBeast`: pointer moves, subclassing and a finite table.
- `WebSocketPlayerController`, the duplicate `PlayerControllerBase`, the echo session inside the Beast example, and the React client: no protocol of their own, or not implemented.
- `Deck::IsSorted`, `IsEmpty`, `GetSize`, `GetTopCard`, `GetCards`: they read the deck without changing it.
