# Verified model of the TLS chat server

The server is a reactor: one event-loop thread owns all connection state, while an acceptor thread and database
workers push requests into its queue. This project models the parts whose correctness is not visible in any single
function, and proves what they keep over all inputs, all interleavings and all histories.

| files | what they model |
|---|---|
| `Text`, `Numbers`, `Codec` | lines, decimal numbers, and the printer/parser pair of the 17 commands |
| `Buffers`, `Streams` | offset buffers with lazy compaction, flushing and draining through TLS, and whole connections from encoder to decoder |
| `Connections`, `Outgoing` | what a request means on the plain table of connections; and what each connection is sent and called, over whole histories of requests |
| `Indexes`, `Registry`, `Lifecycle` | the registry class, which also keeps two reverse indexes, a client count and the kernel's masks, and deferred removal |
| `Tasks`, `Handlers`, `Events`, `Server` | what the event loop's handlers do to a connection whatever TLS, the peer and the kernel answer, what that means for an event, and the class that does it |
| `Reactor`, `Interleaving` | the loop among the threads that queue requests while it works, and the classes of registry and server running under every such interleaving |
| `Wakeup`, `Pool` | the queue-and-eventfd protocol and the worker pool, as interleavings of single steps |
| `Ordering`, `Tables`, `Social`, `Provenance` (in `Social.dfy`), `Rows`, `History`, `DbService` | the database: one atomic transaction per service method, under the schema's constraints, and which rows it holds after any history |
| `Executor`, `Answers`, `Cells` | what a task does to the database and to the registry, and what it tells its sender |
| `Delivery`, `Whole` | room delivery through the whole server, and the loop with its handlers as a refinement of that model |
| `Witnesses`, `Misdelivery` | runs from an empty database in which a conditional property fails because its condition does |

How it fits together. Code that updates objects step by step is a class whose methods are proved against functions on
values: `OffsetBuffer` and `FlushSend` against `Flush`, `EpollRegistry` against `Handle`, `Service` against the
transactions in `Tables`, `DbExecutor` against `Execute`. The theorems are about these functions, so they hold of the
methods too. The TLS library is an oracle: a write reports how many bytes it took (no more than it was offered), a read
delivers some bytes, and both say whether they want to read or write. The kernel may refuse any change of a mask. The
database may fail any transaction, and then nothing of it remains. The identity gaps, the clock, how a time is printed,
and the order in which pending friend requests were created are parameters.

Main results:

- **Delivery.** In every interleaving of acceptor, loop and one database worker in which no task breaks a room list,
  each connection that a room message is handed to is logged in as somebody who was a member of the room when the
  message was written (`DeliveredToMembersOnly`), and if no list misses a room either, the targets are exactly the
  connections logged in as members (`DeliveredExactly`). `TaskFitsIff` and `TaskCoversIff` say, for every task, whoever
  sent it, and every connection, exactly when it breaks the list, in terms of the state before it runs: a room is
  claimed too many if the user leaves a listed room and the reload fails, or if a create or delete task that was sent
  under another user than the connection has by now loads that user's rooms onto it; a room is missed if the user
  enters one from another connection or without a reload, or if such a stale task replaces the list. Rules a caller can
  check rule all of this out: where nobody logs in again on a connection, reloads succeed, and users with several
  connections create no rooms, delivery is exact (`OrderlyDelivery`). This holds of the event loop with its handlers
  too: its steps among acceptor and worker are made of steps of the delivery model (`LoopMove`, `WholeDelivery`), and
  each target reads the message just stored, signed with the nickname of the connection it came from
  (`WholeReading`). The condition is needed: every task that makes a list claim too much, run by a server with nothing
  else under way, leaves an existing room whose next message is handed to a stranger (`HarmfulTaskGoesAstray`), and two
  runs from an empty database in which this happens are given in full (`FailedReloadGoesAstray`,
  `StaleTaskGoesAstray`).
- **Loop.** While acceptor and workers queue requests at any moment, every closed connection has exactly one removal
  waiting and every open one none (`ClosedHasOneRemoval`), every live connection with something to write is watched for
  it by the kernel (`WriteInterestIsKept`), and no event is dispatched to a connection closed before
  (`NoEventForTheClosed`). The steps that move bytes take what TLS, the peer and the kernel answer; the connection, its
  mask and its removal are then what the handlers make of it (`SendWatches`, `RecvWatches`). The classes of registry
  and server follow every such run step by step (`RunMachine`), and one turn of the loop's own method is one of them
  (`Turn`). An event takes in what has arrived, executes the complete lines, flushes and closes exactly as its bits and
  these answers say (`EventReads`, `EventWrites`, `EventIsQuiet`), and a flush or drain ends exactly where the session
  blocks, fails or has nothing left (`FlushFailsIff`, `DrainEndsAt`).
- **Wire.** Any commands whose fields are non-empty and free of CR and LF arrive unchanged and in order, through any
  partial writes, any delivery chunks and any schedule of flushing and parsing (`RunLink`). The codec alone is lossless
  exactly on commands whose fields are non-empty, hold no CR and do not start with LF (`RoundTripIff`).
- **Registry.** After any requests, under any kernel behaviour, both indexes, the client count and the masks say
  exactly what the table of connections says (`RunRegistry`). The bytes meant for a peer are exactly what the requests
  since its registration sent to it (`StreamIsHeard`), and a room message is signed with the last nickname given to its
  sender (`NicknameIsLast`).
- **Threads.** No wakeup is lost because the loop consumes the eventfd before it swaps the queue, and exchanging the
  two loses one (`ConsumeFirstIff`). A stopped pool has executed every accepted task exactly once (`StopDrains`).
- **Database.** After every history a row is there exactly if a transaction brought it in and none has taken it out
  since (`AccountIff`, `FriendsIff`, `RoomIff`, `MemberIff`, `StoredIff`), and every task tells its sender exactly what
  the rows say (`TaskTold`). Friendships come from accepted requests, two users can become friends again
  exactly when at least one direction was not accepted yet (`CanBefriendIff`), every member but the owner entered by the
  invitation of a then-member who was then a friend (`MembersWereInvited`), every message was written by a then-member
  (`MessagesWereWritten`), and the history window shows the last messages for every limit exactly when the clock never
  went back (`WindowIsLastIff`). Histories in which each condition fails are given (`EstrangedUsers`, `FallingClock`).

Where the code differs from what one might expect of it, the model follows the code: a removed friendship whose
requests were accepted in both directions cannot be renewed, because an accepted request row is never revived;
encoding a command with an empty field gives a line the decoder refuses (`EmptyFieldIsRejected`); a CR swallows an LF
after it.

## Model

| member | source | states |
|---|---|---|
| Delivery.DeliveredToMembersOnly | src/reactor/epoll_registry.cpp:350-372 | over every run with one worker in which no task breaks a room list: every connection in the room when a room broadcast is handled is logged in as a user who was a member when the message was written |
| Delivery.DeliveredExactly | src/database/db_executor.cpp:192-226 | if no task makes a list miss a room either: the targets are exactly the connections logged in as then-members |
| Delivery.OrderlyRunIsHarmless | src/database/db_executor.cpp:135-174 | no task breaks a list in a run without a second login on a connection whose reloads after leaving succeed; nor misses one if those after creating and inviting succeed and rooms are created only by users without another connection |
| Delivery.OrderlyDelivery | src/reactor/epoll_registry.cpp:350-372 | so in a run that keeps these rules a room message goes only to connections logged in as then-members, and under the rules for exact delivery to all of them |
| Whole.WholeDelivery | src/reactor/event_loop.cpp:16-47 | the same of the event loop with its handlers: in every interleaving with acceptor and database worker that keeps the rules, the targets of a room message about to be handled are logged in as then-members, and under the rules for exact delivery they are all of these |
| Whole.WholeReading | src/reactor/epoll_registry.cpp:350-372 | and each target's stream gains exactly the message just stored, behind the nickname of the connection it came from, `guest` without one |
| Whole.LoopMove | src/server/epoll_server.cpp:260-295 | every step of acceptor and loop is made of steps of the delivery model: moving bytes, queueing a removal or an echo, and handing on a received command as a task of that connection under its current user |
| Whole.MoveKeepsInv | src/database/db_executor.cpp:75-91 | so every step of the whole server keeps what delivery rests on |
| Misdelivery.WrongListGoesAstray | src/reactor/epoll_registry.cpp:350-372 | the converse: when a member says something in a room of a server at rest, the strangers it can be handed to are exactly the connections that list the room without their user being in it |
| Misdelivery.HarmfulTaskGoesAstray | src/database/db_executor.cpp:435-527 | every task that leaves a listed room without a reload or shows the connection a room of another user, run by a server at rest, leaves the connection listing an existing room its user is not in, and the next message of that room can be handed to it |
| Misdelivery.StaleTaskGoesAstray | src/database/db_executor.cpp:464-473 | a run in which a client logs in as somebody else and creates a room in one go, and then gets the messages of a room its user is not in |
| Misdelivery.FailedReloadGoesAstray | src/database/db_executor.cpp:648-662 | a run in which a user leaves a room, the reload fails, and the user's connection still gets the room's messages |
| Delivery.StepKeepsInv | src/reactor/event_loop.cpp:16-47 | every step of acceptor, loop and worker keeps what delivery rests on: a sound database, fresh registrations, requests addressed to known connections, and for each connection that its room list will be right when all pending requests are handled |
| Delivery.RunKeepsInv | src/database/db_executor.cpp:75-91 | so it holds after every run |
| Delivery.StartKeepsConn | src/database/db_executor.cpp:93-119 | running a task that spares a connection keeps its pending requests in order and its final list right |
| Delivery.TaskIsDue | src/database/db_executor.cpp:192-226 | what a task sends is in order for a connection whose list is right: a broadcast finds the room in the list only where the user is a member |
| Delivery.SayAnnounces | src/database/db_executor.cpp:192-226 | a message is broadcast only if it was just stored, with that text, in that room, by a member; otherwise there is exactly one reply to the sender |
| Delivery.TaskIsOwn | src/database/db_executor.cpp:93-119 | every task is answered, and no task registers or removes a connection, speaks to another connection, changes another connection's login or list, or broadcasts unless it is a message |
| Delivery.UserStays | src/reactor/epoll_registry.cpp:287-297 | where nobody logs in over a login, a logged-in connection keeps its user over all pending requests |
| Delivery.Inserted | src/reactor/epoll_registry.cpp:121-151 | a request about neither logins nor rooms may be queued anywhere between others without changing what a connection ends up with |
| Delivery.UnnamedStaysUnknown | src/reactor/epoll_registry.cpp:299-326 | a fresh connection stays without user and rooms, and gets no room message, until a request names it |
| Cells.HandleCell | src/reactor/epoll_registry.cpp:287-326 | handling any request changes a connection's user and rooms exactly as the fold over requests says; a new connection starts without both |
| Cells.TaskFolds | src/database/db_executor.cpp:93-119 | the effect of any task's whole request list on any connection's user and rooms, in terms of the database the task leaves behind |
| Cells.TaskFitsIff | src/database/db_executor.cpp:617-673 | across any task, whoever sent it, a connection's room list claims no room its user is not in, exactly unless the task leaves a listed room and the reload fails, or a stale create or delete shows the connection a room of another user |
| Cells.TaskCoversIff | src/database/db_executor.cpp:435-476 | and misses no room of its user, exactly unless the task makes the user enter a room from another connection or without a reload, or a stale create or delete hides one |
| Cells.StaleCreateFitsIff | src/database/db_executor.cpp:464-473 | for creating a room: the list stays right exactly when the task's user is still the connection's |
| Cells.ReloadIff | src/database/db_executor.cpp:514-524 | loading a user's list onto a connection of whatever user: it claims too much exactly unless the connection's user is in all these rooms, and misses something exactly unless the user is in no other |
| Cells.DeleteReloadIff | src/database/db_executor.cpp:478-527 | for deleting a room, told before it is deleted: both answers from the rooms the two users are in |
| Cells.CommitFits | src/database/db_service.cpp:389-429 | only the user's own leaving can make a room list claim too much |
| Cells.CommitCovers | src/database/db_service.cpp:258-360 | only the user's creating a room or being invited can make it miss one |
| Cells.TaskCommits | src/database/db_executor.cpp:93-119 | a task commits at most one transaction, under the user it was sent by |
| Cells.TaskKeepsSound | src/database/db_executor.cpp:93-119 | every task keeps the database sound |
| Answers.TaskTold | src/database/db_executor.cpp:135-787 | every task tells its sender exactly one text, or one list of texts, told from the rows before it runs and from what fails |
| Answers.TaskNames | src/database/db_executor.cpp:135-250 | a login gives the connection the account's nickname or `guest`, a change of nickname changes both, and nothing else names a connection |
| Answers.FriendListTold | src/database/db_executor.cpp:374-399 | a friend list is asked for with exactly the friends, in ascending order |
| Answers.SayTold | src/database/db_executor.cpp:192-226 | a message is refused with its reason or broadcast with its text |
| Answers.AnswerPlace | src/database/db_executor.cpp:135-174 | a login is told last unless the database failed it, a new room is told before the list is loaded again |
| Answers.AnswerIsLast | src/database/db_executor.cpp:478-673 | deleting, inviting and leaving are told behind the reloads |
| Answers.NumberIsSpelled | src/database/db_executor.cpp:458-463 | a number in an answer is a spelling of itself, so a room id sent back is understood |
| Tasks.DbCommandIff | src/database/db_executor.cpp:18-35 | every command but a response is for the database |
| Executor.DbExecutor.Run | src/database/db_executor.cpp:93-119 | running a task of any command performs exactly its effect: the database it leaves and the requests it pushes, in order |
| Executor.DbExecutor.LoadJoinedRoomIds | src/database/db_executor.cpp:121-133 | the ids of the user's rooms in ascending order, or the error |
| Executor.DbExecutor.ExecuteLogin | src/database/db_executor.cpp:135-174 | a login sets user, rooms and nickname only if password and room list are at hand; every other outcome logs the connection out |
| Executor.DbExecutor.ExecuteSay | src/database/db_executor.cpp:192-226 | a stored message is broadcast to its room, anything else is answered to the sender |
| Executor.DbExecutor.ExecuteCreateRoom | src/database/db_executor.cpp:435-476 | creates, answers, and reloads the list of this connection only |
| Executor.DbExecutor.ExecuteDeleteRoom | src/database/db_executor.cpp:478-527 | deletes, reloads the list of this connection only, and answers |
| Executor.DbExecutor.ExecuteInviteRoom | src/database/db_executor.cpp:529-615 | invites and reloads the lists of all connections of both users; each refusal has its answer |
| Executor.DbExecutor.ExecuteLeaveRoom | src/database/db_executor.cpp:617-673 | leaves and reloads the lists of all connections of the user; each refusal has its answer |
| Wakeup.ConsumeFirstIff | src/reactor/epoll_registry.cpp:411-425 | over all interleavings the loop never sleeps on a non-empty queue with nobody left to ring - exactly because it consumes before it swaps |
| Wakeup.CoveredAlways | src/reactor/epoll_wakeup.cpp:38-60 | a non-empty queue always has a set eventfd, a producer about to ring, or a loop on its way to the swap |
| Wakeup.HandledInLockOrder | src/reactor/epoll_registry.cpp:121-238 | handled requests, the current batch and the queue are together all requests in lock order |
| Wakeup.SleepersCatchUp | src/reactor/event_loop.cpp:16-24 | a loop sleeping on requests can always wake and handle every one of them by itself |
| Pool.RunKeeps | src/core/thread_pool.cpp:18-63 | over every interleaving: tasks are taken in the order they were accepted, each once; queued tasks have an awake worker or a notification on its way; sleepers after the flip are owed the broadcast |
| Pool.AcceptedIsOffered | src/database/db_executor.cpp:51-73 | accepted are exactly the tasks offered before the flip, in order |
| Pool.StopDrains | src/database/db_executor.cpp:37-49 | when the stop call that flipped the flag returns, every accepted task was executed exactly once and the queue is empty |
| Pool.NothingAcceptedAfterFlip | src/database/db_executor.cpp:51-61 | no task is accepted after the flip |
| Pool.OneWorkerIsSequential | src/database/db_executor.cpp:75-91 | with one worker tasks are finished in the order they were accepted, one at a time |
| Pool.StoppingStep | src/core/thread_pool.cpp:46-63 | after the broadcast every step of a worker brings the end closer and no other step delays it |
| Pool.StoppingGoesOn | src/core/thread_pool.cpp:18-30 | and until the stop call returns such a step, or the return, is possible |
| Outgoing.HandleSays | src/reactor/epoll_registry.cpp:244-372 | each request drops a connection exactly if it removes it, or fills its empty outbox and the kernel refuses; otherwise it adds to the stream exactly the commands addressed to it, and write interest when the outbox fills |
| Outgoing.HandleNames | src/reactor/epoll_registry.cpp:280-326 | and changes name, user and rooms exactly as the requests about this connection or its user say |
| Outgoing.HandleAdmits | src/reactor/epoll_registry.cpp:11-68 | a connection is let in exactly by its own registration, if that can be set up: open, named `guest`, without user, rooms or bytes |
| Outgoing.RoomMessageIsSigned | src/reactor/epoll_registry.cpp:354-371 | what a target of a room message reads: the sender's nickname, or `guest` if the sender is gone or has none, and the text |
| Outgoing.NicknameIsLast | src/reactor/epoll_registry.cpp:280-285 | over every history of requests a connection's nickname is the last one given to it since it was registered, `guest` before any |
| Outgoing.StreamIsHeard | src/reactor/epoll_registry.cpp:411-425 | over every history the bytes meant for a peer are exactly what the requests since its registration sent to it, each once and in order |
| Registry.RunRegistry | src/reactor/epoll_registry.cpp:53-93 | in every reachable state both indexes, the client count and the kernel masks agree with the table, no index entry is empty, and a user has an entry exactly when somebody is logged in as that user |
| Registry.EpollRegistry.HandleRequest | src/reactor/epoll_registry.cpp:240-372 | each of the ten requests keeps the agreement and changes the table as `Handle` says |
| Registry.EpollRegistry.Work | src/reactor/epoll_registry.cpp:411-425 | takes the whole queue, handles it oldest first, and leaves it empty |
| Registry.EpollRegistry.Register | src/reactor/epoll_registry.cpp:11-68 | adds a fresh connection, or nothing if it is known or cannot be set up |
| Registry.EpollRegistry.Unregister | src/reactor/epoll_registry.cpp:70-93 | removes the connection from the table and from both indexes |
| Registry.EpollRegistry.SyncInterest | src/reactor/epoll_registry.cpp:95-103 | tells the kernel the mask, or drops a connection it refuses |
| Registry.EpollRegistry.AppendSend | src/reactor/epoll_registry.cpp:105-119 | queues the message; the connection is dropped exactly if its outbox was empty and the kernel refuses; pending bytes always have write interest afterwards |
| Registry.EpollRegistry.HandleRoomBroadcast | src/reactor/epoll_registry.cpp:350-372 | serves exactly the connections in the room when the step began, whatever is dropped on the way |
| Registry.EpollRegistry.HandleSetUserId | src/reactor/epoll_registry.cpp:287-297 | moves the connection to its new user's entry and empties its rooms |
| Registry.EpollRegistry.HandleSetJoinedRooms | src/reactor/epoll_registry.cpp:299-308 | the connection is in exactly the positive ids given |
| Registry.EpollRegistry.HandleSetJoinedRoomsForUser | src/reactor/epoll_registry.cpp:310-326 | so is every connection of the user, and no other connection changes |
| Registry.EpollRegistry.HandleSendFriendList | src/reactor/epoll_registry.cpp:328-348 | a header and one line a friend, each friend online exactly when some connection is logged in as that friend |
| Registry.EpollRegistry.HandleBroadcast | src/reactor/epoll_registry.cpp:257-278 | appends the signed message to every connection |
| Registry.EpollRegistry.RemoveFdFromRoomIndex | src/reactor/epoll_registry.cpp:374-386 | takes the connection out of every room entry, leaving none empty |
| Registry.EpollRegistry.RemoveFdFromUserIndex | src/reactor/epoll_registry.cpp:388-398 | takes it out of its user's entry, leaving none empty |
| Registry.EpollRegistry.SetFdJoinedRooms | src/reactor/epoll_registry.cpp:400-409 | files it under exactly the positive ids given |
| Connections.RoomBroadcastIsExact | src/reactor/epoll_registry.cpp:350-372 | a member's stream grows by the signed message once, everyone else is untouched, and a target is lost exactly if the kernel refused it |
| Connections.HandleAddsOnlyRegistered | src/reactor/epoll_registry.cpp:11-68 | only its own registration adds a connection |
| Indexes.OnlineIffSession | src/reactor/epoll_registry.cpp:328-348 | a user has an index entry exactly when some connection is logged in as that user |
| Lifecycle.BatchLeavesNoneClosed | src/reactor/event_loop.cpp:16-24 | after a batch no closed connection is left, so none receives an event |
| Lifecycle.CloseKeepsTeardown | src/server/epoll_server.cpp:130-135 | closing an open connection and queueing its removal once keeps that promise |
| Reactor.StepKeepsInv | src/reactor/event_loop.cpp:16-47 | every step of acceptor, workers and loop - also between the swap and the end of dispatch, and between the handlers of one event - keeps removals exact, identities fresh, masks in step and events open, whatever TLS, peer, kernel and executor answer |
| Reactor.RunKeepsInv | src/reactor/epoll_registry.cpp:411-425 | so these hold in every reachable state |
| Reactor.AcceptKeeps | src/reactor/epoll_registry.cpp:121-127 | a registration queued at any moment keeps identities fresh |
| Reactor.ClosedHasOneRemoval | src/server/epoll_server.cpp:126-135 | at every moment of every run a closed connection has exactly one removal in the current batch or the queue, an open one none |
| Reactor.WriteInterestIsKept | src/reactor/epoll_utility.cpp:41-53 | at every moment of every run a live connection with pending bytes or TLS want-write has write interest, and the kernel's mask is the connection's |
| Reactor.NoEventForTheClosed | src/reactor/event_loop.cpp:25-47 | at every moment after the batch, no event still to be dispatched is that of a closed connection |
| Reactor.LoopMayGoOn | src/reactor/event_loop.cpp:16-24 | whenever no batch is in hand, what the handlers need holds of the queue alone |
| Reactor.EventIsPath | src/reactor/event_loop.cpp:26-47 | what the dispatch of one whole event does to table, masks, queue and tasks is a sequence of such steps |
| Reactor.BatchIsPath | src/reactor/epoll_registry.cpp:411-425 | so is handling a batch |
| Interleaving.RunMachine | src/reactor/event_loop.cpp:16-47 | the classes of registry and server follow every run of these steps: after any interleaving with acceptor and workers, table, masks, waiting requests and tasks are the run's, indexes and count agree with the table, whoever has bytes to send is watched for it, and removals are exact |
| Interleaving.Machine.Perform | src/reactor/event_loop.cpp:16-47 | each step, done by the methods of registry and server, makes their state the next state of the run |
| Server.EpollServer.Turn | src/reactor/event_loop.cpp:16-47 | one turn of the loop on its own keeps indexes, masks and teardown exact, loses no byte meant for a peer, and is a run of the loop's single steps |
| Server.EpollServer.Dispatch | src/reactor/event_loop.cpp:26-47 | one event touches only its own connection; what becomes of it and of its mask, which lines are executed, what stays in the inbox, and the tasks and requests queued are exactly the event's |
| Server.EpollServer.HandleDisconnect | src/server/epoll_server.cpp:130-135 | closes, and queues a removal exactly if the connection was open |
| Server.EpollServer.SyncTlsInterest | src/server/epoll_server.cpp:115-124 | write interest afterwards exactly when bytes are pending or TLS wants to write, and the kernel agrees unless it refuses |
| Server.EpollServer.ProgressTlsHandshake | src/server/epoll_server.cpp:137-166 | a handshake step with its exact outcome and removal; true exactly if it does not fail |
| Events.EventReads | src/reactor/event_loop.cpp:39-53 | any of the three bits that announce something to read makes what has arrived be taken in; if the connection stays open its complete lines are executed, and it is closed exactly on failure, refusal or hang-up |
| Events.EventWrites | src/reactor/event_loop.cpp:43-54 | room to write makes the outbox be flushed, if the connection is still open and ready |
| Events.EventIsQuiet | src/reactor/event_loop.cpp:30-55 | without these bits nothing is read, executed or written, and an error only closes the connection |
| Events.HandshakeExactly | src/server/epoll_server.cpp:137-166 | a handshake step closes an open connection exactly if it fails, the peer is gone, or the kernel refuses a mask that has to change; otherwise write interest is exactly as the step needs it |
| Events.SendExactly | src/server/epoll_server.cpp:168-187 | a send flushes exactly when the session is ready, closes exactly on failure or refusal, and leaves write interest exactly as needed and the other bits alone |
| Events.RecvExactly | src/server/epoll_server.cpp:189-217 | the same for receiving, which also closes on hang-up; and dispatch goes on exactly otherwise |
| Events.LinesRunExactly | src/server/epoll_server.cpp:260-273 | lines are executed up to the first that holds a database command the executor declines |
| Events.LinesYield | src/server/epoll_server.cpp:264-295 | a line yields a task of its connection under its user, or its echo, or nothing, as it decodes; a list of lines yields these in order |
| Handlers.HandshakeOutcome | src/server/epoll_server.cpp:137-166 | the handshake is done exactly when a step completes it; it closes an open connection exactly if the step fails, the peer is gone or the kernel refuses the mask; no byte moves |
| Server.EpollServer.HandleSend | src/server/epoll_server.cpp:168-187 | handshake, flush and mask with their exact outcome and removal |
| Handlers.SendOutcome | src/server/epoll_server.cpp:168-187 | no byte is lost; once the handshake is done the buffer is flushed; an open connection is closed exactly if handshake, flush or mask fails |
| Server.EpollServer.HandleRecv | src/server/epoll_server.cpp:189-217 | handshake, drain, mask and peer close with their exact outcome and removal; true exactly if dispatch goes on |
| Handlers.RecvOutcome | src/server/epoll_server.cpp:189-217 | exactly the delivered bytes reach the inbox; an open connection is closed exactly if handshake, drain or mask fails or the peer has closed, and dispatch goes on exactly otherwise |
| Handlers.SendWatches | src/server/epoll_server.cpp:115-187 | whatever TLS and the kernel answer, after a send a connection that is not closed has write interest if it has pending bytes or TLS wants to write, and the kernel's mask is its interest |
| Handlers.RecvWatches | src/server/epoll_server.cpp:115-217 | the same after receiving |
| Server.EpollServer.HandleClientError | src/server/epoll_server.cpp:232-258 | an error closes the connection if it is still known |
| Server.EpollServer.HandleExecute | src/server/epoll_server.cpp:260-295 | takes the next complete line and hands on its task under the connection's current user, or echoes a response through the queue; without a line nothing changes |
| Server.EpollServer.ExecuteAll | src/reactor/event_loop.cpp:44-46 | the lines executed are the complete lines received, up to the first database command the executor refuses; their tasks and their echoes are queued in order, and what is behind them stays unread |
| Handlers.LinesRunSplit | src/reactor/event_loop.cpp:44-46 | these lines with their LFs and what stays unread are the bytes received, and while the executor accepts tasks no complete line stays unread |
| Buffers.OffsetBuffer.ParseLine | src/protocol/line_parser.cpp:12-21 | a line, its LF and the rest are the unread bytes; without a line the view has no LF; afterwards the offset is small or below half the buffer |
| Buffers.OffsetBuffer.CompactIfNeeded | src/net/io_helper.cpp:18-24 | never changes the unread view, and is paid for by bytes already read |
| Buffers.OffsetBuffer.ClearIfDone | src/net/io_helper.cpp:11-16 | empties the buffer exactly when nothing is unread |
| Buffers.OffsetBuffer.Advance | src/net/io_helper.cpp:42-44 | reads past the first bytes of the view |
| Buffers.OffsetBuffer.Append | src/net/io_helper.cpp:62-80 | extends the view and reports exactly the step from drained to pending |
| Buffers.FlushFailsIff | src/net/io_helper.cpp:95-111 | a flush fails with an error exactly if it gets to a write that fails with it, finds the peer gone, or takes nothing and waits for nothing; never because the session is busy |
| Buffers.FlushEndsAt | src/net/io_helper.cpp:93-107 | it ends with the first write that does not go through: what it took, its result and the session's flags |
| Buffers.FlushTakesAll | src/net/io_helper.cpp:93-116 | or, if all go through, with an empty buffer |
| Buffers.DrainEndsAt | src/net/io_helper.cpp:123-142 | a drain ends with the first read that fails, delivers nothing or is told to wait: everything delivered so far is in the buffer, and it fails or reports a closed peer exactly as that read does |
| Buffers.DeliveredFits | src/net/io_helper.cpp:122-130 | a read delivers an initial part of what there is, no more than its buffer holds, and all of it if it fits |
| Buffers.FlushConserves | src/net/io_helper.cpp:89-116 | on every exit the bytes handed over and the bytes left are what there was, and success counts the bytes handed over |
| Buffers.FlushStopsOnlyWhenBlocked | src/net/io_helper.cpp:104-115 | a successful flush leaves bytes behind only while TLS wants to read or write |
| Buffers.FlushSend | src/net/io_helper.cpp:89-116 | the loop on the real buffer does what `Flush` says, ends, and loses no byte |
| Buffers.DrainConserves | src/net/io_helper.cpp:118-143 | exactly the delivered bytes reach the buffer, in order and on every exit, and success counts them |
| Buffers.DrainRecv | src/net/io_helper.cpp:118-143 | the receive loop on the real buffer does what `Drain` says |
| Streams.RunReader | src/protocol/line_parser.cpp:12-21 | over any interleaving of arrivals and parse calls, the lines with their LFs and the unread rest are the bytes that arrived, and all compactions together moved no more bytes than were read |
| Streams.ChunkingIsInvisible | src/protocol/line_parser.cpp:12-21 | once no complete line is unread, the lines are the split of the whole stream, however it was chunked |
| Streams.CutLinesArePrefix | src/protocol/line_parser.cpp:12-21 | lines cut from the front of a stream of whole lines are its first lines |
| Streams.RunLink | src/net/io_helper.cpp:62-143 | end to end: what the receiver has decoded is always an initial part of what the sender queued, and all of it once nothing is in transit |
| Streams.LinkIsFaithful | src/protocol/command_codec.cpp:16-196 | the same from the bytes alone: parsed lines decode to the first commands queued |
| Codec.DecodeLine | src/protocol/command_codec.cpp:16-42 | the scan finds exactly the tokens of the line, the first as command, the others as arguments |
| Codec.DecodeCommand | src/protocol/command_codec.cpp:67-196 | one final LF is dropped, then the tokens must be a known name with the right number of arguments |
| Codec.RoundTripIff | src/protocol/command_codec.cpp:44-65 | decoding the encoding gives the command back exactly when every field is non-empty, free of CR and does not start with LF |
| Codec.EmptyFieldIsRejected | src/protocol/command_codec.cpp:67-196 | for fields free of CR and LF: the command itself if no field is empty, otherwise `unexpected_argument` |
| Codec.DecodedIsStable | src/protocol/command_codec.cpp:67-196 | whatever an LF-free line decodes to survives encoding and decoding again |
| Codec.DecodedFieldsAreNotEmpty | src/protocol/command_codec.cpp:16-42 | no decoded command has an empty field |
| Codec.TokensAreSplitPieces | src/protocol/command_codec.cpp:16-42 | on LF-free lines the tokens are the CR-separated pieces without the empty ones |
| Codec.EncodeIsOneLine | src/protocol/command_codec.cpp:44-65 | an encoded command is one line exactly when its fields hold no LF |
| Codec.EraseDelimiter | src/protocol/command_codec.cpp:4-7 | removes one final LF and nothing else |
| Numbers.RoomIdIff | src/database/db_executor.cpp:200-211 | accepted are exactly the spellings of a positive 64-bit number: white space, a sign or none, digits |
| Numbers.LimitIff | src/database/db_executor.cpp:737-749 | accepted are exactly the spellings of a number from 1 to 100 |
| Numbers.RoomIdRoundTrip | src/database/db_executor.cpp:458-463 | the id printed in a reply is understood when it is sent back |
| Rows.AccountIff | src/database/db_service.cpp:42-77 | over every history there is an account exactly if somebody signed up, with the first password and the last nickname |
| Rows.FriendsIff | src/database/db_service.cpp:100-208 | two users are friends exactly if a pending request between them was accepted and neither has removed the other since |
| Rows.RoomIff | src/database/db_service.cpp:258-310 | a room exists exactly if it was created and its owner has not deleted it since, with the name and owner it was created with |
| Rows.MemberIff | src/database/db_service.cpp:258-429 | members are exactly those who created the room or were invited by a member who was a friend, and have not left |
| Rows.StoredIff | src/database/db_service.cpp:362-387 | stored are exactly the messages that members have written and whose room still exists, by ascending id |
| Rows.UsersAfter | src/database/db_service.cpp:42-77 | one transaction adds at most the account signed up for, keeps passwords, and changes at most the nickname asked for |
| Rows.FriendsAfter | src/database/db_service.cpp:100-208 | one transaction changes no friendship but the one it accepts or removes |
| Rows.RequestAfter | src/database/db_service.cpp:150-229 | requests move from none or rejected to pending and from pending to accepted or rejected, and no other way |
| Rows.RoomsAfter | src/database/db_service.cpp:258-310 | one transaction adds or removes no room but its own |
| Rows.MembersAfter | src/database/db_service.cpp:258-429 | one transaction changes no membership but its own user's, or those of the room it deletes |
| Rows.MessagesAfter | scripts/migrate_db_schema.sh:281-287 | a message is stored by its sender and goes only with its own room |
| Rows.SocialAnswers | src/database/db_service.cpp:42-229 | what each transaction on accounts and friendships answers is what it has done |
| Rows.RoomAnswers | src/database/db_service.cpp:292-429 | so is what each on rooms and members answers |
| Tables.RunIsSound | scripts/migrate_db_schema.sh:170-287 | every history keeps keys, checks and one owner row per room, and every friendship row has an accepted request in some direction |
| Tables.CommitKeepsSound | src/database/db_service.cpp:42-429 | so does every single transaction |
| Social.FriendListIsExact | src/database/db_service.cpp:120-148 | a friend list names exactly the friends; it is symmetric and never names oneself |
| Social.RowsNameDistinctFriends | src/database/db_service.cpp:120-148 | different rows name different friends, so the list has no duplicates |
| Social.AcceptedIsAbsorbing | src/database/db_service.cpp:150-229 | an accepted request stays accepted over every history |
| Social.EstrangedForever | src/database/db_service.cpp:100-208 | two users with accepted requests both ways who are no longer friends never become friends again |
| Social.AskAndAccept | src/database/db_service.cpp:150-208 | in a direction not accepted yet, asking and accepting makes friends |
| Social.CanBefriendIff | src/database/db_service.cpp:150-208 | users who are not friends can still become friends exactly when one direction was not accepted yet |
| Witnesses.EstrangedUsers | src/database/db_service.cpp:100-208 | a history after which two users can never be friends again |
| Provenance.OneOwnerRow | src/database/db_service.cpp:258-290 | each existing room has exactly one owner row, and it is its owner's |
| Provenance.MembersWereInvited | src/database/db_service.cpp:312-360 | every other member entered by an invitation, and has been in since, of a then-member who was then a friend |
| Provenance.MessagesWereWritten | src/database/db_service.cpp:362-387 | every stored message belongs to an existing room and was written under its id by a then-member |
| Provenance.RoomIdsAreFresh | src/database/db_service.cpp:258-310 | the id of a deleted room is never used again |
| History.WindowIsLastIff | src/database/db_service.cpp:466-515 | the nested query shows the last messages for every limit exactly when stored times never go back |
| History.WindowIsLast | src/database/db_service.cpp:466-515 | then it shows the last min(limit, n) messages in ascending id order |
| History.WindowIsFull | src/database/db_service.cpp:466-515 | with any clock it shows min(limit, n) messages of the room, each once, by ascending id |
| History.WindowIsNewest | src/database/db_service.cpp:466-515 | with any clock, a message shown brings every newer one of its room along |
| Witnesses.FallingClock | src/database/db_service.cpp:466-515 | a history whose clock goes back and whose window of one is not the last message |
| DbService.HistoryIsLastMessages | src/database/db_service.cpp:466-515 | in a sound database, if the clock never went back within the room, a member reads exactly the last messages of this room and of no other, and nobody else reads anything |
| DbService.InRoomKeepsClock | src/database/db_service.cpp:466-515 | a clock that never went back has not gone back within any room |
| DbService.Service.ListRoomMessages | src/database/db_service.cpp:466-515 | nothing for non-members, the window for members, or the error |
| DbService.Service.ListRooms | src/database/db_service.cpp:431-464 | the rooms of the user by ascending id, each with its name, owner and number of members |
| DbService.Service.ListFriends | src/database/db_service.cpp:120-148 | the friends of the user in ascending order, without duplicates |
| DbService.Service.ListFriendRequests | src/database/db_service.cpp:231-256 | exactly the users with a pending request to this one, each once |
| DbService.Service.RemoveFriend | src/database/db_service.cpp:100-118 | removes the one ordered row of the pair, leaving the requests |
| DbService.Service.RequestFriend | src/database/db_service.cpp:150-175 | asks, or revives a rejected or canceled request; never between friends |
| DbService.Service.AcceptFriendRequest | src/database/db_service.cpp:177-208 | accepts a pending request and befriends both at once, or does nothing |
| DbService.Service.RejectFriendRequest | src/database/db_service.cpp:210-229 | rejects a pending request |
| DbService.Service.CreateRoom | src/database/db_service.cpp:258-290 | a new room with its owner as first member, in one transaction |
| DbService.Service.DeleteRoom | src/database/db_service.cpp:292-310 | only the owner deletes, and members and messages go along |
| DbService.Service.InviteRoom | src/database/db_service.cpp:312-360 | a member invites a friend who is not in the room yet; each refusal has its own result |
| DbService.Service.CreateRoomMessage | src/database/db_service.cpp:362-387 | a member's message is stored under a new id, anyone else's is not |
| DbService.Service.LeaveRoom | src/database/db_service.cpp:389-429 | a member other than the owner leaves; each refusal has its own result |

## Left out

- OpenSSL, certificates, error classification, sockets, address resolution, the listener and PostgreSQL itself: they appear only as oracles for TLS replies, mask updates and transactions.
- Reuse of file descriptors: connection ids are fresh in `Lifecycle`, `Reactor` and `Delivery`. The program uses raw descriptors, so requests queued for a closed connection could reach its successor.
- Registry.EpollRegistry.HandleBroadcast: models the plain broadcast only for a kernel that accepts every mask, because the loop holds an iterator across a possible erase; no current command reaches it.
- Registry.EpollRegistry.AppendSend: the log line after a failed synchronisation, which reads the erased connection, is not modelled; the connection is gone at that point.
- Connections are values in the table, as they are in the program's map, and the table shows their buffers as unread bytes only; the offset buffers are modelled on their own in `Buffers`.
- `Wakeup`, `Pool`, `Reactor`, `Delivery` and `Whole` are step relations: each step stands for one critical section, one system call or one handler, and memory ordering below the mutex is not modelled. A handler is one step because it queues at most one request and never reads the queue. Only the steps of `Reactor` are also done by classes (`Interleaving`).
- Server.EpollServer.Turn: one turn without requests queued by others meanwhile; turns with them are runs of `Interleaving`.
- Executor.DbExecutor.Run: the text of a message's time and the order of pending friend requests are parameters, because the database prints the one and keeps the other.
- DbService.Service.ListFriendRequests: the tables keep no creation time of requests, so the order of the rows is a parameter; which rows there are is not.
- Server.EpollServer.HandleDisconnect: the shutdown call on the TLS session and the missing session object are not modelled.
- `add_friend`, which no command reaches, and `ping`.
- The client, its console, `chat_executor` and the connection-side I/O worker: their stop flag is not guarded by the mutex, so the pool's argument does not carry over to them.
- Logging, configuration, paths, `unique_fd`, error texts, shell scripts and deployment: they would only add easy members.
