# Boost.Asio protocols: models and proofs

This project models the protocols among the Boost.Asio samples of the repository and proves
what they guarantee in every run.

* **Chat** (`Codec`, `Framing`, `Endpoint`, `RoomSpec`, `ClientSpec`, `ChatWorld`,
  `ChatProperties`, `ChatRest`, `ChatWitness`, and the classes in `ChatMessages`, `ChatServer`,
  `ChatClient`). A message is a four-character text header and a body. Clients and sessions read
  header and body in turn and write one message at a time from a queue; the room puts all messages
  in one order and replays the last hundred to newcomers.
* **Process per connection** (`ForkSpec`, `ForkProperties`, class in `ForkServer`). The parent
  accepts, forks and reaps; the children echo.
* **Echo with handler memory** (`Echo`, `MemorySpec`, `EchoMemory`, classes in `HandlerMemory`).
* **Two timers on a strand** (`StrandSpec`, class in `Printer`).
* **Handler tracking** (`TrackingSpec`, classes in `Tracking`).

Each component has two layers. The classes update their fields in place as the C++ classes do,
and every handler is proved to take the object, seen through its `View`, to the state that a
specification function computes. The systems of `ChatWorld`, `ForkSpec`, `EchoMemory`,
`StrandSpec` and `TrackingSpec` are built from the same functions: a run is any sequence of steps,
a step is one handler completion, one partial transfer, one error, one micro-step of a handler or
one event of the environment, and a step that is not possible changes nothing. The main results
hold after every run. Fields named as history (`log`, `popped`, `emitted`, `typed`, `printed`,
`joinedAt`, `left`, `owner`, `reaps`, `done`, `asked`, `received`, `sent`, `failed`) record what
has happened and decide nothing (accepted connections are numbered by the length of `owner`).

Where the code does not do what one might expect, the model follows the code:

* After a write error a session is out of the room but goes on reading and still publishes. A
  session that reads is outside its room exactly when one of its writes has failed
  (`SessionLifetime`), one that is about to publish publishes to the room wherever it is
  (`LeftSessionStillPublishes`), and `SessionPublishesFromOutside` is a run in which one does.
* `decode_header` accepts every header whose leading text denotes a number in 0..512, blank and
  digit-free headers included; the server relays such headers as they are.
* `sizeof(T) * n` in the allocator wraps around; the block has room for `n` elements exactly when
  it does not (`RoomForElements`).
* Tree ids in handler tracking start as 0 and are only ever copied, so they tell causal trees
  apart exactly when somebody presets them apart (`TreesToldApart`, `DefaultTreesCoincide`).
* Handler ids repeat after 2^64 creations and not before (`IdsRepeatOnlyOnWrap`, `IdsRepeat`).

C library functions have their meaning in ISO C11 (sections 7.21.6.6, 7.22.1.2, 7.22.1.4 and
7.24.3.2). A connection delivers bytes in order and without loss up to the point where it fails
(section 2.2 of RFC 9293). Handlers that one thread posts run in the order of posting, as they do
in an `io_context` that one thread runs; `LoggedIsTypedPrefix` and the results about what is typed
and heard rest on this.

## Model

| member | source | states |
|---|---|---|
| Codec.AtoiMeaning | Concurrent_programming/asio/chat/chat_message.hpp:60 | the digit loop returns the one number that the text denotes: blanks, optional sign, longest run of digits |
| Codec.DecodeMeaning | Concurrent_programming/asio/chat/chat_message.hpp:56-67 | every four-byte header denotes a number; it is accepted, as that number, exactly when it lies in 0..512; negatives are rejected through the unsigned conversion |
| Codec.DecodeEncode | Concurrent_programming/asio/chat/chat_message.hpp:56-74 | decoding the encoding of a length in 0..512 gives it back, and the encoding has four characters |
| Codec.EncodeMeaning | Concurrent_programming/asio/chat/chat_message.hpp:69-74 | the header of a length is its decimal text without leading zeros, right-aligned with blanks in four characters, and no other four bytes |
| ChatMessages.DecodeAfterEncode | Concurrent_programming/asio/chat/chat_message.hpp:29-74 | encoding then decoding the header restores the length whatever was stored and leaves the body alone; the frame is well formed and its header is the right-aligned decimal text |
| ChatMessages.ChatMessage.SetBodyLength | Concurrent_programming/asio/chat/chat_message.hpp:49-54 | the stored length is the given one, or 512 when that is larger |
| ChatMessages.ChatMessage.DecodeHeader | Concurrent_programming/asio/chat/chat_message.hpp:56-67 | succeeds exactly when the header is accepted, sets the length, 0 when rejected, and keeps it at most 512 |
| ChatMessages.ChatMessage.EncodeHeader | Concurrent_programming/asio/chat/chat_message.hpp:69-74 | the first four bytes become the right-aligned decimal text of the length, the rest stays |
| Framing.ParseConcat | Concurrent_programming/asio/chat/chat_client.cpp:55-89 | the bytes of well-formed frames followed by anything mean those frames followed by what the rest means |
| Framing.ParseSound | Concurrent_programming/asio/chat/chat_client.cpp:55-89 | what a stream means is well formed and its bytes are a prefix of the stream |
| Framing.PrefixUnique | Concurrent_programming/asio/chat/chat_message.hpp:29-32 | well-formed frames are a prefix code: their bytes determine them |
| Framing.ParsePrefix | Concurrent_programming/asio/chat/chat_client.cpp:55-89 | any prefix of the bytes of some frames means a prefix of the frames |
| Endpoint.ReadLoopParses | Concurrent_programming/asio/chat/chat_client.cpp:55-89 | over any bytes, arriving in any pieces, with stale bytes in the buffer, the header/body loop reads what the consumed bytes mean |
| Endpoint.FramingRecovers | Concurrent_programming/asio/chat/chat_client.cpp:55-89 | over the bytes of frames the loop reads a prefix of them, never rejects a header without an error, and reads all of them once every byte is handled |
| Endpoint.HeaderReadKeeps | Concurrent_programming/asio/chat/chat_message.hpp:56-67 | an accepted header sets the length and the body is read next; a rejected one sets it to 0 and ends the reads; the bytes and what was read stay |
| Endpoint.PushKeeps | Concurrent_programming/asio/chat/chat_client.cpp:23-35 | a push starts a write only on an empty queue and adds the message behind all others |
| Endpoint.TransmitKeeps | Concurrent_programming/asio/chat/chat_server.cpp:128-133 | a partial transfer puts the next bytes of the queue's front on the wire |
| Endpoint.WrittenKeeps | Concurrent_programming/asio/chat/chat_server.cpp:134-143 | a finished write pops the front, whose bytes are all on the wire, and starts to write the next message, if any, from its first byte |
| Endpoint.WriteErrorKeeps | Concurrent_programming/asio/chat/chat_server.cpp:144-147 | a failed write leaves the queue as it is, with its front, and no write outstanding |
| RoomSpec.StartKeeps | Concurrent_programming/asio/chat/chat_server.cpp:33-38 | a newcomer joins at the end of the log, its queue is exactly the last hundred messages, and nobody else's membership changes |
| RoomSpec.DeliverKeeps | Concurrent_programming/asio/chat/chat_server.cpp:45-53 | a delivery extends the window of a member by the message and leaves others' windows frozen |
| RoomSpec.PublishKeepsRoom | Concurrent_programming/asio/chat/chat_server.cpp:45-49 | after a delivery the recent messages are again the last hundred of the log |
| RoomSpec.OnHeaderKeeps | Concurrent_programming/asio/chat/chat_server.cpp:91-107 | the header handler keeps all that holds of room and session and changes nobody else: an accepted header leaves the members as they are and the body is read next; a rejected or missing one takes the session out and ends its reads |
| RoomSpec.OnBodyKeeps | Concurrent_programming/asio/chat/chat_server.cpp:109-126 | the body handler keeps all that holds of room and author: a read body is logged, leaves the members as they are and the next header is read; an error logs nothing, takes the session out, ends its reads and leaves its writes and everybody else alone |
| RoomSpec.OnWriteKeeps | Concurrent_programming/asio/chat/chat_server.cpp:128-149 | the write handler, in the room or out of it, pops the front and writes the next message from its first byte, with the members as they are; on an error it keeps the queue, writes no more and the session is out; reading and everybody else go on |
| ChatServer.ChatRoom.Join | Concurrent_programming/asio/chat/chat_server.cpp:33-38 | in place: the participant is in the room, owned once by it, and gets every recent message in order, also when it was there already |
| ChatServer.ChatRoom.Leave | Concurrent_programming/asio/chat/chat_server.cpp:40-43 | in place: a participant is removed; an absent one is not affected |
| ChatServer.ChatRoom.Remember | Concurrent_programming/asio/chat/chat_server.cpp:47-49 | in place: the trimming loop leaves the last hundred |
| ChatServer.ChatRoom.Deliver | Concurrent_programming/asio/chat/chat_server.cpp:45-53 | in place: the room becomes the published one, all members get the message once, nobody else changes |
| ChatServer.ChatSession.Start | Concurrent_programming/asio/chat/chat_server.cpp:74-78 | in place: the room becomes the one with the new session joined and reading |
| ChatServer.ChatSession.Deliver | Concurrent_programming/asio/chat/chat_server.cpp:80-88 | in place: the message is queued and a write starts if none was in progress |
| ChatServer.ChatSession.OnHeader | Concurrent_programming/asio/chat/chat_server.cpp:91-107 | in place: the specified state of the whole room after the header handler |
| ChatServer.ChatSession.OnBody | Concurrent_programming/asio/chat/chat_server.cpp:109-126 | in place: the specified state of the whole room after the body handler |
| ChatServer.ChatSession.OnWrite | Concurrent_programming/asio/chat/chat_server.cpp:128-149 | in place: the specified state of the whole room after the write handler |
| ChatServer.ChatSession.ReceiveSome | Concurrent_programming/asio/chat/chat_server.cpp:94-95 | in place: bytes that arrive go behind those already read and change nothing else in the room |
| ChatServer.ChatSession.TransmitSome | Concurrent_programming/asio/chat/chat_server.cpp:131-133 | in place: a partial transfer sends the next bytes of the write's buffer and changes nothing else in the room |
| ClientSpec.LineWellFormed | Concurrent_programming/asio/chat/chat_client.cpp:141-144 | the message made of a line is well formed, its header is the right-aligned length and its body is the line |
| ClientSpec.LinesOfUnlines | Concurrent_programming/asio/chat/chat_client.cpp:138-146 | whatever lines of at most 512 characters are typed, the loop sees exactly them, each up to its first NUL, and goes on behind them |
| ClientSpec.LastLine | Concurrent_programming/asio/chat/chat_client.cpp:138-146 | a last line is seen even when no newline ends it; nothing comes of the end of input |
| ClientSpec.TooLongEndsInput | Concurrent_programming/asio/chat/chat_client.cpp:138-139 | the first longer line ends the loop; it and all that follows is dropped |
| ClientSpec.TypeAllMeans | Concurrent_programming/asio/chat/chat_client.cpp:138-146 | the messages typed have the lines as their bodies, in order, and are what is posted |
| ClientSpec.EndInputKeeps | Concurrent_programming/asio/chat/chat_client.cpp:148 | after the input the closing, and nothing else, is posted last |
| ClientSpec.RunPostedKeeps | Concurrent_programming/asio/chat/chat_client.cpp:23-40 | the oldest posted handler runs: its message goes behind all others or the socket is closed; every typed message stays, in order, sent, queued or posted |
| ClientSpec.OnConnectKeeps | Concurrent_programming/asio/chat/chat_client.cpp:43-53 | a connect starts the header read; a failed one leaves the client unconnected, reading nothing |
| ClientSpec.OnReadKeeps | Concurrent_programming/asio/chat/chat_client.cpp:55-89 | each branch: a read body is printed and the next header is read; an accepted header starts the body; a rejected header or an error closes the socket and ends the reads; printed bodies stay those read |
| ClientSpec.OnWriteKeeps | Concurrent_programming/asio/chat/chat_client.cpp:91-111 | each branch: the front is popped and the next message is written from its first byte; an error closes the socket, keeps the queue and ends the writes |
| ChatClient.ChatClient.LineLoop | Concurrent_programming/asio/chat/chat_client.cpp:138-148 | in place: the messages posted and typed have exactly the lines of the input as their bodies, in order, and the closing is posted last |
| ChatClient.ChatClient.MakeMessage | Concurrent_programming/asio/chat/chat_client.cpp:141-144 | the bytes built in a fresh buffer are the header of the length and the line |
| ChatClient.ChatClient.RunPosted | Concurrent_programming/asio/chat/chat_client.cpp:23-40 | in place: the specified client after the oldest posted handler |
| ChatClient.ChatClient.OnConnect | Concurrent_programming/asio/chat/chat_client.cpp:43-53 | in place: the specified client after connecting, which starts to read |
| ChatClient.ChatClient.OnHeader | Concurrent_programming/asio/chat/chat_client.cpp:55-70 | in place: the specified client after the header handler |
| ChatClient.ChatClient.OnBody | Concurrent_programming/asio/chat/chat_client.cpp:72-89 | in place: the specified client after the body handler, with the body printed |
| ChatClient.ChatClient.OnWrite | Concurrent_programming/asio/chat/chat_client.cpp:91-111 | in place: the specified client after the write handler |
| ChatClient.ChatClient.ReceiveSome | Concurrent_programming/asio/chat/chat_client.cpp:57-58 | in place: bytes that arrive go behind those already read |
| ChatClient.ChatClient.TransmitSome | Concurrent_programming/asio/chat/chat_client.cpp:93-95 | in place: the same for a write of the client |
| ChatWorld.RunInv | Concurrent_programming/asio/chat/chat_server.cpp:33-149 | after any run with any rooms, clients, foreign peers, chunking and failures, everything that holds of rooms, sessions, clients and streams holds; a session is in the room exactly while it reads and no write of it has failed |
| ChatProperties.SessionWindow | Concurrent_programming/asio/chat/chat_server.cpp:33-53 | messages sent plus queue equal one window of the log, from a hundred before joining up to now or up to leaving |
| ChatProperties.PrintedIsLogWindow | Concurrent_programming/asio/chat/chat_client.cpp:55-89 | end to end: what a client has printed are the bodies of one contiguous piece of its room's log, from where its replay started |
| ChatProperties.PrintedAllAtRest | Concurrent_programming/asio/chat/chat_client.cpp:55-89 | when nothing is under way on the way down and nothing there has failed, the client has printed the bodies of its whole window |
| ChatProperties.ClientsAgree | Concurrent_programming/asio/chat/chat_client.cpp:72-89 | two clients of a room print the same for the same place of the log |
| ChatProperties.LoggedIsTypedPrefix | Concurrent_programming/asio/chat/chat_client.cpp:138-146 | the messages logged from a client are, in order and without repetition, the first of those its main loop wrote, and their bodies the first of its lines |
| ChatProperties.TypedAreLines | Concurrent_programming/asio/chat/chat_client.cpp:138-146 | in every run the messages typed at a client have as their bodies the lines given to its loop, in order, none else |
| ChatProperties.EndedIsInputEnded | Concurrent_programming/asio/chat/chat_client.cpp:138-148 | in every run the client knows that its input has ended exactly when its loop has come to the end |
| ChatProperties.LoggedAllAtRest | Concurrent_programming/asio/chat/chat_client.cpp:138-146 | when nothing is under way on the way up and nothing there has failed, the log holds every message typed and so every line |
| ChatRest.EverythingArrives | Concurrent_programming/asio/chat/chat_client.cpp:23-146 | from every reachable state in which nothing of a connection has failed and its socket is open, successful steps of that connection alone lead to rest, where the bodies logged of it are exactly its lines and the whole log from its replay on is printed |
| ChatRest.PostedRuns | Concurrent_programming/asio/chat/chat_client.cpp:23-40 | from every reachable state everything posted can run, with the socket open or closed: every line is then queued, and the socket is closed if the input has ended |
| ChatRest.QueueDrains | Concurrent_programming/asio/chat/chat_server.cpp:128-149 | from every reachable state in which no write of a session has failed, in the room or not, its own transfers and write handlers empty its queue and put its whole window on the wire; if its reads have ended it is then released |
| ChatRest.StreamIsLogged | Concurrent_programming/asio/chat/chat_server.cpp:91-126 | from every reachable state in which a session reads, whoever its peer is and in the room or not, its own successful reads make the log hold exactly the frames that the whole stream means |
| ChatProperties.HeardIsConsecutivelyTyped | Concurrent_programming/asio/chat/chat_client.cpp:72-146 | the bodies of one client's messages among those another has printed are consecutive lines given to the first one's loop |
| ChatProperties.RelayIsTransparent | Concurrent_programming/asio/chat/chat_server.cpp:91-126 | for arbitrary bytes from any peer, the logged frames lie end to end in its stream, byte for byte, and are what the stream means; the bytes sent to a connection are a prefix of the bytes of its window of the log |
| ChatProperties.ClientNeverRejects | Concurrent_programming/asio/chat/chat_client.cpp:59-63 | no client rejects a complete header from the server, whoever wrote it |
| ChatProperties.SessionNeverRejectsClient | Concurrent_programming/asio/chat/chat_server.cpp:91-107 | no session rejects a complete header from the client program |
| ChatProperties.SessionLifetime | Concurrent_programming/asio/chat/chat_server.cpp:74-149 | owners of a session are the room, the read handler and the write handler; it is in the room if and only if it reads and no write of it has failed, and released if and only if both chains have ended |
| ChatProperties.SessionReadsOn | Concurrent_programming/asio/chat/chat_server.cpp:91-126 | in every run the session of a client reads on until a read of its own fails, whatever becomes of its writes |
| ChatProperties.SessionStays | Concurrent_programming/asio/chat/chat_server.cpp:74-149 | in every run the session of a client is in its room, owned by it and by its read, until a read or write of its own fails |
| ChatProperties.FailedReadLeaves | Concurrent_programming/asio/chat/chat_server.cpp:97-105 | in every run a read that fails takes the session out of its room and ends its reads; its writes and everybody else are not affected |
| ChatProperties.FailedWriteLeaves | Concurrent_programming/asio/chat/chat_server.cpp:144-147 | in every run a write that fails takes the session out of its room and ends its writes; its reads and everybody else are not affected |
| ChatProperties.ReleasedIsUntouched | Concurrent_programming/asio/chat/chat_server.cpp:40-43 | a released session is never touched again in any continuation of the run |
| ChatProperties.ClientCloses | Concurrent_programming/asio/chat/chat_client.cpp:37-40 | the socket is closed if and only if the reads of a connected client have ended, a write has failed, or the input has ended and the posted close has run |
| ChatProperties.ClientReadsOn | Concurrent_programming/asio/chat/chat_client.cpp:55-89 | in every run a connected client reads on until a read of its own fails |
| ChatProperties.ClientStaysOpen | Concurrent_programming/asio/chat/chat_client.cpp:37-111 | in every run, until a read or write of a client fails, its socket is closed exactly when the posted close has run |
| ChatProperties.FailedReadCloses | Concurrent_programming/asio/chat/chat_client.cpp:65-68 | in every run a read that fails, of a header or a body, closes the client's socket and ends its reads, and changes nothing else |
| ChatProperties.FailedWriteCloses | Concurrent_programming/asio/chat/chat_client.cpp:106-109 | in every run a write that fails closes the client's socket, ends its writes and keeps its queue |
| ChatProperties.FailedConnect | Concurrent_programming/asio/chat/chat_client.cpp:43-53 | in every run a connect that fails leaves the client unconnected, reading nothing, with nothing printed |
| ChatProperties.HistoryIsKept | Concurrent_programming/asio/chat/chat_server.cpp:33-53 | in any continuation of any run the recorded places of joining and leaving stay what they are and the log only grows; a session that leaves in it leaves at a place between the old end of the log and the new one |
| ChatProperties.JoinsAtEndOfLog | Concurrent_programming/asio/chat/chat_server.cpp:33-38 | a session joins at the length that the log has then |
| ChatProperties.HistoryStep | Concurrent_programming/asio/chat/chat_server.cpp:40-43 | in one step of anyone a session leaves, if it does, at the length that the log has then |
| ChatProperties.WritesAreDisciplined | Concurrent_programming/asio/chat/chat_server.cpp:80-88 | at both ends: at most one write outstanding, on the unchanged front; the queue is non-empty exactly when one is outstanding or has failed |
| ChatProperties.SilentAfterFailure | Concurrent_programming/asio/chat/chat_server.cpp:128-149 | at both ends: after a failed write no write starts and no byte is sent in any continuation of the run |
| ChatProperties.LeftSessionStillPublishes | Concurrent_programming/asio/chat/chat_server.cpp:114-119 | in any run, a session whose body read is due publishes that message, in the room or not, and reads the next header; it is outside exactly when one of its writes has failed |
| ChatWitness.SessionPublishesFromOutside | Concurrent_programming/asio/chat/chat_server.cpp:114-149 | a concrete run of eleven steps in which a session outside its room puts a second message into the log |
| ChatWitness.LinesComeBack | Concurrent_programming/asio/chat/chat_client.cpp:115-155 | for any up to a hundred lines there is a run in which a client alone in its room prints exactly them |
| ChatProperties.RoomsAreIsolated | Concurrent_programming/asio/chat/chat_server.cpp:177-207 | the state of a room, its sessions and clients after a run is the one after only the steps of that room |
| ChatProperties.RecentIsLastHundred | Concurrent_programming/asio/chat/chat_server.cpp:45-49 | the recent messages are the last min(100, k) of the k delivered |
| Echo.EchoesPrefix | Concurrent_programming/asio/allocation_async/server.cpp:157-183 | in every run what is sent back is a prefix of what the peer's data brought in, read off the events: all of it when a read is outstanding, all but the untransmitted part of the buffer while a write is |
| Echo.DataComesBack | Concurrent_programming/asio/allocation_async/server.cpp:157-183 | in every run, whatever data of up to 1024 bytes comes while a read is outstanding is sent back, for any split into two transfers, and the next read is started |
| Echo.OneOutstanding | Concurrent_programming/asio/allocation_async/server.cpp:157-183 | although any number of operations could be outstanding on the buffer, in every run there is exactly one until one fails, and none from then on |
| Echo.BufferStableWhileWriting | Concurrent_programming/asio/fork/forkHandler.cpp:114-122 | in any continuation of any run, until an outstanding write completes or fails the buffer keeps its bytes and what goes out are those bytes in order |
| Echo.FailureEnds | Concurrent_programming/asio/fork/forkHandler.cpp:104-122 | in every run a read or write that fails ends the chain; nothing else changes |
| ForkProperties.RunInv | Concurrent_programming/asio/fork/forkHandler.cpp:26-122 | after any run of all processes, everything that holds of the parent, the children, connections and signals holds |
| ForkProperties.NoLostZombie | Concurrent_programming/asio/fork/forkHandler.cpp:26-45 | an unreaped dead child means a pending signal, a due handler or a running reaping loop, although signals merge |
| ForkProperties.ZombieIsReapable | Concurrent_programming/asio/fork/forkHandler.cpp:26-45 | with an unreaped dead child the parent always has a next step towards reaping |
| ForkProperties.ParentReapsAll | Concurrent_programming/asio/fork/forkHandler.cpp:26-45 | from every reachable state the parent alone, in at most three steps more than there are dead children, reaps every one of them |
| ForkProperties.AcceptsAgain | Concurrent_programming/asio/fork/forkHandler.cpp:26-102 | from every reachable state the parent alone, in at most four steps more than there are dead children, comes back to accepting the next connection with no child dead; a failed accept changes nothing |
| ForkProperties.ReapLoopShrinks | Concurrent_programming/asio/fork/forkHandler.cpp:36-41 | during the loop the set of unreaped children never grows, each turn makes it smaller, and leaving the loop means no dead child is left |
| ForkProperties.DeathLeavesZombie | Concurrent_programming/asio/fork/forkHandler.cpp:26-45 | in every run a child that dies stays behind dead, its parent is told, and nobody else is affected |
| ForkProperties.ReapedOnce | Concurrent_programming/asio/fork/forkHandler.cpp:36-41 | in every run a child has been reaped by its parent once if it is gone and never otherwise |
| ForkProperties.NoticesAreDeaths | Concurrent_programming/asio/fork/forkHandler.cpp:26-45 | in every run the parent is told of deaths, several at once perhaps, and of nothing else, and its handler runs once for each time |
| ForkProperties.SignalStays | Concurrent_programming/asio/fork/forkHandler.cpp:26-45 | a signal that has arrived stays, in any continuation, until it is passed on |
| ForkProperties.ProcessRoles | Concurrent_programming/asio/fork/forkHandler.cpp:34-94 | only the root accepts, with one accept and one signal wait between handlers; all others are its children, never wait for either and never reap |
| ForkProperties.ForkSplitsRoles | Concurrent_programming/asio/fork/forkHandler.cpp:52-93 | one accept: the child holds the connection, has closed its acceptor, has its cancelled wait due and reads; the parent ends as it began |
| ForkProperties.ChildRunsOut | Concurrent_programming/asio/fork/forkHandler.cpp:70-112 | a child can exit exactly when its echo chain has failed and its cancelled wait has run; the root never runs out of work |
| ForkProperties.ConnectionsHeldOnce | Concurrent_programming/asio/fork/forkHandler.cpp:54-92 | a connection is open exactly in the child forked for it, and in the parent only between fork and close |
| ForkProperties.ChildrenEcho | Concurrent_programming/asio/fork/forkHandler.cpp:104-122 | a child has one operation outstanding on its connection from the fork until one fails, and it has sent back a prefix of what its reads brought in, all of it when a read is outstanding |
| ForkProperties.ChildGoesOn | Concurrent_programming/asio/fork/forkHandler.cpp:104-122 | in every run a child that reads sends back whatever data of up to 1024 bytes comes, and an operation of it that fails ends its chain |
| ForkServer.Kernel.WaitPid | Concurrent_programming/asio/fork/forkHandler.cpp:39 | reaps one dead child or reports that none is left, with deaths at any time before |
| ForkServer.Server.OnSignal | Concurrent_programming/asio/fork/forkHandler.cpp:28-43 | in place: with an open acceptor the loop ends with no dead child left and the wait re-armed; otherwise nothing is reaped or re-armed |
| ForkServer.Server.OnAccept | Concurrent_programming/asio/fork/forkHandler.cpp:50-99 | in place: the specified parent and, if the fork worked, a separate child object in the specified state |
| ForkServer.Server.OnRead | Concurrent_programming/asio/fork/forkHandler.cpp:104-112 | in place: the specified echo chain after a read |
| ForkServer.Server.OnWrite | Concurrent_programming/asio/fork/forkHandler.cpp:114-122 | in place: the specified echo chain after a write |
| MemorySpec.LiveBlocksAreSafe | Concurrent_programming/asio/allocation_async/server.cpp:25-48 | after any trace that frees only live blocks once, live blocks of all memories do not overlap and are as large as requested |
| MemorySpec.InUseMeansLive | Concurrent_programming/asio/allocation_async/server.cpp:27-43 | the in-use flag holds exactly when the in-object storage is live |
| MemorySpec.StorageIsReused | Concurrent_programming/asio/allocation_async/server.cpp:25-43 | after any trace a request gets the storage exactly when the storage is not live and is larger than the request |
| MemorySpec.FreeReleases | Concurrent_programming/asio/allocation_async/server.cpp:38-48 | after any trace a live block can be freed: it is not live any more, and the storage is free or the heap block has been deleted |
| MemorySpec.HeapBlocksDeletedOnce | Concurrent_programming/asio/allocation_async/server.cpp:34-47 | blocks obtained from operator new are those still live on the heap plus those deleted, counted; the storage is never deleted |
| MemorySpec.FreeThroughAnyEqual | Concurrent_programming/asio/allocation_async/server.cpp:70-95 | freeing through an equal or a rebound allocator is the same free |
| MemorySpec.Rebind | Concurrent_programming/asio/allocation_async/server.cpp:70-90 | a converted allocator is equal to the one it was made from and asks for n times the new element size |
| MemorySpec.RoomForElements | Concurrent_programming/asio/allocation_async/server.cpp:87-90 | the block has room for n elements if and only if the multiplication does not wrap |
| MemorySpec.WrappedRequestIsTooSmall | Concurrent_programming/asio/allocation_async/server.cpp:87-90 | a concrete request that wraps and gets a block that is too small |
| EchoMemory.HeapUse | Concurrent_programming/asio/allocation_async/server.cpp:157-183 | the live handler blocks are those of the outstanding operations, so there is at most one, of the size last asked for; the sizes asked are those of the operations started, and the heap is used exactly for those of 1024 bytes or more |
| EchoMemory.SessionEchoes | Concurrent_programming/asio/allocation_async/server.cpp:157-183 | the session with its memory is, seen from the connection, a run of the echo chain alone, and echoes what its reads bring in |
| EchoMemory.SessionGoesOn | Concurrent_programming/asio/allocation_async/server.cpp:157-183 | in every run whatever can happen next on the connection can happen in the session, with a handler of any size |
| HandlerMemory.Memory.Allocate | Concurrent_programming/asio/allocation_async/server.cpp:25-36 | in place: the storage if free and larger than the request, else a new heap block apart from everything |
| HandlerMemory.Memory.Deallocate | Concurrent_programming/asio/allocation_async/server.cpp:38-48 | in place: the storage is marked free, or the heap block is deleted |
| HandlerMemory.HandlerAllocator.Rebound | Concurrent_programming/asio/allocation_async/server.cpp:70-80 | a converted allocator is equal to the one it was made from and has the new element size |
| HandlerMemory.Session.Start | Concurrent_programming/asio/allocation_async/server.cpp:152-155 | in place: the specified start of a session, from which its runs go on |
| HandlerMemory.HandlerAllocator.Allocate | Concurrent_programming/asio/allocation_async/server.cpp:87-90 | passes the wrapped product on to the memory; a new heap block lies apart from the storage and all blocks |
| HandlerMemory.Session.OnRead | Concurrent_programming/asio/allocation_async/server.cpp:157-169 | in place: one step of the specified session, chain and memory: the handler's block is freed first, the next operation gets its own, and no block of others changes |
| HandlerMemory.Session.OnWrite | Concurrent_programming/asio/allocation_async/server.cpp:171-183 | in place: the same for a write |
| StrandSpec.HandlersNeverOverlap | Concurrent_programming/asio/tutorial/syn_multi_thread.cpp:35-36 | for any number of threads and any interleaving no two threads are in a handler |
| StrandSpec.InterleavingIsSequential | Concurrent_programming/asio/tutorial/syn_multi_thread.cpp:46-66 | every interleaving of the accesses has the effect of the finished handlers run one by one |
| StrandSpec.PrintsCountUp | Concurrent_programming/asio/tutorial/syn_multi_thread.cpp:46-66 | at any moment the printed counts are 0, 1, 2 and so on below the limit, each once |
| StrandSpec.EachHandlerPrints | Concurrent_programming/asio/tutorial/syn_multi_thread.cpp:46-66 | the count i is printed by the i-th handler begun, under the name of its timer |
| StrandSpec.DoneIsBegun | Concurrent_programming/asio/tutorial/syn_multi_thread.cpp:35-36 | handlers are completed in the order in which the strand began them |
| StrandSpec.MaximalRun | Concurrent_programming/asio/tutorial/syn_multi_thread.cpp:29-66 | a run that cannot go on has printed all counts below the limit and invoked limit + 2 handlers for two timers |
| StrandSpec.EachHandlerCounts | Concurrent_programming/asio/tutorial/syn_multi_thread.cpp:46-66 | between handlers, increments left plus timers not ended fall by one for each completed handler |
| StrandSpec.StepsDecrease | Concurrent_programming/asio/tutorial/syn_multi_thread.cpp:46-66 | every step that happens decreases a measure |
| StrandSpec.RunsAreFinite | Concurrent_programming/asio/tutorial/syn_multi_thread.cpp:46-66 | no run has more than 7 * limit + 8 * timers steps that happen |
| Printer.Printer.Print1 | Concurrent_programming/asio/tutorial/syn_multi_thread.cpp:46-55 | in place: one sequential firing of the first timer, re-armed exactly when it counted |
| Printer.Printer.Print2 | Concurrent_programming/asio/tutorial/syn_multi_thread.cpp:57-66 | in place: the same for the second timer |
| TrackingSpec.IdsRepeatOnlyOnWrap | Concurrent_programming/asio/Handler Tracking/custom_tracking.hpp:65-67 | two handlers have the same id exactly when a multiple of 2^64 creations lies between them |
| TrackingSpec.IdsRepeat | Concurrent_programming/asio/Handler Tracking/custom_tracking.hpp:65-67 | the concrete run of 2^64 + 1 creations, whose first and last handlers have the same id |
| TrackingSpec.TreeIdIsRoots | Concurrent_programming/asio/Handler Tracking/custom_tracking.hpp:69-73 | each handler carries the tree id that the root of its causal chain had |
| TrackingSpec.CauseIsInnermost | Concurrent_programming/asio/Handler Tracking/custom_tracking.hpp:61-73 | a handler's cause, and the origin of its tree id, is the innermost handler that its own thread was completing when it was created |
| TrackingSpec.StacksAreNesting | Concurrent_programming/asio/Handler Tracking/custom_tracking.hpp:86-128 | a thread's chain of completions is the nesting of its own entries and exits, whatever other threads do |
| TrackingSpec.TreesToldApart | Concurrent_programming/asio/Handler Tracking/custom_tracking.hpp:46-73 | tree ids differ exactly when the roots' preset ids differ |
| TrackingSpec.DefaultTreesCoincide | Concurrent_programming/asio/Handler Tracking/custom_tracking.hpp:46-73 | two unrelated handlers with the default id share their tree id |
| Tracking.ChainAcyclic | Concurrent_programming/asio/Handler Tracking/custom_tracking.hpp:118-128 | a chain of completions that ends visits none twice |
| Tracking.ChainUnique | Concurrent_programming/asio/Handler Tracking/custom_tracking.hpp:118-128 | the chain from the current completion determines the open ones and their order |
| Tracking.Tracker.Creation | Concurrent_programming/asio/Handler Tracking/custom_tracking.hpp:61-77 | in place: one creation of the specified system; the handler gets the next id and the tree id of its thread's innermost completion, if there is one |
| Tracking.Tracker.Enter | Concurrent_programming/asio/Handler Tracking/custom_tracking.hpp:88-93 | in place: the specified entry; the new completion is innermost on its thread and links to the chain before it |
| Tracking.Tracker.Leave | Concurrent_programming/asio/Handler Tracking/custom_tracking.hpp:98-101 | in place: the specified leaving; closing the innermost completion restores the chain before it |

## Left out

- Boost.Asio itself, resolvers, DNS and error codes: an operation transfers bytes in pieces, completes or fails, in any order.
- Message queues hold `data()[0..length())` of each message instead of a copy of all 516 bytes; nothing ever reads the bytes behind.
- The outstanding read of a chat endpoint is one field, since each read is started by the end of the one before; outstanding writes there, and all operations of the echo servers, are sequences, so that at most one is a result.
- Partial transfers inside the composed write of `Echo` are steps of the specification only; the classes see its completion.
- `operator new` that throws, and `fork` in a program with threads.
- Signals that end the parent process, and reuse of process ids: ids stand for process incarnations.
- Liveness that depends on the network or the scheduler: that every typed line does arrive is not claimed, as `close` may cut queued messages off; that it can, as long as nothing has failed, is (`EverythingArrives`).
- Real time in timers: only arming, expiry and re-arming are modelled.
- Argument handling, console messages and `printf` reports: printed text is history only.
- `Concurrent_programming/asio/allocation_async/server.cpp` line 235 destroys its server at once; the session and its memory are modelled, not that `main`.
- Parts of `custom_tracking.hpp` that do not compile as written are modelled by their evident intent; its reporting functions are not modelled.
- The other samples (daytime, multicast, daemon, futures, single timers, smart pointers, accumulators, multi-index, HTTP headers, counted buffers) are thin uses of a library.
