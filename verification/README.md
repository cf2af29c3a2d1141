# A verified model of the ad-hoc network transport and its trace analyser

The repository has two halves. On every node a transport runs: an epoll loop that owns
callbacks and destroys them later (`EpollLoop`), sockets on which messages are read and written
piece by piece (`AsyncFd`), TCP sessions that begin with a hello exchange and have a send queue
each (`ConnectionManager`), and neighbour discovery over UDP hellos and timers
(`BroadcastManager`). The notifications of these objects are logged. The trace analyser merges
the logs of all nodes, replays them into half-link sets and a multigraph and computes when the
topology converged (`combine_logs.py`); the visualizer replays the events the analyser emits
(`visualizer/index.html`).

The project models both halves and the logs between them:

- `Framing`, `Pipe`, `Delivery`: the length-prefixed frames, one direction of a connection with
  its two sockets and its reader, and the send queue with its callers, as steps in any order.
- `Registry`, `EpollLoop`, `Tokens`, `Reclamation`, `Lifetime`: the tables of the epoll loop, the
  object, which tokens it still knows, and the lifetime of callbacks and of the `AsyncFd` objects
  they hold, over all interleavings. `Wiring` puts a session's queue and reader on two such
  registries.
- `AsyncFd`, `ConnectionManager`, `BroadcastManager`: the objects, with methods that change their
  fields and buffers in place and are proved against the step functions of the other modules.
- `Hello`, `Connection`, `Handshake`: the hello message, and a whole connection from its hello exchange on, with
  the send queues and readers of both ends.
- `Sessions`, `Routing`, `SessionNotes`, `Closing`: the three maps of `ConnectionManager` with each
  critical section as one step, whose session a message or a closing reaches when sections run
  between lookup and use, the notifications about sessions, and what a closing that comes early
  breaks.
- `Discovery`: the tables of `BroadcastManager`, with a clock.
- `Graph`, `GraphObject`, `Trace`, `Stats`, `Topology`, `Convergence`: the multigraph and its
  connectivity test, the replay, the loop of `get_experiment_stats`, what vertices, entries,
  connectivity and emitted events are by the trace alone, and the meaning of its two times.
- `Sorting`, `Log`, `Merge`: the stable sort, the merged log and `combine_logs`.
- `Picture`, `Visualizer`: the picture `updateTopology` computes, and the object.
- `WellFormedTraces`, `NodeReports`, `EndToEnd`: what the logs of single nodes must be like for
  the graph and the picture to be right, when the managers produce such logs, and the main result
  from the managers to the picture.

A step is one critical section, one callback run or one stretch of unlocked code. The kernel is a
byte channel in each direction and an interest set. `dafny verify dfyconfig.toml` checks every file.

Some properties one might expect do not hold in every run. For those the project proves the exact
condition, with a concrete run that breaks them:

- a `CloseFD` that overtakes the activation of its session leaves a send queue behind, with which
  the next session on the descriptor never sends, or tells about the closing before the opening
  (`Closing.ClosingSafeIff`, `Closing.ClosingTooEarly`, `Delivery.LeftoverBlocks`);
- a send callback that is still under way when its descriptor is used again makes the next session
  lose a message, and it or a `SendMessageFd` still under way makes `assert(msg_len > 0)` fire
  (`Delivery.NoneLostIff`, `Delivery.AbortsIff`);
- a message for one peer joins the queue of a session with another one, and a `CloseConn` ends one,
  when the descriptor found is used again before it is (`Routing.SentMessageIff`,
  `Routing.MessageReachesOtherPeer`, `Routing.ClosedSessionIff`, `Routing.CloseReachesOtherPeer`);
- the notifications of a connection do not alternate when a session is set up before the closing
  of the one before is told (`SessionNotes.PatientNotesAlternateIff`,
  `SessionNotes.OverlapBreaksAlternation`);
- an `AsyncFd` that replaces under a leftover token makes another one be destroyed under the lock
  (`Lifetime.SafeForeverIff`, `Lifetime.LeftoverTokenDestroysUnderLock`);
- `DeregisterFd` leaves tokens without an action (`Registry.DeregisterFdKeepsOneToOneIff`,
  `Registry.TokenLeftBehind`);
- an `EAGAIN` from `recv` makes a transfer take too many bytes (`Framing.TransferTakesItsSizeIff`,
  `Framing.TransferOvertakes`);
- found and lost do not alternate after a TCP hello or a vanished interface
  (`Discovery.NeighbourEventsAlternateIff`, `Discovery.LostWithoutFound`, `Discovery.LostTwice`), and
  a peer at a taken address breaks the reverse lookup (`Discovery.ReversibleKeptIff`,
  `Discovery.SharedAddress`);
- a session reported twice is counted twice in the graph (`Trace.GraphRefinesTraceIff`,
  `Trace.ReopeningCountsTwice`) and a peer sighted twice is drawn twice
  (`Picture.DiscoveryEntriesIff`, `Picture.SightedTwice`).

The comments in `ip_transport/include/ip_conn_manager.h` speak of pending connections and of a
notification for every failed connection attempt. The code has neither; the model follows the code.

## Model

| member | source | states |
|---|---|---|
| Framing.FramingTheorem | ip_transport/include/async_fd.h:81-126 | However the byte stream of sendable messages is cut into reads, repeated RecvMessage yields a prefix of the messages and has consumed exactly their frames and the begun one; all bytes read means all messages read. |
| Framing.ReaderFollows | ip_transport/include/async_fd.h:89-123 | One callback run on the next bytes of such a stream keeps collecting the first frame or hands over exactly its message, and never reads into the next frame. |
| Framing.FrameLayout | ip_transport/include/async_fd.h:128-174 | On the wire a message is the four bytes of its size, the lowest first and cut to 32 bits, and then all its bytes. |
| Framing.FrameRoundTripIff | ip_transport/include/async_fd.h:128-174 | For every message: the reader aborts exactly when the size cut to 32 bits is zero, and otherwise gives the message back exactly when it is non-empty and below 2^32 bytes. |
| Framing.TransferTakesItsSizeIff | ip_transport/include/async_fd.h:226-249 | For every list of recv results that finishes a transfer, the bytes taken exceed the size by the number of EAGAINs, so they equal it exactly when there was none. |
| Framing.TransferOvertakes | ip_transport/include/async_fd.h:230-243 | A two-byte transfer met by one EAGAIN takes three bytes. |
| Pipe.PendingBytes | ip_transport/include/async_fd.h:81-250 | The reader's partial frame, the bytes in the channel and the unsent bytes are exactly the frames of the messages in transit. |
| Pipe.WriteKeepsInv | ip_transport/include/async_fd.h:145-171 | An OUTPUT callback run, however much send accepts, keeps the account of bytes written and read. |
| Pipe.ReadKeepsInv | ip_transport/include/async_fd.h:92-123 | An INPUT callback run, however much recv returns, keeps that account and the number of readers, and the messages taken only grow. |
| Pipe.ArmKeepsInv | ip_transport/include/async_fd.h:81-126 | A RecvMessage call keeps the account and, being the only reader, does not find the INPUT direction taken. |
| Pipe.QuietDelivered | ip_transport/include/async_fd.h:81-174 | When nothing is being written or in the channel and a fresh reader waits, every message started has been delivered. |
| Delivery.DeliveryTheorem | ip_transport/src/ip_conn_manager.cpp:355-512 | From the setting up of a session on, in every interleaving of callers, sends and receives: delivered, in transit and waiting messages are together exactly those carried before and those accepted, in order, and the bytes under way are the frames of those in transit. |
| Delivery.SingleWriter | ip_transport/src/ip_conn_manager.cpp:355-478 | No run finds the OUTPUT direction taken or an empty queue, or hands on a message that was moved out before; while nobody is about to kick or pop, an OUTPUT action is registered exactly when the queue is not empty. |
| Delivery.SingleReader | ip_transport/src/ip_conn_manager.cpp:480-512 | No run finds the INPUT direction taken, and an INPUT action is registered except while one callback is between its Deregister and the registration of the next ReadMessage. |
| Wiring.NeverRefused | ip_transport/src/ip_conn_manager.cpp:355-512 | The same with EpollLoop's own RegisterAction, ReplaceAction and DeregisterAction on both nodes, among calls of others that may do anything with other descriptors and do not register this direction, go by a token naming this action, or DeregisterFd or close this descriptor: no registration of the session is refused, OUTPUT is registered exactly while a message is being sent and INPUT exactly while no callback is between two reads. |
| Delivery.StuckOnlyWhenDelivered | ip_transport/src/ip_conn_manager.cpp:355-512 | A link that satisfies the invariant, has its reader and can only accept new messages has delivered all accepted ones. |
| Delivery.StepDoesWork | ip_transport/src/ip_conn_manager.cpp:355-512 | Every step other than a new message makes the work left strictly smaller. |
| Delivery.Drains | ip_transport/src/ip_conn_manager.cpp:355-512 | A run without new messages is no longer than the work left, and one that cannot go on has delivered every accepted message. |
| Delivery.NoneLostIff | ip_transport/src/ip_conn_manager.cpp:355-478 | From the setting up of a session with an empty queue: in every run each accepted message is started or waits, in order, exactly when no send callback of the last session on the descriptor is still under way; a SendMessageFd still under way loses nothing. |
| Delivery.AbortsIff | ip_transport/src/ip_conn_manager.cpp:410-430 | From there, some run hands on a message that was moved out before, where assert(msg_len > 0) fires, exactly when a SendMessageFd or a send callback of the last session is still under way. |
| Delivery.LeftoverBlocks | ip_transport/src/ip_conn_manager.cpp:457-478 | A session whose queue was not empty at its beginning never sends a message, whatever is accepted. |
| Registry.RegistryMatchesKernel | ip_transport/src/epoll_loop.cpp:138-292 | After every run of calls: every action has a token below nextToken_; and for every descriptor that is not closed in the run while an action on it is registered, the kernel's mask is the set of directions with a callback and the next epoll_ctl is legal, so a registration is refused only for a taken direction or a closed descriptor. |
| Registry.AgreementKeptIff | ip_transport/src/epoll_loop.cpp:138-292 | For every run of calls and every descriptor: tables and kernel agree about it after each call exactly when it is never closed while an action on it is registered. |
| Registry.CloseKeepsInvIff | ip_transport/src/ip_conn_manager.cpp:514-519 | Closing a descriptor keeps the agreement exactly when no action on it is registered, which a sender registering between DeregisterFd and close prevents. |
| Registry.TokensNeverReissued | ip_transport/src/epoll_loop.cpp:174-179 | The tokens issued in a run are strictly increasing. |
| Registry.RegisterKeepsInv | ip_transport/src/epoll_loop.cpp:138-181 | RegisterAction keeps tables and kernel in agreement and succeeds exactly for a free direction of an open descriptor. |
| Registry.ReplaceKeepsInv | ip_transport/src/epoll_loop.cpp:183-210 | ReplaceAction keeps the agreement and succeeds exactly for the token of a live action. |
| Registry.DeregisterActionKeepsInv | ip_transport/src/epoll_loop.cpp:219-261 | DeregisterAction keeps the agreement and succeeds exactly for the token of a live action. |
| Registry.DeregisterFdKeepsInv | ip_transport/src/epoll_loop.cpp:263-292 | DeregisterFd keeps the agreement. |
| Registry.OneToOneKept | ip_transport/src/epoll_loop.cpp:138-261 | Every call other than DeregisterFd keeps tokens and live actions in one-to-one correspondence. |
| Registry.DeregisterFdKeepsOneToOneIff | ip_transport/src/epoll_loop.cpp:263-292 | DeregisterFd keeps the one-to-one correspondence exactly when the descriptor has no action. |
| Registry.TokenLeftBehind | ip_transport/src/epoll_loop.cpp:263-292 | One registered action, deregistered by its descriptor, leaves a token without an action. |
| Registry.TokenForgotten | ip_transport/src/epoll_loop.cpp:219-261 | After DeregisterAction, whatever it returns, its token is not known any more, every other token keeps what it names, and of the actions exactly the one it named is gone. |
| Registry.DeregisterFdDrops | ip_transport/src/epoll_loop.cpp:263-292 | After DeregisterFd exactly the actions of the descriptor are gone, the others are as they were, and all tokens stay. |
| Tokens.TokensAccounted | ip_transport/src/epoll_loop.cpp:138-292 | After every run of calls: the tokens known are those issued and not deregistered by since; each names its direction; every action has exactly one live token; one is left over exactly when DeregisterFd of its descriptor, or a DeregisterAction by another token of its direction, removed its action; tokens and actions correspond one to one exactly when none is left over. |
| Tokens.ReleasesRestore | ip_transport/src/epoll_loop.cpp:219-261 | When the owners of all tokens left over deregister by them and their directions are free, tokens and actions correspond one to one again, and no action is lost. |
| Reclamation.ReclamationTheorem | ip_transport/src/epoll_loop.cpp:61-118 | For all calls in every interleaving: a created callback is in exactly one of live, queued, being destroyed, destroyed; the one running unlocked is owned by the tables and not destroyed; a non-empty queue has a wake-up pending or a drain under way. |
| Reclamation.DestroyedInOrder | ip_transport/src/epoll_loop.cpp:100-118 | In every run the callbacks taken off the queue, followed by those still in it, are those that were in it and those replaced or deregistered since, in that order. |
| Reclamation.RunningCallbackSurvives | ip_transport/src/epoll_loop.cpp:61-79 | Until the running callback returns, whatever other threads or the callback itself register, replace, deregister or close, it stays owned and nothing is destroyed. |
| Lifetime.RegisterHoldsIff | ip_transport/src/epoll_loop.cpp:138-181 | While every keeper's callback holds the object of its keepLink: RegisterAction keeps that so exactly when a successful registration with a keepLink passes a callback that holds the same object. |
| Lifetime.ReplaceHoldsIff | ip_transport/src/epoll_loop.cpp:183-210 | The same for ReplaceAction: exactly when a successful replacement passes a callback that holds the keepLink of the action its token names, if that has one. |
| Lifetime.NoDestructorUnderLock | ip_transport/src/epoll_loop.cpp:138-292 | In every run whose registrations and replacements pass such callbacks, whatever tokens are left over, no section under globalLock_ drops the last reference to an AsyncFd. |
| Lifetime.OwnersNotDestroyedUnderLock | ip_transport/include/async_fd.h:251-275 | In every run in which AsyncFds register themselves and replace only under tokens issued to them, and no direction is registered while a leftover token names it, all calls pass such callbacks and no AsyncFd is destroyed under globalLock_. |
| Lifetime.SafeForeverIff | ip_transport/src/epoll_loop.cpp:138-292 | For every reachable state, whatever was called before: no section under globalLock_ drops a last reference in any continuation whose calls pass such callbacks exactly when every keeper's callback holds its keepLink; otherwise deregistering, draining and dropping references lead to such a section. |
| Lifetime.LeftoverTokenDestroysUnderLock | ip_transport/src/epoll_loop.cpp:183-210 | A run in which the descriptor is closed and used again while an AsyncFd's callback runs, the callback replaces under its leftover token, and DeregisterFd then destroys the other AsyncFd under globalLock_. |
| EpollLoop.EpollLoop.constructor | ip_transport/src/epoll_loop.cpp:28-59 | The loop starts with empty tables that agree with the kernel. |
| EpollLoop.EpollLoop.RegisterAction | ip_transport/src/epoll_loop.cpp:138-181 | The new state, result and token are those of Registry.Register: on success the new callback is in place under the next token, with the given object and keepLink, and otherwise tables and tokens stay; the agreement is kept. |
| EpollLoop.EpollLoop.ReplaceAction | ip_transport/src/epoll_loop.cpp:183-210 | Succeeds exactly for the token of a live action; then the old callback is at the end of the queue and the new one in its place under the same keepLink; the agreement is kept. |
| EpollLoop.EpollLoop.DeregisterAction | ip_transport/src/epoll_loop.cpp:219-261 | Whatever it returns, the token is not in cancelMap afterwards and all others keep what they name; exactly the action it named is gone, with its callback at the end of the queue; the agreement is kept. |
| EpollLoop.EpollLoop.DeregisterFd | ip_transport/src/epoll_loop.cpp:263-292 | Exactly the actions of the descriptor are gone, with their callbacks at the end of the queue, INPUT first; tokens stay; the agreement is kept. |
| EpollLoop.EpollLoop.UtilizeCallback | ip_transport/src/epoll_loop.cpp:212-217 | The callback goes to the end of the queue and the wake-up counter grows by one. |
| EpollLoop.EpollLoop.Drain | ip_transport/src/epoll_loop.cpp:100-118 | Undisturbed, the drain destroys all queued callbacks, oldest first, consumes the wake-up and changes nothing else. |
| AsyncFd.AsyncFd.RecvMessage | ip_transport/include/async_fd.h:81-126 | Refuses while an operation is registered; otherwise registers a reader at the start of a frame, or resolves with an error when registration fails. |
| AsyncFd.AsyncFd.SendMessage | ip_transport/include/async_fd.h:128-174 | Refuses while an operation is registered; aborts for a message whose size is zero in 32 bits; otherwise registers the writer of the message's frame with nothing sent, or resolves with an error. |
| AsyncFd.AsyncFd.OnReadable | ip_transport/include/async_fd.h:92-119 | A callback run takes exactly what recv returned, moves the reader as Framing.OnBytes does, replaces the callback between length and body, deregisters before it resolves, and resolves with the message or an error; EAGAIN adds one to left_size and does nothing else. |
| AsyncFd.AsyncFd.OnWritable | ip_transport/include/async_fd.h:146-171 | A callback run puts exactly the next bytes of the message's frame on the socket, replaces the callback between length and body and deregisters before it resolves. |
| AsyncFd.AsyncFd.Release | ip_transport/include/async_fd.h:181-190 | Gives the descriptor back, deregistered, and forgets it. |
| Hello.SerializeRoundTripIff | ip_transport/include/ip_utils.h:67-105 | The message is the identifier, the id and the type byte, in that order; Deserialize(Serialize(h)) is h exactly when h carries the identifier, and is refused otherwise. |
| Hello.DeserializedIsSerialized | ip_transport/include/ip_utils.h:86-104 | Whatever Deserialize accepts is the serialisation of its result, with the identifier. |
| Hello.StringsEqualIff | ip_transport/include/ip_utils.h:73-76 | strcmp against a string whose only NUL is its last byte decides equality of the whole arrays. |
| Handshake.HandshakeAgreement | ip_transport/src/ip_conn_manager.cpp:83-257 | In every run of two correct nodes: a linked initiator reached its target, whose end received this initiator's notify first, sent all of its answer, and joined with the initiator's id (or is in the callback that joins, or was dropped since). |
| Handshake.HelloThenApplication | ip_transport/src/ip_conn_manager.cpp:83-512 | From SendMessage at one node to OnMessageReceived at the other, in every run: each direction carries one hello frame and then the accepted messages; delivered, in transit and queued ones are together exactly these, in order; the application is handed a prefix of what the other's SendMessage accepted; no direction is found taken; the acceptor never takes its peer for anyone else. |
| Handshake.ReadNotify | ip_transport/src/ip_conn_manager.cpp:97-122 | A peer is accepted exactly when its address is known and the message is its notify hello. |
| Handshake.ReadAnswer | ip_transport/src/ip_conn_manager.cpp:211-230 | The session is set up exactly when the message is the target's answer hello. |
| Sessions.SessionMapsAgree | ip_transport/src/ip_conn_manager.cpp:150-167 | In every interleaving, also with descriptor numbers used again: connToFd names only sessions of that very connection, active or about to be erased, throughout the run exactly when no connection is inserted after the CloseFD of its session erased it; the queues all belong to sessions in progress throughout exactly when none is added after the CloseFD of its session dropped it, for both of which it suffices that CloseFD finds no session too early; then, between operations, connToFd names active sessions only and the queues are those of the active sessions. |
| Routing.SentMessageIff | ip_transport/src/ip_conn_manager.cpp:432-478 | In every interleaving: what SendMessage found in connToFd is used after the mutex was released; without a queue on that descriptor the message is dropped, otherwise it goes to the end of the queue, which a session uses or which was left behind; the session that uses it is with the peer exactly when the last activation on the descriptor since the lookup was, or none ran and the session looked up was, as it is when connections are inserted in time. |
| Routing.MessageReachesOtherPeer | ip_transport/src/ip_conn_manager.cpp:432-478 | A run in which the descriptor is used again between the two sections: the message for peer 1 is in the queue of the session with peer 2, and no connection with peer 1 is left. |
| Routing.ClosedSessionIff | ip_transport/src/ip_conn_manager.cpp:318-353 | In every interleaving: CloseConn's CloseFD ends the session its descriptor has by then, if any; it is the session looked up exactly when no activation ran on the descriptor since, and one of that connection exactly when the last activation was, or none ran and the session looked up was. |
| Routing.CloseReachesOtherPeer | ip_transport/src/ip_conn_manager.cpp:318-353 | A run in which CloseConn for peer 1 ends the session with peer 2. |
| Closing.ClosingSafeIff | ip_transport/src/ip_conn_manager.cpp:318-353 | For every reachable state and active session, over all continuations of CloseFD: the notifications keep their order exactly when the session is announced; no queue is left exactly when the queue was added; the next session on the descriptor begins with an empty queue exactly when it was, or the session is past connToFd and no SendMessage has found the descriptor or can still find it before its connection is erased; no connection is left naming the descriptor exactly when the session's was inserted and no other names it. |
| Closing.ClosingTooEarly | ip_transport/src/ip_conn_manager.cpp:318-353 | A run in which CloseConn overtakes an activation: the queue stays and the closing is told first. |
| Closing.GentleRunsStartEmpty | ip_transport/src/ip_conn_manager.cpp:162-167 | In every interleaving in which CloseFD finds only sessions with a queue, every session begins with an empty queue, and queues and active sessions have the same descriptors between operations. |
| Closing.PatientRunsOrdered | ip_transport/src/ip_conn_manager.cpp:514-546 | In every interleaving in which sessions are closed only once announced, every closing is told after its own opening. |
| SessionNotes.NotificationsConserved | ip_transport/src/ip_conn_manager.cpp:514-546 | In every interleaving, between operations: opened minus closed notifications of a connection is the number of its active descriptors. |
| SessionNotes.NotesAlternateIff | ip_transport/src/ip_conn_manager.cpp:231-252 | In every interleaving the notifications of every connection alternate exactly when each opening is told with as many sessions announced open as closed too early, and each closing with one more. |
| SessionNotes.PatientNotesAlternateIff | ip_transport/src/ip_conn_manager.cpp:514-546 | Where sessions are closed only once announced, they alternate exactly when every opening is announced while no other session of the connection is announced and not yet told closed. |
| SessionNotes.OverlapBreaksAlternation | ip_transport/src/ip_conn_manager.cpp:521-543 | A run in which sessions are closed only once announced and never set up beside an active one, and yet two openings are told in a row and an active session has no entry in connToFd. |
| Sessions.ActivateKeeps | ip_transport/src/ip_conn_manager.cpp:150-167 | A whole activation keeps connToFd naming active sessions and the queues matching them, and then begins with an empty queue. |
| Sessions.ActivateInserts | ip_transport/src/ip_conn_manager.cpp:150-167 | Each of the three inserts of an activation adds its entry and keeps the one there is. |
| Sessions.CloseFDKeeps | ip_transport/src/ip_conn_manager.cpp:514-546 | A whole CloseFD keeps both, ends the session, and does nothing when repeated. |
| Sessions.CloseConnExactly | ip_transport/src/ip_conn_manager.cpp:318-353 | When nothing runs between its sections and connToFd names active sessions: connToFd loses exactly the asked connections of the peer, activeConns and the queues exactly their descriptors, all other entries stay, and one Closed is told for each of these, INCOMING first; after ALL no message is routed to the peer. |
| Sessions.SectionsMakeOperations | ip_transport/src/ip_conn_manager.cpp:150-171 | The sections of an activation, undisturbed, make the whole operation. |
| Sessions.SectionsMakeCloseFD | ip_transport/src/ip_conn_manager.cpp:480-546 | The sections of a CloseFD that the reader of a session goes on to, undisturbed, make the whole operation. |
| ConnectionManager.ConnectionManager.Established | ip_transport/src/ip_conn_manager.cpp:150-169 | The three maps gain the entries of the session where they have none, existing entries stay, and one Opened is told, as Sessions.Activate says; both map properties are kept. |
| ConnectionManager.ConnectionManager.CloseFD | ip_transport/src/ip_conn_manager.cpp:514-546 | Deregisters and closes the descriptor in the loop and the kernel; an active session leaves activeConns, connToFd and sendQueues with one Closed told, and without one the maps stay; connToFd keeps naming active sessions. |
| ConnectionManager.ConnectionManager.CloseConn | ip_transport/src/ip_conn_manager.cpp:318-353 | While connToFd names active sessions: connToFd loses exactly the asked connections of the peer; activeConns, the queues, the open descriptors and the registered actions lose exactly those of their descriptors; one Closed is told for each, INCOMING first; the agreement of loop and kernel is kept. |
| ConnectionManager.ConnectionManager.FindRoute | ip_transport/src/ip_conn_manager.cpp:432-455 | The descriptor is that of the outgoing session with the peer, otherwise of the incoming one; while connToFd names active sessions it is one of that peer. |
| ConnectionManager.ConnectionManager.Enqueue | ip_transport/src/ip_conn_manager.cpp:457-478 | For any descriptor: the message goes to the end of its queue and the caller goes on to send exactly when Delivery's accepting step kicks; without a queue nothing changes. |
| ConnectionManager.ConnectionManager.SendMessage | ip_transport/src/ip_conn_manager.cpp:432-478 | With nothing between its sections: the message joins the queue of an active session of the peer, SendMessageFd follows exactly when the queue was empty, and nothing changes when there is no session. |
| ConnectionManager.ConnectionManager.SendMessageFd | ip_transport/src/ip_conn_manager.cpp:410-430 | Moves the front message out, leaving an empty one in its place, as Delivery's kicking step does, and registers the writer of its frame with a new AsyncFd, or reports that the registration was refused; a front moved out before makes the assertion fire, as in Delivery. |
| ConnectionManager.ConnectionManager.OnSent | ip_transport/src/ip_conn_manager.cpp:360-408 | Pops the front and goes on exactly when the queue is not empty, as Delivery's finishing step does; does nothing for a closed session. |
| ConnectionManager.ConnectionManager.OnRead | ip_transport/src/ip_conn_manager.cpp:480-512 | Passes the message on under the session's peer and reads again, closes the session on an error, and does nothing for a closed session. |
| Discovery.DiscoveryTablesAgree | ip_transport/src/ip_broadcast.cpp:208-311 | In every reachable state timers and tracked peers name each other, GetAddress is defined exactly for tracked peers, GetPeer(a) = p implies GetAddress(p) = a, and the node itself is never tracked. |
| Discovery.HelloEffect | ip_transport/src/ip_broadcast.cpp:208-256 | A hello starts tracking exactly when it comes from another peer that is not tracked and its timer is there: then the peer has its address, timer and interface, the address finds the peer, its notification is told if asked for, and nobody else is touched. |
| Discovery.PeerLostEffect | ip_transport/src/ip_broadcast.cpp:258-283 | A timer event of a tracked peer removes its address, its timer and what its address finds, tells exactly one loss, and touches nobody else. |
| Discovery.ReversibleKeptIff | ip_transport/src/ip_broadcast.cpp:241-249 | A hello keeps GetPeer(GetAddress(p)) = p for all tracked peers exactly when it does not start tracking a peer at an address that is taken. |
| Discovery.SharedAddress | ip_transport/src/ip_broadcast.cpp:241-249 | Two peers heard from one address: the reverse lookup of the first finds the second, and nobody once the first is lost. |
| Discovery.PeerLostKeepsReversible | ip_transport/src/ip_broadcast.cpp:258-283 | Losing a peer keeps that property for all others. |
| Discovery.InterfacePeerIsLast | ip_transport/src/ip_broadcast.cpp:184-283 | In every reachable state the peer of an interface is the last one that started being tracked on it since the interface last vanished, even if that peer was lost since. |
| Discovery.NeighbourEventsAlternateIff | ip_transport/src/ip_broadcast.cpp:184-283 | Throughout a run found and lost alternate per peer, and the tracked peers are those last found, exactly when no hello without notification starts tracking and no interface with a neighbour vanishes. |
| Discovery.FoundLostAlternateIff | ip_transport/src/ip_broadcast.cpp:184-283 | For every run: found notifications never break the alternation, so that it holds for all peers exactly when every peer a timer or a vanished interface reports lost was last reported found, by a hello with notification. |
| Discovery.LostWithoutFound | ip_transport/src/ip_broadcast.cpp:252-254 | A peer heard of by its TCP hello only is reported lost without having been found. |
| Discovery.LostTwice | ip_transport/src/ip_broadcast.cpp:191-196 | A peer whose interface vanishes and whose timer then expires is reported lost twice. |
| Discovery.LostOnlyAfterSilenceIff | ip_transport/src/ip_broadcast.cpp:208-283 | For every run: each peer a timer reports lost sent no hello in the LOST_PEER_DELAY seconds before that, exactly when timer events are handled only while their timer is expired. |
| BroadcastManager.BroadcastManager.ProcessHello | ip_transport/src/ip_broadcast.cpp:208-256 | What a hello changes: a tracked peer keeps its timer, which is set again; a new one gets address, reverse lookup, interface and notification, and its timer is registered with the token stored for it. Every timer in the tables stays registered under its stored token. |
| BroadcastManager.BroadcastManager.ProcessPeerLost | ip_transport/src/ip_broadcast.cpp:258-283 | The peer is removed with one notification; exactly the action of its timer is deregistered and all others stay; every timer left in the tables stays registered under its stored token. |
| BroadcastManager.HelloKeepsTimers | ip_transport/src/ip_broadcast.cpp:236-249 | A hello keeps the invariant of manager and loop that the token stored for each timer is known, names its INPUT direction, and that direction is registered. |
| BroadcastManager.PeerLostKeepsTimers | ip_transport/src/ip_broadcast.cpp:258-283 | The loss of a peer keeps that invariant, and deregisters exactly the INPUT action of its timer. |
| BroadcastManager.BroadcastManager.ProcessNetworkUpdate | ip_transport/src/ip_broadcast.cpp:184-206 | Removes exactly the interfaces that are gone, with one lost notification and one CloseSession for the peer of each, and sends the node's hello to every broadcast address. |
| BroadcastManager.BroadcastManager.GetAddress | ip_transport/src/ip_broadcast.cpp:291-300 | Defined exactly for tracked peers, in every state in which the tables agree. |
| BroadcastManager.BroadcastManager.GetPeer | ip_transport/src/ip_broadcast.cpp:302-311 | A peer found has that address, in every state in which the tables agree; where the reverse lookup is exact, the peers with that address are exactly the one found. |
| BroadcastManager.AllGoneEffect | ip_transport/src/ip_broadcast.cpp:190-201 | Notifying about all vanished interfaces and erasing them afterwards is handling them one by one. |
| Graph.AddEdgeMult | emulator/combine_logs.py:144-148 | add_edge adds one entry in each direction and changes no other multiplicity. |
| Graph.EraseEdgeMult | emulator/combine_logs.py:150-154 | erase_edge succeeds exactly when both entries are there and removes exactly one of each. |
| Graph.SearchDecides | emulator/combine_logs.py:156-171 | A closed set of reached vertices is everything reachable, and has the size of the graph exactly when the graph is connected. |
| GraphObject.Graph.IsConnected | emulator/combine_logs.py:156-171 | True exactly when every vertex is reachable from every other; ends despite repeated stack entries. |
| GraphObject.Graph.AddEdge | emulator/combine_logs.py:144-148 | The graph becomes Graph.AddEdge of the old one and stays symmetric. |
| GraphObject.Graph.EraseEdge | emulator/combine_logs.py:150-154 | The graph and the ValueError are those of Graph.EraseEdge; symmetry is kept. |
| Trace.ReplaySucceedsIff | emulator/combine_logs.py:195-240 | The replay ends without an exception exactly when every lost or close event takes back something reported; list.remove never fails. |
| Trace.ReplayFollowsTrace | emulator/combine_logs.py:195-240 | incoming, outgoing and visible hold exactly what the trace last reported. |
| Trace.GraphRefinesTraceIff | emulator/combine_logs.py:195-240 | The multiplicity of v in the list of u is the number of directions of their link that are up, for all u and v, exactly when no event reopened an up link; the lists are always symmetric. |
| Trace.NeighboursHaveLinks | emulator/combine_logs.py:144-154 | Where nothing is reopened, u and v are neighbours exactly when a link between them is up. |
| Topology.VerticesAre | emulator/combine_logs.py:180-234 | After every replay each numbered node is a vertex, also an isolated one, and the only others are ends of links that events added or removed. |
| Topology.EntriesCounted | emulator/combine_logs.py:144-154 | The list of u has v once for each direction of their link that is up, and once more for each time an up link was reopened. |
| Topology.ConnectedIff | emulator/combine_logs.py:156-171 | After a trace that names only numbered nodes the vertices are exactly these, and the graph is connected exactly when every two of them are joined by a chain of nodes with a link up between neighbours in one direction or the other (or an entry left of a reopened one). |
| Topology.EmissionFollowsTrace | emulator/combine_logs.py:204-238 | What is emitted, by the trace alone: a link event from the initiator when the other end has the session reported open, a discovery event from the peer when the sighting is, or was, mutual. |
| Trace.ReopeningCountsTwice | emulator/combine_logs.py:214-224 | Three events after which the graph counts a link that is not there. |
| Convergence.ConvergenceTimes | emulator/combine_logs.py:188-253 | For the connectivity of Topology: no sync_time for a topology that ends up disconnected, otherwise the time of the last event; conn_time is that of the event after which every two nodes stayed joined by chains of links, and none if they always were or do not end up so. |
| Convergence.ReportedIff | emulator/combine_logs.py:280-284 | The report gives times exactly when the graph was connected for good by an event at a time other than zero. |
| Stats.Experiment.Handle | emulator/combine_logs.py:204-238 | One event changes graph, sets and emitted events as Trace.Step does, or raises as it does. |
| Stats.GetExperimentStats | emulator/combine_logs.py:176-253 | For every numbering and log: returns without an exception exactly when all addresses resolve and every lost or close event takes back something reported; then the events are those of Topology.Emission and the two times mean what Convergence says, by chains of links between the numbered nodes. |
| Sorting.SortSorts | emulator/combine_logs.py:132 | The result is sorted and has the same elements. |
| Sorting.SortFilter | emulator/combine_logs.py:132 | Stability: selecting from the sorted list is sorting the selection. |
| Sorting.SortOfSorted | visualizer/index.html:125 | A sorted list is left as it is. |
| Merge.CombineLogs | emulator/combine_logs.py:16-134 | For every list of logs: the numbering gives each address that of the last started log with it; the merged log is in the order of times and holds, as often as there are such lines, each line of a started log before the duration with its own kind and peer, its log's address, and its time counted from the earliest start; nothing when no log started. |
| Merge.CombinedIsMerge | emulator/combine_logs.py:65-134 | The same of the function the loops compute, on the lines themselves and with their number. |
| Merge.TimeStartIsEarliest | emulator/combine_logs.py:38-63 | The common start is the start of some log and no log starts before it; there is none exactly when no log started. |
| Merge.NumbersNumber | emulator/combine_logs.py:79-84 | The numbered addresses are those of the logs that started, each with the number of the last such log. |
| Merge.MergeKeepsNodeLogs | emulator/combine_logs.py:65-134 | What the merged log has from a node are the events of the first lines of its log, in their order, with time, kind and peer of the line, up to the first line at or after the duration. |
| Picture.ActiveEdgesAreUpLinks | visualizer/index.html:176-202 | After the events emitted for any replayable trace, the edges drawn are exactly the links up. |
| Picture.DiscoveryEntriesIff | visualizer/index.html:189-201 | Each unordered pair that sees each other has exactly one entry and others none, exactly when no peer was sighted again while both saw each other and no node lost itself. |
| Picture.EntriesAreMeetings | visualizer/index.html:189-201 | Whatever the events, the discovery entries are those of meetings among them, with the same ends, in the order of the meetings. |
| Picture.SightedTwice | visualizer/index.html:189-201 | Three sightings after which a pair is drawn twice. |
| Picture.EmittedPrefix | emulator/combine_logs.py:204-238 | Every prefix of the emitted events is what some prefix of the trace emits. |
| Picture.ScrubShowsState | visualizer/index.html:181-182 | Scrubbing a time-sorted trace to a time replays exactly what its events up to that time emitted. |
| Visualizer.Visualizer.ParseInput | visualizer/index.html:85-126 | The events end up sorted, the same ones, and untouched if they were sorted. |
| Visualizer.Visualizer.UpdateTopology | visualizer/index.html:176-202 | The edges and discovery entries are those of replaying the events up to the time. |
| WellFormedTraces.WellFormedSuffices | emulator/combine_logs.py:195-240 | A well-formed trace satisfies the conditions of the replay, graph and picture theorems. |
| WellFormedTraces.WellFormedByNode | emulator/combine_logs.py:195-240 | A trace is well-formed when its restriction to each node is. |
| NodeReports.NodeLogWellFormedIff | ip_transport/src/ip_conn_manager.cpp:150-171 | Over all runs of discovery and all interleavings of the sections of activations and closings: a node's log, however the notifications of its two managers alternate, is well-formed exactly when only peers tracked since a hello with notification and not reported lost since are reported lost, the announcements about sessions are orderly, and none is with the node itself. |
| NodeReports.PoliteNodeLogWellFormed | ip_transport/src/ip_broadcast.cpp:184-283 | A node that hears of peers by broadcast only, keeps its interfaces, and announces sessions only when no other one of the connection is announced and not told closed leaves a well-formed log. |
| NodeReports.OverlapLeavesIllFormedLog | ip_transport/src/ip_conn_manager.cpp:521-543 | The overlapping run leaves an ill-formed log. |
| EndToEnd.MergedWellFormed | emulator/combine_logs.py:65-134 | If every node's log is time-monotone and well-formed, so is the merged log, for every duration. |
| EndToEnd.MergedCut | emulator/combine_logs.py:124-132 | The merged log up to a time is the merged log for a shorter duration. |
| EndToEnd.GoodLogsComplete | emulator/combine_logs.py:176-253 | Logs that are well-formed one by one are analysed without an exception. |
| EndToEnd.GraphShowsLogs | emulator/combine_logs.py:144-154 | The final graph counts exactly the sessions that both ends' own logs report open. |
| EndToEnd.ScreenShowsLogs | visualizer/index.html:176-202 | Scrubbed to any time, the picture has an edge exactly for each session both ends' own logs so far have open, and one entry exactly for each pair that see each other by their own logs so far. |
| EndToEnd.BehavedNodesAreShown | visualizer/index.html:176-202 | From the managers to the screen: if every file has, in time order, a line for each report of a run of a node whose discovery is by broadcast and whose sessions, over all interleavings of their sections, are single, the files are analysed without an exception, and at every time there is an edge exactly where the managers of both ends last told that they opened their side of the session, and one entry exactly for each pair whose managers last told that they found each other. |

## Left out

- Sockets, timers, netlink, `epoll_wait`, `accept` and `connect`: their outcomes are steps or parameters. `MSG_OOB` bytes with `SO_OOBINLINE` are ordinary bytes of the stream.
- The length field is taken to be little-endian, as on the hosts the program is built for.
- Delivery.DeliveryTheorem: covers a descriptor until its first socket error or its closing, because afterwards a failed message is dropped like a sent one and the next is started.
- AsyncFd.AsyncFd.OnReadable: after an EAGAIN before the first byte the object is not `Valid()`, because the next recv would write in front of its buffer.
- Handshake.HandshakeAgreement: is about nodes that run this code, because a foreign peer may send any bytes; what those come to is in Handshake.ReadNotify and Handshake.ReadAnswer.
- Sessions.SessionMapsAgree: a descriptor number is used again only once the activation and the `CloseFD` of the last session on it have finished, because the code erases the session after `close` and a number taken again in between would have the new session erased. The same goes for Routing, SessionNotes and Closing.
- The thread a `CloseFD` was called on: activations run one at a time, as on the one epoll thread, and no other session's read callback looks its session up beside them, but the sections of a `CloseFD` interleave with everything.
- `_connMutex`, with which `IpTransport` lets one of OpenSession, SendMessage and CloseSession run at a time: any number of callers is modelled, as `ConnectionManager`'s own mutexes allow.
- Shutdown of the epoll loop.
- EPOLLHUP and EPOLLERR are not in the modelled interest masks; their dispatch is a run of the INPUT and the OUTPUT callback.
- `EstablishConnection`: its error notifications, and its going on after a failed connect.
- BroadcastManager.BroadcastManager.ProcessNetworkUpdate: the order of the interfaces is arbitrary, and a broadcast that fails is only logged.
- ProcessHello's two sections are not interleaved with others: all of discovery runs on the epoll thread.
- The interface of an address that belongs to no interface (a null name).
- Peers are numbers in the log: MAC addresses and numbers correspond one to one (EndToEnd.NumbersInjective).
- Reading logs with regular expressions, dates, printing of times and the text of `graph.txt`: the model starts from typed lines, with times and the duration as integers of one unit.
- The order of Python dictionaries: the start vertex of `is_connected` is arbitrary.
- The sorts of Python and JavaScript are modelled as a stable insertion sort.
- Drawing, animation and the timeline of the visualizer; nodes and MAC addresses it lists.
- `emulator/run_experiment.py`, `IpTransport`, `main.cpp`, logging and error types: thin delegation or orchestration.
