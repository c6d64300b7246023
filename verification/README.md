# Verification of the server's stateful protocols

The server (`ServerApplication/`) accepts TCP clients into pooled session objects, logs
them in by nickname, puts them in zones, lets them speak UDP with a token, writes to them
through a queue, and asks a database middleware for data. Taken apart from sockets and
timers this is a handful of small protocols, each spread over several functions. This
project models them and proves what they keep over whole runs.

Code that changes objects in place is a class here, with the same methods and branches.
Each such method is proved against a function on values, and the results are proved about
those functions over every run of the state machine they make up.

| module | what it models |
|---|---|
| `Framing` | the length prefix, the receive buffer, resynchronisation after noise, the drain loop |
| `WriteQueue` | posted messages, one write in flight, overflow, generations; and what the peer reads |
| `Sessions`, `Pools` | the session record and its lifecycle flags; the pool's queue and guard set |
| `Ownership` | acceptors, logins and any number of closers, one lock or one change of the life state at a time |
| `SessionTable` | the sharded table of registered sessions and the nickname index |
| `Worlds` | the server as one machine of atomic steps: accept, login, close, keepalive, datagram, time |
| `Effects`, `Lifecycle`, `Guarantees` | closing and accepting in one piece; the invariant; its consequences |
| `Evictions` | whom a login closes, and when that is deserved |
| `EndpointIndex`, `UdpHistory` | the UDP endpoint index; who may speak over UDP, judged by the history |
| `UnauthCleanup`, `SessionLists`, `CleanupLaws` | closing the longest-idle clients that have not logged in; whom that spares |
| `Zones`, `DataHandlers` | the objects at work, each method proved against the step of `Worlds` |
| `Router`, `RequestIds` | pending database requests, retries, late timers and replies; request ids |
| `TokenBucket`, `ShardedLimiter` | the per-user and the server-wide UDP rate limiters |
| `UdpAdmission`, `UdpEntries` | both limiters in front of the dispatcher, as a machine and as objects |

`Worlds.Run` takes the runs in which a login completes only while its session is still
registered. `Worlds.RunFree` takes all runs. What needs more is a hypothesis of the
theorem that needs it.

## What the code does, against what it says

- An overflow of the write queue is announced as dropping the oldest message. The oldest
  message is the one being written, and it still arrives; when its write completes the next
  one is popped unsent instead. `WriteQueue.NewerMessageIsLost` is a run in which that
  happens, and `WriteQueue.WriteOrder` gives the exact account
  (`ServerApplication/Session.cpp:157`, `ServerApplication/Session.cpp:305-308`).
- A session that is handed out is activated and then cleaned up, which makes it Idle again;
  so nobody is ever Active and the count of active sessions is always zero
  (`Guarantees.NobodyActive`; `ServerApplication/SessionPool.cpp:72-77`).
- A timed-out request runs no callback, not even its error callback: a registered request
  with both callbacks runs one exactly if it completes with a reply (`Router.CallbackExactlyOnReply`,
  with an input in `Router.TimeoutRunsNoCallback`; `ServerApplication/DBmwRouter.cpp:308-317`).
- Nicknames are never taken out of the index. A login message can close a client that by
  then carries another nickname (`Evictions.RenamedSessionIsEvicted`) or a stranger who was
  given the pooled session of the departed one (`Evictions.ReusedSessionIsEvicted`).
  `Evictions.LoginRemovesCarriersExactly` says, for the message and for the completion, when
  only carriers of the nickname are removed; a completion right after its message removes
  nobody (`Evictions.CompletionEvictsNobody`). A registration over UDP can bind an endpoint
  and a token to a session that waits in the pool (`EndpointIndex.RegistrationAfterClose`);
  the endpoint index is sound exactly in the runs where that does not happen
  (`EndpointIndex.IndexSoundExactly`).
- The guard set of the pool does not know the indices that its constructor queues. It
  protects against a double release exactly for sessions handed out before
  (`Pools.GiveKeepsFreeListExactly`).
- The close gate of a session lets a second closer pass in two ways: while the first one
  is releasing the session, between the cleanup that makes it Idle and the mark that makes it
  Released (`Ownership.GateOpenDuringRelease`), and once a slow closer of an earlier checkout
  cleans up (`Ownership.GateAdmitsTwoClosers`). Along a run each session has at most one
  closer past its gate, and the gate stays shut for it outside the release, exactly when no
  session is handed out before its last closer has finished and no closer begins on a session
  that is being released (`Ownership.GateSoundExactly`). It is the removal from the table
  that keeps the closer unique in all runs (`Ownership.ExactlyOneOwner`), and a login that
  completes late breaks that (`Ownership.LateLoginBreaksOwnershipExactly`).
- The per-user limiter cuts elapsed time down to milliseconds but remembers the time of a
  refill to the nanosecond. A bound of 121 + 60 a second, which the rate suggests, fails for a
  full bucket whose last refill is just under 17 ms ago, and in no other case
  (`TokenBucket.SimpleBoundExactly`). `TokenBucket.AdmissionBound` is the bound that holds.
- A session's bucket is asked twice for a datagram from a registered endpoint: by the socket's
  handler for the session that the endpoint index names for the sender, and by the data
  handler for the nickname's session. So it takes two tokens to get one such datagram
  through (`UdpAdmission.TokensPaid`), and the rate of 60 a second comes to 30
  (`UdpAdmission.OwnEntryHalvesRate`; `ServerApplication/UDPManager.cpp:61`,
  `ServerApplication/DataHandler.cpp:360`).
- The server-wide limiter keeps counting shards that have not been used this second, so one
  idle shard can block all others for good (`ShardedLimiter.IdleShardBlocksOthers`, with an
  input for every limit in `ShardedLimiter.IdleShardInput`).

## Model

| member | source | states |
|---|---|---|
| Framing.Extract | ServerApplication/MessageBufferManager.cpp:24-87 | one parse in terms of the least offset with an acceptable length: a message of 1 to 262144 bytes costs the buffer at least 5 bytes, and no message leaves at most 524288 |
| Framing.FirstCandidate | ServerApplication/MessageBufferManager.cpp:39-57 | the least offset within reach of the scan that reads as an acceptable length, and none only if there is none |
| Framing.Drain | ServerApplication/Session.cpp:537-562 | draining terminates, delivers only acceptable messages, and leaves at most 524288 bytes whatever was in the buffer |
| Framing.MessageBufferManager.Append | ServerApplication/MessageBufferManager.cpp:14-22 | the buffer grows by exactly the bytes read |
| Framing.MessageBufferManager.Clear | ServerApplication/MessageBufferManager.cpp:109 | the buffer is emptied |
| Framing.MessageBufferManager.ExtractMessage | ServerApplication/MessageBufferManager.cpp:24-87 | wait, extract, scan and give-up branches together do what Extract specifies |
| Framing.MessageBufferManager.Resync | ServerApplication/MessageBufferManager.cpp:51-87 | the bounded scan finds the least candidate, drops exactly the noise, or gives up over the limit |
| Framing.MessageBufferManager.Receive | ServerApplication/Session.cpp:535-568 | append and drain loop deliver what Drain specifies |
| Framing.ExtractTakesFromTheFront | ServerApplication/MessageBufferManager.cpp:41-72 | what remains is a suffix of the buffer and a message is the bytes right before it |
| Framing.ExtractStable | ServerApplication/MessageBufferManager.cpp:24-87 | bytes that arrive later do not change what was already decided |
| Framing.DrainAppend | ServerApplication/Session.cpp:535-562 | draining twice with bytes in between is draining once |
| Framing.ChunkingIrrelevant | ServerApplication/Session.cpp:535-568 | on any stream, however it is cut into reads, the messages delivered are those of a single read, as long as the connection is not given up |
| Framing.DrainIdempotent | ServerApplication/Session.cpp:537-562 | a second drain with nothing new delivers nothing |
| Framing.DrainStreamPrefix | ServerApplication/MessageBufferManager.cpp:24-87 | from any prefix of a stream of frames with noise exactly the bodies that have wholly arrived are delivered |
| Framing.FramedRoundTrip | ServerApplication/DBMiddlewareClient.cpp:239-246 | frames with up to 16384 bytes of zero-free noise before each, cut into reads in any way, are parsed into exactly the bodies in order |
| Framing.FrameReadBackExactly | ServerApplication/DBMiddlewareClient.cpp:239-246 | a frame is read back as its body if and only if the body has 1 to 262144 bytes |
| Framing.FrameBytes | ServerApplication/DBMiddlewareClient.cpp:239-246 | the four bytes before a body of a given size, each by its value: the digits of the size in base 256, the highest first |
| Framing.ResyncReachExactly | ServerApplication/MessageBufferManager.cpp:51-73 | zero-free noise before a frame is skipped if and only if it is at most 16384 bytes |
| WriteQueue.SessionWriter.PostWrite | ServerApplication/Session.cpp:100-117 | enqueue, and start a write exactly if the queue was empty |
| WriteQueue.SessionWriter.EnqueueWrite | ServerApplication/Session.cpp:299-326 | append with room; at the maximum drop the front, and close after the set number of overflows in a row |
| WriteQueue.SessionWriter.DoWriteQueue | ServerApplication/Session.cpp:119-145 | an open session with a nonempty queue starts a write of the front under the current generation |
| WriteQueue.SessionWriter.OnWriteDone | ServerApplication/Session.cpp:143-158 | a stale completion changes nothing, an error closes, success pops and goes on; what that means over runs is stated by FailedWriteCloses, OpenExactly and CompletedExactly |
| WriteQueue.SessionWriter.CloseSession | ServerApplication/Session.cpp:328-376 | the queue is emptied and the generation moves on by two if the pool cleans up too, else by one |
| WriteQueue.SessionWriter.Cleanup | ServerApplication/Session.cpp:476-488 | the queue is emptied and the generation moves on by one |
| WriteQueue.SessionWriter.Acquire | ServerApplication/SessionPool.cpp:70-77 | reset and cleanup empty the queue and open the session under a new generation |
| WriteQueue.QueueRefinement | ServerApplication/Session.cpp:100-158 | on an open session the queue is a suffix of the posts within its maximum, nonempty exactly when the one current write is in flight, and posted = queued + completed + overflows |
| WriteQueue.WriteOrder | ServerApplication/Session.cpp:299-326 | writes start in strictly increasing post order, with exactly one message passed over per overflow during the write before |
| WriteQueue.NewerMessageIsLost | ServerApplication/Session.cpp:305-308 | with room for one, two posts and one completion send the first message and lose the second |
| WriteQueue.StaleCompletionIgnored | ServerApplication/Session.cpp:146-149 | a completion of an older generation never pops, starts or closes anything |
| WriteQueue.FailedWriteCloses | ServerApplication/Session.cpp:151-156 | in every run a current write that fails leaves the session closed with an empty queue and no current write, and none is started again until a reset |
| WriteQueue.CompletedExactly | ServerApplication/Session.cpp:146-158 | on an open session the writes counted as completed are exactly the current ones of this life that completed without an error |
| WriteQueue.OpenExactly | ServerApplication/Session.cpp:299-326 | after every step of every run the session is open exactly if the step is a reset, or it was open and the step is no close, no failure of a current write, and no post at the maximum that brings the posts in a row that found it so to the limit; a post that finds room ends the row |
| WriteQueue.ResetWritesAtOnce | ServerApplication/SessionPool.cpp:70-77 | after a reset in any state of any run the next post is written at once, and is the only one of the new history |
| WriteQueue.PeerReceivesWhatWasSent | ServerApplication/Session.cpp:129-141 | the peer's parser delivers the messages sent, each once and in order, for any chunking |
| Sessions.Session.constructor | ServerApplication/Session.cpp:18-31 | a new session is idle, handshaking and carries no identity |
| Sessions.Session.TryActivate | ServerApplication/Session.cpp:415-418 | Idle becomes Active, anything else is refused |
| Sessions.Session.TryClose | ServerApplication/Session.cpp:420-428 | Active or Idle becomes Closing, anything else is refused |
| Sessions.Session.FinalizeClose | ServerApplication/Session.cpp:430-432 | the life state becomes the closed one |
| Sessions.Session.MarkReleased | ServerApplication/Session.cpp:434-436 | the life state becomes Released |
| Sessions.Session.SetActive | ServerApplication/Session.cpp:442-448 | the compatible form of activation, a compare-and-swap either way |
| Sessions.Session.ClearUdpToken | ServerApplication/Session.h:300-303 | token and issue time go, nothing else |
| Sessions.Session.SetUdpToken | ServerApplication/Session.cpp:651-655 | token, issue time and time to live are set together |
| Sessions.Session.Cleanup | ServerApplication/Session.cpp:454-503 | identity goes, the generation moves on and the life state is Idle; id and issue time stay |
| Sessions.Session.Reset | ServerApplication/Session.cpp:216-269 | a fresh record under the new id, with the generation moved on |
| Pools.SessionPool.constructor | ServerApplication/SessionPool.cpp:9-23 | all places are queued and the guard set is empty |
| Pools.SessionPool.AcquireSession | ServerApplication/SessionPool.cpp:25-81 | the front of the queue, or a new session below the maximum, or none; handed out reset and cleaned up, all others untouched |
| Pools.SessionPool.Find | ServerApplication/SessionPool.cpp:86-98 | the place of a session, or that it is foreign |
| Pools.SessionPool.ReleaseSession | ServerApplication/SessionPool.cpp:83-123 | a foreign or guarded session is refused unchanged; otherwise it is cleaned up, marked and queued once |
| Pools.TakeKeepsFreeList | ServerApplication/SessionPool.cpp:31-51 | handing out keeps the free list sound, fails only with nothing free at the maximum, and never hands out a session in use |
| Pools.GiveKeepsFreeListExactly | ServerApplication/SessionPool.cpp:100-117 | a release keeps the free list sound if and only if the session was handed out before |
| Pools.DoubleReleaseIsNoOp | ServerApplication/SessionPool.cpp:100-109 | a second release changes nothing |
| Pools.FreeListOverRuns | ServerApplication/SessionPool.cpp:14-22 | over all runs the queue has no duplicates, the guard set is exactly the queued indices ever handed out, and the pool stays within its maximum |
| Pools.ReuseInOrder | ServerApplication/SessionPool.cpp:48-51 | over all runs the indices reused are those that entered the queue, in the same order, and the queue is what is left of them |
| Ownership.ExactlyOneOwner | ServerApplication/DataHandler.cpp:47-90 | under every interleaving each session is free, in hand, registered or held by one closer, exclusively, and released once per checkout |
| Ownership.HandOutAndReleaseAreSafe | ServerApplication/SessionPool.cpp:25-123 | what the pool hands out is in nobody's possession and the release of a closer always succeeds |
| Ownership.LateLoginBreaksOwnershipExactly | ServerApplication/UseCases/LoginFlow.cpp:104-117 | adding a session at login keeps sole ownership if and only if it is still registered |
| Ownership.StepKeepsGateExactly | ServerApplication/Session.cpp:415-436 | of all steps only two open the close gate too early: handing out a session whose closer is not done, and a closer that begins while another is releasing |
| Ownership.RunKeepsHeld | ServerApplication/DataHandler.cpp:47-90 | what a closer has taken out of the table is the session it was called on |
| Ownership.GateSoundExactly | ServerApplication/Session.cpp:328-376 | along a run each session has at most one closer past the gate, and the gate stays shut for it outside the release, if and only if neither of the two steps occurs |
| Ownership.GateOpenDuringRelease | ServerApplication/SessionPool.cpp:111-112 | a run in which a second closer of the same checkout passes the gate between the two stores of a release |
| Ownership.GateAdmitsTwoClosers | ServerApplication/SessionPool.cpp:31-51 | a run in which a session is handed out early and two closers of one checkout pass the gate |
| SessionTable.ShardOf | ServerApplication/SessionManager.h:49 | every id, negative ones included, has a shard in range |
| SessionTable.ShardedRefinesFlat | ServerApplication/SessionManager.cpp:13-115 | for every sequence of additions and removals lookups, count and contents are those of one unsharded map |
| SessionTable.UnionAt | ServerApplication/SessionManager.cpp:84-91 | looking in one shard is looking in the whole table |
| SessionTable.SessionManager.AddSession | ServerApplication/SessionManager.cpp:13-46 | the table has the session under its id; a session of another generation that was there is handed to the caller |
| SessionTable.SessionManager.RemoveSession | ServerApplication/SessionManager.cpp:70-82 | the id leaves the table and its session is returned, once |
| SessionTable.SessionManager.FindSession | ServerApplication/SessionManager.cpp:84-91 | the session of the table under the id, or none |
| SessionTable.SessionManager.SessionCount | ServerApplication/SessionManager.cpp:108-115 | the sum over the shards is the size of the table |
| SessionTable.SessionManager.Snapshot | ServerApplication/SessionManager.cpp:93-105 | every registered session exactly once |
| SessionTable.SessionManager.RegisterNickname | ServerApplication/SessionManager.cpp:133 | the index entry is overwritten |
| Effects.CloseEffect | ServerApplication/Session.cpp:328-376 | closing a registered session removes it from table, zone and endpoint index, empties its record and queues it, and touches nothing else |
| Effects.CloseAgainEffect | ServerApplication/DataHandler.cpp:49-54 | closing a session that is not in the table changes its own record only |
| Effects.AcceptEffect | ServerApplication/Server.cpp:22-25 | accepting registers a session the pool had free under a fresh id, or uses up the id and changes nothing else |
| Lifecycle.NextKeepsInv | ServerApplication/DataHandler.cpp:47-90 | every step keeps pool, free list, table, zones and nicknames consistent with each other |
| Lifecycle.RunKeepsInv | ServerApplication/DataHandler.cpp:47-90 | so does every run |
| Lifecycle.CloseOthers | ServerApplication/Session.cpp:328-376 | closing one session leaves every other one's record and registration as they were |
| Lifecycle.EvictFreesNickname | ServerApplication/UseCases/LoginFlow.cpp:119-125 | after the eviction nobody but the session logging in carries the nickname |
| Guarantees.FreeOrRegistered | ServerApplication/DataHandler.cpp:47-90 | every session is in the free queue once and under no id, or under exactly its own id and not in the queue |
| Guarantees.SessionsConserved | ServerApplication/SessionPool.cpp:25-123 | after every run the free sessions and the registered ones together are exactly as many as the pool has |
| Guarantees.AcceptGivesCleanSession | ServerApplication/Server.cpp:22-25 | a client gets an unregistered session under an id never given before and a new generation, shaking hands and alive from now on, with nickname, endpoint, token and zone of its last user gone, or is turned away exactly when all are registered and the pool is at its maximum |
| Guarantees.NobodyActive | ServerApplication/SessionPool.cpp:72-77 | no session is ever Active at rest |
| Guarantees.CloseRemovesEverywhere | ServerApplication/DataHandler.cpp:47-90 | after a close the record is closed, idle and empty under a new generation; the session is under no id, in no zone and in the free queue exactly once; all others are untouched, and a second close changes only its own record |
| Guarantees.LoginEvictsExactly | ServerApplication/UseCases/LoginFlow.cpp:116-134 | a login removes from the table the session the index names, if another and registered, and nobody else; it takes the name and enters the default zone unless that is missing or full |
| Guarantees.IndexNamesLastLogin | ServerApplication/SessionManager.cpp:118-134 | the nickname index names the last to have logged in under the nickname, whatever became of them |
| Guarantees.NicknamesUnique | ServerApplication/UseCases/LoginFlow.cpp:119-130 | whoever carries a nickname is registered and is the one the index names; no two sessions share one |
| Evictions.MessageRemoves | ServerApplication/MessageHandlers/CertifyHandler.cpp:31-38 | a login message removes from the table the session the index names, if another and registered, and nobody else |
| Evictions.QuitLeaves | ServerApplication/MessageHandlers/CertifyHandler.cpp:18-29 | a login message under the word quit removes its sender from the table and nobody else; one under the empty nickname changes nothing |
| Evictions.CompletionEvictsNobody | ServerApplication/UseCases/LoginFlow.cpp:116-134 | a completion right after its message finds no rival and removes nobody |
| Evictions.RenamedSessionIsEvicted | ServerApplication/MessageHandlers/CertifyHandler.cpp:31-38 | after two whole logins of a session under two nicknames, the next login message under the first closes it |
| Evictions.ReusedSessionIsEvicted | ServerApplication/MessageHandlers/CertifyHandler.cpp:31-38 | after a close and the reuse of the session for another client, the next login message under the old nickname closes that client |
| Evictions.NicknameIsOwnLastLogin | ServerApplication/UseCases/LoginFlow.cpp:127-130 | in every run a session carries the nickname of its own last completed login since its last close or hand-out, and none without one |
| Evictions.NameSinceExactly | ServerApplication/UseCases/LoginFlow.cpp:127-130 | that is: a login under the nickname with no close, hand-out or login of the session after it |
| Evictions.LoginRemovesCarriersExactly | ServerApplication/MessageHandlers/CertifyHandler.cpp:31-38 | a login message, and likewise a completion, removes only carriers of its nickname if and only if the last to log in under it is nobody, the one logging in, unregistered, or undisturbed since |
| Guarantees.ZonesMatchTable | ServerApplication/Zone.cpp:139-160 | a zone's members are exactly the registered sessions carrying its number, within its capacity |
| Guarantees.EnteringKeepsZonesExactly | ServerApplication/DataHandler.cpp:517-532 | assignment to a zone keeps the zones in order if and only if it is refused or the session was in no other zone |
| EndpointIndex.RegisterKeepsEndpointsExactly | ServerApplication/DataHandler.cpp:379-435 | binding an endpoint keeps the index sound if and only if the session is registered |
| EndpointIndex.NextKeepsEndpointsExactly | ServerApplication/DataHandler.cpp:379-435 | every other step keeps it sound |
| EndpointIndex.IndexSoundExactly | ServerApplication/DataHandler.cpp:56-71 | the index is sound all along a run if and only if every processed registration is for a registered session |
| EndpointIndex.EntriesAgreeWithSessions | ServerApplication/DataHandler.cpp:56-71 | then an entry names a registered session bound to that endpoint, no session has two, and a closed one has none |
| EndpointIndex.RegistrationEnters | ServerApplication/DataHandler.cpp:379-435 | a processed registration gives the session endpoint, token, issue time and time to live; the sender's entry is the session's afterwards if and only if the session was not bound there before or had the entry; its old entry goes if it was its own; all other entries and records stay |
| EndpointIndex.RegistrationRefused | ServerApplication/DataHandler.cpp:289-302 | a registration without a known nickname, or turned down by a limiter, changes nothing |
| EndpointIndex.IndexCompleteExactly | ServerApplication/DataHandler.cpp:392-430 | in every run a session bound to an endpoint has the endpoint's entry if and only if no other session was the last to move there; in the runs where the index is sound it has the entry exactly if it is bound there and that holds |
| EndpointIndex.RegistrationAfterClose | ServerApplication/SessionManager.cpp:148-155 | after a close the next registration under the nickname binds a session that is in the free queue |
| UdpHistory.InForceIsLast | ServerApplication/UDPMessageHandlers/UdpRegisterHandler.cpp:14-24 | the binding in force is an event of the history with nothing about the session after it |
| UdpHistory.AdmittedExactly | ServerApplication/DataHandler.cpp:304-357 | a datagram is dispatched if and only if both limiters agree and the history has a binding in force for its sender and token, young enough; otherwise nothing changes, except that a token which the history shows to be outdated is taken from its session if the server-wide limiter agrees |
| UdpHistory.CredentialsMatchHistory | ServerApplication/Session.h:286-303 | in every run a session's endpoint, token, issue time and time to live are those of its binding in force, and it has no token without one |
| UdpHistory.UdpHistorySafe | ServerApplication/DataHandler.cpp:304-443 | every dispatched datagram was licensed by an earlier registration of the same session, endpoint and token, within the time to live, with nothing voiding or replacing it in between |
| UnauthCleanup.CloseAllIsRun | ServerApplication/DataHandler.cpp:500-503 | closing several sessions is a run of single closes |
| UnauthCleanup.CloseAllEffect | ServerApplication/DataHandler.cpp:500-503 | exactly those named leave the table and nobody else is touched |
| UnauthCleanup.CleanupKeepsNewest | ServerApplication/DataHandler.cpp:480-504 | of the n registered sessions that are handshaking or waiting for their login exactly min(n, max) stay and the others leave the table; none that stays was last alive before one that left; every other session is untouched |
| UnauthCleanup.EnumeratedOnce | ServerApplication/DataHandler.cpp:483-489 | in the states where every entry of the table is under its session's id, walking the table lists each unauthenticated session once |
| CleanupLaws.AliveIsLastSign | ServerApplication/MessageHandlers/KeepaliveHandler.cpp:9-13 | in every run the time a session was last alive is the clock at its last keepalive or hand-out, or at the start |
| CleanupLaws.CleanupByHistory | ServerApplication/DataHandler.cpp:480-504 | in every run the cleanup leaves every session that completed a login, and was not closed or handed out since, registered and with its record; and none that goes on waiting gave its last sign of life before one that was closed |
| SessionLists.FilterUnauth | ServerApplication/DataHandler.cpp:483-489 | of a listing of the table exactly the entries in the states handshaking and waiting for the login |
| SessionLists.SortByLastAlive | ServerApplication/DataHandler.cpp:493-498 | the same entries, each once, by ascending time of last life |
| Zones.Zone.AddSession | ServerApplication/Zone.cpp:139-149 | admitted unless the zone is full or has the id; the members change accordingly |
| Zones.Zone.RemoveSession | ServerApplication/Zone.cpp:151-160 | the id leaves the zone |
| Zones.ZoneManager.constructor | ServerApplication/ZoneManager.cpp:7-13 | distinct empty zones numbered from 1 with the configured capacity |
| Zones.ZoneManager.RemoveSession | ServerApplication/ZoneManager.cpp:35-50 | the session leaves the zone it says it is in, if that exists, and forgets it; other zones are untouched |
| DataHandlers.DataHandler.constructor | ServerApplication/DataHandler.cpp:19-36 | a fresh server is the start of the state machine |
| DataHandlers.DataHandler.RemoveSession | ServerApplication/DataHandler.cpp:47-90 | table, endpoint index, token, zone and pool change as the step of the state machine says, and only the first removal has an effect |
| DataHandlers.DataHandler.DropEndpoint | ServerApplication/DataHandler.cpp:56-71 | the session's entry goes only if it still names the session |
| DataHandlers.DataHandler.LeaveZone | ServerApplication/DataHandler.cpp:75-78 | the session leaves its zone |
| DataHandlers.DataHandler.BeginClose | ServerApplication/Session.cpp:328-354 | one closer wins and marks the session closed |
| DataHandlers.DataHandler.CloseSession | ServerApplication/Session.cpp:328-376 | the gate, the removal and the last cleanup make up the close step |
| DataHandlers.DataHandler.Evict | ServerApplication/SessionManager.cpp:121-131 | the session the index names is closed unless it is the one logging in |
| DataHandlers.DataHandler.LoginHandler | ServerApplication/MessageHandlers/CertifyHandler.cpp:13-36 | the default nickname, the empty one, the word quit, and the first eviction |
| DataHandlers.DataHandler.AddSession | ServerApplication/SessionManager.cpp:13-67 | the session takes the table's entry of its id, and a session of another generation that had it is closed |
| DataHandlers.DataHandler.OnUserInfoOk | ServerApplication/UseCases/LoginFlow.cpp:96-134 | into the table, evict twice, take the name, enter the default zone |
| DataHandlers.DataHandler.AssignSessionToZone | ServerApplication/DataHandler.cpp:517-532 | the zone and the session change together or not at all |
| DataHandlers.DataHandler.AcceptSession | ServerApplication/Server.cpp:22-25 | the next id, a session of the pool, and its entry in the table, or only the id |
| DataHandlers.DataHandler.KeepaliveHandler | ServerApplication/MessageHandlers/KeepaliveHandler.cpp:9-13 | the time of last life is now |
| DataHandlers.DataHandler.Rebind | ServerApplication/DataHandler.cpp:379-435 | the endpoint entry moves, taken from whoever had it, and the session's old one goes if it is its own; RegistrationEnters and IndexCompleteExactly say so in terms of the entries |
| DataHandlers.DataHandler.UdpRegisterHandler | ServerApplication/UDPMessageHandlers/UdpRegisterHandler.cpp:9-24 | endpoint, time to live and token are bound together |
| DataHandlers.DataHandler.ScreenDatagram | ServerApplication/DataHandler.cpp:304-357 | the token, age and endpoint checks in this order, of which only the age check clears the token |
| DataHandlers.DataHandler.Dispatch | ServerApplication/DataHandler.cpp:379-443 | a registration rebinds the endpoint before and issues the token after it is dispatched; any other datagram is dispatched only |
| UdpEntries.UdpEntry.constructor | ServerApplication/Session.h:104-107 | every session of the pool starts with a full bucket |
| UdpEntries.UdpEntry.AcceptSession | ServerApplication/Session.h:104-107 | a session that the pool makes for a client comes with a full bucket; a reused one keeps its own |
| UdpEntries.UdpEntry.ReceiveDatagram | ServerApplication/UDPManager.cpp:60-85 | the session that the endpoint index has for the sender pays a token, and the datagram goes on if it can or if there is no such session |
| UdpEntries.UdpEntry.OnUdpReceive | ServerApplication/DataHandler.cpp:244-443 | once a datagram is let in, the server-wide limiter is asked first, then come the checks, then the bucket of the nickname's session, then the dispatch |
| DataHandlers.DataHandler.CollectUnauth | ServerApplication/DataHandler.cpp:480-489 | the sessions of the table that are handshaking or waiting for their login, once for every id they are under |
| DataHandlers.DataHandler.CloseFirst | ServerApplication/DataHandler.cpp:499-503 | the first ones of the list are closed in order |
| DataHandlers.DataHandler.CleanupUnauthSessions | ServerApplication/DataHandler.cpp:480-504 | the excess is closed from the longest-idle end and nothing if there is none; from any state that keeps the invariant exactly min(n, max) of the n sessions handshaking or waiting for their login survive, none older than one closed, and all others are untouched |
| RequestIds.ExtractSessionIdFromReq | ServerApplication/DBmwRouter.cpp:467-478 | the leading digits as an int, or -1 without any or out of range |
| RequestIds.SequenceReadBack | ServerApplication/DBmwRouter.cpp:480-492 | the sequence number can be read back from an id |
| RequestIds.IdsDistinct | ServerApplication/DBmwRouter.cpp:480-492 | ids from different sequence numbers differ, for any mix of sessions and processes |
| RequestIds.IdsEqualExactly | ServerApplication/DBmwRouter.cpp:480-492 | two ids are equal if and only if they have the same sequence number and either the same session or, both without one, the same process |
| RequestIds.SessionReadBack | ServerApplication/DBmwRouter.cpp:467-492 | the session id of a made id is read back exactly when it is a non-negative int, else -1 |
| Router.DBmwRouter.MakeId | ServerApplication/DBmwRouter.cpp:480-492 | the counter moves on by one in 64 bits and the id is made from it |
| Router.DBmwRouter.SendRequest | ServerApplication/DBmwRouter.cpp:143-170 | an id is made and the request is posted to the strand |
| Router.DBmwRouter.OnStrand | ServerApplication/DBmwRouter.cpp:219-247 | a request without a sender is refused with its error callback; any other is registered and sent |
| Router.DBmwRouter.SendNowLocked | ServerApplication/DBmwRouter.cpp:256-271 | a pending request is sent and counted, any other id is ignored |
| Router.DBmwRouter.OnTimer | ServerApplication/DBmwRouter.cpp:296-318 | retry while retries are left, else time out; nothing for an id that is gone |
| Router.DBmwRouter.FulfillAndEraseLocked | ServerApplication/DBmwRouter.cpp:322-342 | the entry goes and one of the two counters moves; an id that is gone changes nothing |
| Router.DBmwRouter.HandleJson | ServerApplication/DBmwRouter.cpp:38-62 | a typed reply completes its request with the callback for its outcome, which MessageOutcome tells from the kind; late replies change nothing |
| Router.Conservation | ServerApplication/DBmwRouter.cpp:142-250 | registered = pending + ok + failed, sent = registered + retried, timed out within failed, after every step |
| Router.AtMostOnce | ServerApplication/DBmwRouter.cpp:286-342 | each id completes at most once and runs at most one callback, and afterwards nothing that names it has an effect |
| Router.UnansweredTransmissions | ServerApplication/DBmwRouter.cpp:286-320 | a request that times out was sent exactly max_retries + 1 times and ran no callback |
| Router.CallbacksFollowTheReply | ServerApplication/DBmwRouter.cpp:43-59 | a registered request runs the callback it was given for the outcome of its reply, and none without a reply |
| Router.CallbackExactlyOnReply | ServerApplication/DBmwRouter.cpp:49-54 | a registered request with both callbacks runs exactly one if and only if it completes with a reply |
| Router.MessageOutcome | ServerApplication/DBmwRouter.cpp:38-62 | for a pending id db_query_result adds one to the good replies and runs on_ok if given, the three error kinds add one to the failures and run on_error if given; any other kind, no id or an id that is gone changes nothing |
| Router.EventsExplained | ServerApplication/DBmwRouter.cpp:38-62 | in every run a good reply is a db_query_result for a pending request and a bad one an error kind; a callback comes right after its reply and with its outcome, or from the strand turning a request down; a registration is of the request posted; a timeout is an expiry with no retry left |
| Router.SenderNeeded | ServerApplication/DBmwRouter.cpp:219-247 | in every run a posted request in callback mode is registered and sent if the sender of its own kind, secure or plain, is set, and is dropped with its error callback if not; a request in the other mode is always registered and sent |
| Router.PostedWasIssued | ServerApplication/DBmwRouter.cpp:142-170 | in every run what waits for the strand is a request issued as it is, under the id made from the counter then |
| Router.TimeoutRunsNoCallback | ServerApplication/DBmwRouter.cpp:308-317 | a request with both callbacks and no retries times out and runs neither |
| Router.ExpiryUsesOneAttempt | ServerApplication/DBmwRouter.cpp:301-317 | every live timer expiry lowers the sum of attempts left by exactly one |
| Router.TableDrains | ServerApplication/DBmwRouter.cpp:286-320 | without new requests live expiries never exceed that sum, and when they reach it the table is empty |
| TokenBucket.UdpBucket.CheckUdpRateLimit | ServerApplication/Session.cpp:629-649 | refill by whole milliseconds since the last refill, added to what is there, cap and take as specified |
| TokenBucket.AdmissionBound | ServerApplication/Session.cpp:629-649 | requests spanning D ns are admitted at most (121019999940 + 60 * D) / 1000000000 times and tokens stay within 0 to 120 |
| TokenBucket.AdmissionBoundIsTight | ServerApplication/Session.cpp:629-649 | a run within one nanosecond that meets the bound |
| TokenBucket.SimpleBoundExactly | ServerApplication/Session.cpp:632-640 | at most 121 + 60 a second from a given time on if and only if the bucket is not full with its last refill between 16.666666 and 17 ms ago; else 123 pass in 33 ms |
| TokenBucket.CheckWithin | ServerApplication/Session.cpp:629-649 | from any moment on, whenever the bucket is looked at, the tokens given out since are accounted for |
| TokenBucket.PacedSenderAdmitted | ServerApplication/Session.cpp:629-649 | a request at least 17 ms after the previous one is admitted |
| TokenBucket.SavedTokensAdmit | ServerApplication/Session.cpp:636-648 | as many requests as there are tokens at the start, at any times, are all admitted |
| TokenBucket.BurstExactly | ServerApplication/Session.cpp:629-649 | of k requests at one moment exactly min(k, tokens available) are admitted: those there, and from 17 ms after the last refill min(120, those there + 60 * ms / 1000) |
| TokenBucket.ShorterWaitCanBeRefused | ServerApplication/Session.cpp:636-648 | from an empty bucket a request is admitted if and only if 17 ms have passed |
| ShardedLimiter.UdpRateLimiterShard.Total | ServerApplication/Utility.h:68-71 | the sum over all shards, stale ones included |
| ShardedLimiter.UdpRateLimiterShard.ShardedUdpRateLimit | ServerApplication/Utility.h:44-73 | a new second empties the caller's shard only; the call is counted and judged by the total; no shards admit everything |
| ShardedLimiter.NeverOverAdmits | ServerApplication/Utility.h:44-73 | with at least one shard no second admits more than the limit, whatever shards the calls use |
| ShardedLimiter.AdmittedExactly | ServerApplication/Utility.h:64-72 | a call is admitted if and only if the calls of this second and the stale counts together stay within the limit |
| ShardedLimiter.IdleShardBlocksOthers | ServerApplication/Utility.h:52-72 | a shard that is full and then unused blocks all others for good |
| ShardedLimiter.IdleShardInput | ServerApplication/Utility.h:52-72 | for every limit a run in which the only request of its second is refused |
| UdpAdmission.GuardedRunsAreRuns | ServerApplication/DataHandler.cpp:244-443 | the server with its limiters does what the server does given their answers |
| UdpAdmission.TokensPaid | ServerApplication/UDPManager.cpp:60-62 | a datagram that the server-wide limiter and the checks let pass is dispatched if and only if its session has two tokens, if it has the sender's entry, and then loses two; one, if nobody has that entry; and if another session has it, one token of each |
| UdpAdmission.DatagramCounts | ServerApplication/DataHandler.cpp:360-377 | once let in, a datagram that passed the limiter and the checks asks its session's bucket, and is dispatched exactly if there was a token; others neither touch the bucket nor are dispatched for the session |
| UdpAdmission.OtherCounts | ServerApplication/Session.h:104-107 | no other step dispatches anything or touches a bucket, and a session that the pool makes has a full one |
| UdpAdmission.SessionRateBound | ServerApplication/DataHandler.cpp:360-377 | between any two moments of any run, D ns apart, the datagrams dispatched for one session, those twice for which it has the sender's entry, are at most (121019999940 + 60 * D) / 1000000000 |
| UdpAdmission.OwnEntryHalvesRate | ServerApplication/UDPManager.cpp:60-62 | over any stretch of any run in which a session is only served at senders whose entry it has, twice the datagrams dispatched for it are within that bound: 30 a second |
| UdpAdmission.ServerRateBound | ServerApplication/DataHandler.cpp:251-256 | with at least one shard no second of any run sees more datagrams dispatched than the limit |

## Left out

- Sockets, strands, Asio timers, JSON and protobuf parsing, logging, alerts and configuration loading: datagrams and replies are datatypes, a timer is a step that can happen at any time, the clock is a number that does not go back, limits and capacities are parameters, and the random token of a registration comes with the datagram.
- Broadcast, chat and echo handlers, zone broadcasts and the counters of bad packets: they only send.
- `DBMiddlewareClient` beyond its frame printer: reconnecting, heartbeats and its write queue after an error.
- Router: senders that throw, and the resend outside the strand that follows; payloads that override the request id. The theorems hold until 2^64 ids have been made.
- `SessionManager.unregister_nickname`, which nothing calls, and `expire_stale_udp_endpoints`, whose guard is never true because the flag it reads is never set.
- Session ids are unbounded here and do not wrap.
- SessionTable.SessionManager.AddSession: hands a replaced session to its caller; DataHandlers.DataHandler.AddSession closes it.
- Framing.MessageBufferManager.Receive: a handler that throws on a message and has the session closed in the middle of a drain is not modelled.
- WriteQueue.SessionWriter.CloseSession: the gate in front of the close is modelled in `Sessions`, `Ownership` and `DataHandlers`, not here.
- DataHandlers.DataHandler.LoginHandler: the login flow it starts is the separate step OnUserInfoOk, which comes with the database's answer.
- Failing answers of the login, which change nothing here, and the branches for a handler, pool or application context that is gone, or for an exception while closing. A login that bypasses the database is a login step followed at once by its completion.
- `do_keepalive_check`: another list of sessions to close; every such close is a close step of the runs.
- In `Worlds` each operation is atomic. Interleavings inside operations are covered for ownership of sessions (`Ownership`), not for the fields of a session that a slow closer cleans up while it is in use again.
- WriteQueue.PeerReceivesWhatWasSent: assumes that the bytes of the length prefix outlive the function that starts the write; in the source they are a local array (`ServerApplication/Session.cpp:132-138`).
- A maximum write queue length of zero, which would pop an empty queue.
- TokenBucket.UdpBucket.CheckUdpRateLimit: the refill is the exact floor of 60 tokens a second; floating-point rounding can only give one token less, and the cast of a very long wait to int is not modelled.
- UdpEntries.UdpEntry.ReceiveDatagram: datagrams that are too long or do not parse are dropped before it, and an exception while one is handled is not modelled.
- UdpEntries.UdpEntry.OnUdpReceive: the counters of received datagrams are left out, and a session's bucket is kept beside the session, by its place in the pool.
- ShardedLimiter.UdpRateLimiterShard.ShardedUdpRateLimit: each call is atomic; interleavings of its loads and stores are not modelled.
- SessionLists.SortByLastAlive: an insertion sort stands for the library's sort, which leaves the order of ties open.
- The weak pointers to sessions always lock, because the pool keeps every session alive; the zone pointer of a session is its zone number.
