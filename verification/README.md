# A verified model of the lock service and its file system

The repository is a replicated lock service with a file system on top of it: caching lock clients
and their server, a write-back cache for file contents, Paxos with a durable log, primary/backup
replication, and an RPC layer with at-most-once calls over framed byte streams.  This project
models those protocols in Dafny and proves what they are for.

`dafny verify dfyconfig.toml` checks everything.

## How the model is built

Objects that the source updates in place are classes with the same fields.  Each of their methods
is proved to compute a function on the value of those fields (`View()`), and the protocol theorems
are about these functions.  A protocol is a state machine: `Enabled` and `Apply` give its steps,
`Run(trace, acts)` says that `trace` is a run, `StepInv` that every step keeps the invariant, and
the theorems hold at every point of every run.  One step is the code between two releases of the
mutex, or one message that is sent, handled or received.

| files | part of the system |
|---|---|
| LockClient, LockServer, LockProtocol, LockRevokes, LockWaiting | the client's and the server's lock machines; N clients with any number of threads, their calls in flight and the three background loops; when a revoke takes effect; who gets a lock and who waits |
| Extent, Coherence | the file store, the write-back cache, and both under the lock protocol |
| Acceptor, Proposer, Paxos, LogText | the acceptor and its log, the proposer's loops, one instance with crashes, the text of the log |
| RpcWindows, Rpc | the client's id window, the server's reply window, and both over a bad network |
| Rsm, RsmCalls | a replica's two entry points, primary and backups within one view, and the one against the other |
| Sequences, Marshall, StateTransfer, Framing | the wire format and its buffers, the lock server's state on the wire, PDUs on a byte stream |

Where the property one would expect is not what the code does, the code is kept as it is:

- `Extent.FlushEqualsDirect`: a flush sends the whole file in one write request, and a request above
  the PDU limit of 10 MiB is refused, so that the client aborts.  Fetching, writing in the cache and
  flushing therefore completes and equals the direct writes exactly when the fetch and every single
  write fit a PDU, no write throws, and nothing was written or the file as a whole fits one request;
  `Extent.LargeFlushAborts` is an input that fails.
- `LockRevokes.RevokeTakesEffectIff`: a timely revoke is dropped exactly when another acquire of the
  same client raised the shared seqid between the request and its grant; `LockRevokes.TimelyRevokeLost`
  is a run that loses one.
- `Acceptor.RestartUnnoticedIff`: a restart goes unnoticed by all requests exactly when replay restores
  the promised number with its name.  It need not, because a done record resets the number and leaves
  the name, but only a request with number 0 can notice: `Acceptor.CrashTransparent` covers all numbers
  from 1 up, and `Acceptor.ZeroNumberTellsRestart` is a request that does.  The proposer's `setn`
  (paxos.cc, 79 to 83) never issues 0 (`Proposer.NextNumber`), so that takes a foreign sender.
- `Paxos.LateAcceptBreaksAgreement`: in a run of the steps as they are written, an accept request that
  reaches an acceptor after it has decided makes two nodes commit different values, because
  `acceptreq` does not look at the instance.
- `ReplyWindow.AcknowledgedRunsAgain`: a late copy of an acknowledged request runs again; the comment
  on the FORGOTTEN case suggests that it would be refused, but the fill loop makes that case
  unreachable for the headers this client sends (`ReplyWindow.ForgottenWhen`, `Rpc.HeadersAreOrdered`).
- `RsmOrder.OnceIffSerial`: a backup can execute a seqno twice, and does so exactly in the runs in which
  a second `invoke` passes the test before the first has updated `myvs` outside the mutex;
  `RsmOrder.OverlapExecutesTwice` is such a run.
- `RsmOrder.ReusedSeqnoDiverges`: after a timeout the next request gets the same seqno, and a backup that
  executed the first one ends in another state than the primary although the call returns OK.
- `LogText.RoundTrip`: the log reads back exactly when names are non-empty words and values single lines.
- `StateTransfer.UsedReplica`: a replica that was in use is reproduced exactly only under the stated
  condition, because some fields are replaced, some overlaid and one appended to.

## Model

| member | source | states |
|---|---|---|
| LockProtocol.TokenConservation | lock_client_cache.cc:67-262 | in every run each lock's token is in one place: free at the server, or with exactly one client as a grant in flight, a cached lock or a release not yet handled |
| LockProtocol.MutualExclusion | lock_client_cache.cc:113-262 | in every run two threads, on any clients, that hold the same lock are the same thread |
| LockProtocol.RevokesAreTimely | lock_client_cache.cc:276-317 | in every run a revoke that has waited out ACQUIRING finds the lock FREE or LOCKED and its seqid current |
| LockProtocol.RevokesAreNeverStale | lock_server_cache.cc:192-239 | in every run the revoker never drops a queued revoke as out of date |
| LockProtocol.NoRunFaults | lock_client_cache.cc:91-107 | in every run no assertion of client or server fails, no revoke returns with the mutex held and no release is refused |
| LockProtocol.NoEarlyRevoke | lock_client_cache.cc:154-158 | in every run a grant never finds a revoke that arrived before it |
| LockRevokes.RevokeTakesEffectIff | lock_client_cache.cc:134-158 | in every run the revoke of a grant takes effect if and only if no other acquire of that client raised the shared seqid between the request's reading it and the grant's being taken |
| LockRevokes.EffectIff | lock_client_cache.cc:297-316 | a called revoke takes effect if and only if the client recorded the seqid that it carries |
| LockRevokes.TimelyRevokeLost | lock_client_cache.cc:141-153 | a run in which a second thread's acquire makes a timely revoke lost |
| LockProtocol.StepInv | lock_client_cache.cc:67-350 | every step of any client, thread, background loop or server handler keeps the protocol invariant |
| LockProtocol.RunInv | lock_server_cache.cc:72-303 | the invariant holds in every reachable state |
| LockWaiting.AcquireComesTo | lock_client_cache.cc:119-219 | in every run a pass over acqu calls the server exactly if the lock is NONE, returns with the lock exactly if it is FREE or the thread's own, and waits exactly otherwise |
| LockWaiting.FreeLockIsHandedOut | lock_client_cache.cc:197-204 | in every run a FREE lock in the cache goes to the thread that asks, on entry or after waiting, without the server |
| LockWaiting.WaitersFoundItTaken | lock_client_cache.cc:206-219 | in every run a thread put to wait found the lock neither NONE nor FREE nor its own |
| LockWaiting.ReleaseComesTo | lock_client_cache.cc:226-262 | in every run a holder's release ends its hold and either keeps the lock FREE and signals the first waiter or, if revoked, queues it for the releaser; any other release changes nothing |
| LockWaiting.FirstWaiterHasItsTurn | lock_server_cache.cc:242-303 | in every run one round of the retryer takes the first waiter of every FREE lock and of no other |
| LockWaiting.AskingGoesOn | lock_client_cache.cc:138-185 | in every run a request carries the shared seqid, is granted exactly if the lock is free at the server, a grant is held and a woken thread asks again |
| LockWaiting.FlagAsksAgain | lock_client_cache.cc:163-182 | a refused thread asks again at once exactly if the retry flag is up, else it waits |
| LockWaiting.FlagIsACall | lock_client_cache.cc:319-332 | in every run the flag is up exactly if, since the last refusal or release, a retry call found nobody waiting or the client still asking |
| LockWaiting.RefusedIsNotForgotten | lock_client_cache.cc:163-184 | in every run a refused client is queued at the server or flagged, and its waiting thread is the next to be signalled, until a call signals it |
| LockWaiting.WaiterIsNotForgotten | lock_client_cache.cc:206-262 | in every run a thread that waits for its own client stays in the wait list until a release or a retry call signals it |
| LockWaiting.ReleaserGoesOn | lock_client_cache.cc:76-104 | in every run revoked locks go back in order: out of the cache, flushed, free at the server |
| LockWaiting.GivenUpIsAskedFor | lock_client_cache.cc:91-103 | in every run a lock given up while threads of the client wait is asked for again by its release |
| LockClient.LockClientCache.constructor | lock_client_cache.cc:22-59 | the empty client with seqid 1 |
| LockClient.LockClientCache.AcquireStep | lock_client_cache.cc:113-224 | one pass of acquire from its entry, including the creation of the lock's entries |
| LockClient.LockClientCache.AcquStep | lock_client_cache.cc:129-219 | one pass from label acqu: call the server, return, take a free lock or queue |
| LockClient.LockClientCache.GrantStep | lock_client_cache.cc:141-162 | what an OK answer does, with the shared seqid re-read |
| LockClient.LockClientCache.RefusalStep | lock_client_cache.cc:163-182 | what a RETRY answer does: call again if a retry came first, else wait at the front |
| LockClient.LockClientCache.WakeRetryingStep | lock_client_cache.cc:138-184 | a woken RETRYING thread goes back to ACQUIRING |
| LockClient.LockClientCache.ReleaseStep | lock_client_cache.cc:226-262 | release by a holder frees the lock or, if a revoke is listed, queues it for the releaser; by another thread it does nothing |
| LockClient.LockClientCache.RevokeStep | lock_client_cache.cc:276-317 | revoke after its wait loop, with the early return that keeps the mutex and the failing assertion |
| LockClient.LockClientCache.RetryStep | lock_client_cache.cc:319-350 | retry wakes the first waiter or leaves a flag |
| LockClient.LockClientCache.ReleaserStep | lock_client_cache.cc:76-96 | one round of the releaser up to the unlock, and when its assertion fails |
| LockClient.ListContains | lock_client_cache.cc:264-274 | true exactly when the list has the element |
| LockServer.LockServerCache.constructor | lock_server_cache.cc:28-40 | the server without locks |
| LockServer.LockServerCache.AcquireCall | lock_server_cache.cc:72-141 | grants a free lock, else queues the caller and revokes once |
| LockServer.LockServerCache.ReleaseCall | lock_server_cache.cc:143-174 | frees the lock for its holder, refuses others |
| LockServer.LockServerCache.StatCall | lock_server_cache.cc:176-190 | the caller's count for the lock |
| LockServer.LockServerCache.RevokerRound | lock_server_cache.cc:192-239 | pops one revoke and drops it only if it is out of date |
| LockServer.LockServerCache.FindFreeLocks | lock_server_cache.cc:292-303 | exactly the FREE locks, with or without waiters, each once |
| LockServer.LockServerCache.RetryerRound | lock_server_cache.cc:242-290 | pops the first waiter of every free lock |
| LockServerAccounting.StepAccounted | lock_server_cache.cc:72-303 | every handler call and round keeps the accounts of every lock |
| LockServerAccounting.EveryRunAccounted | lock_server_cache.cc:97-303 | in every run: FREE exactly when no client is recorded, waiters popped are the waiters queued in order and each gets one turn, counts are the grants, at most one revoke per grant |
| LockServerAccounting.RevokedIffWaitedFor | lock_server_cache.cc:97-135 | in every run a taken lock that others wait for has been revoked exactly once since its grant, and one that nobody waits for has not been |
| LockServerAccounting.HolderWasGranted | lock_server_cache.cc:72-141 | in every run the holder on record is the client granted last |
| LockServerAccounting.OnlyTheHolderReleases | lock_server_cache.cc:143-174 | in every run only the holder's release frees a lock, and it requeues the client if asked to |
| Extent.SubstrMeans | extent_server.cc:68 | the result of substr is exactly the bytes from the offset, as many as asked for or as there are |
| Extent.ReplaceMeans | extent_server.cc:321 | what every byte is after replace, whatever the lengths |
| Extent.ResizeMeans | extent_server.cc:318-320 | resize keeps the bytes it can and fills with zeros |
| Extent.WrittenMeans | extent_server.cc:305-327 | a write is its bytes at the offset, the old content elsewhere and zeros in a gap |
| Extent.EditIsWritten | extent_server.cc:318-321 | resize and replace on 32-bit lengths are the meant write whenever it ends below 4 GiB |
| Extent.WireSizes | rpc/marshall.h:37-42 | a write request is 48 bytes and a get reply 28 bytes longer than its data |
| Extent.ExtentServer.constructor | extent_server.cc:13-26 | the store without files |
| Extent.ExtentServer.PutFile | extent_server.cc:28-44 | stores content with its length as size |
| Extent.ExtentServer.Get | extent_server.cc:62-72 | byte i of the result is byte offset + i of the file, and there are as many as asked for or as the file has; a missing file, and an offset past the end, which throws |
| Extent.ExtentServer.GetAttr | extent_server.cc:74-85 | the size on record |
| Extent.ExtentServer.Write | extent_server.cc:305-327 | the edited content and its size and nothing else; a missing file, and a position past the end, which throws |
| Extent.ExtentServer.SetAttr | extent_server.cc:269-303 | the content is cut or zero-filled to the size, byte by byte |
| Extent.ExtentClient.constructor | extent_client.cc:12-24 | the empty cache |
| Extent.ExtentClient.Read | extent_client.cc:31-66 | fetches the whole file once; byte i of the result is byte offset + i of the cached copy, as many as asked for or as it has; aborts when the file is missing or the reply too large, throws past the end |
| Extent.ExtentClient.Write | extent_client.cc:222-254 | writes through when not cached, with every answer of the call, else into the cached copy |
| Extent.ExtentClient.Flush | extent_client.cc:197-220 | writes a modified copy back and drops it, or aborts when the write request is refused or the file missing |
| Extent.BatchedSame | extent_client.cc:222-254 | cached writes leave the bytes and size that direct writes would, and throw when they would |
| Extent.FlushEqualsDirect | extent_client.cc:197-254 | fetching, writing in the cache and flushing once completes and equals sending every write straight to the server if and only if the fetch and every single write fit a PDU, no write throws, and nothing was written or the whole file fits one request |
| Extent.LargeFlushAborts | rpc/connection.cc:251-256 | two writes of 6 MiB go through one by one and abort the client when flushed together |
| Coherence.ReadsSeeLatestWrites | extent_client.cc:31-66 | in every run of many clients every completed read has returned, byte by byte, what the writes before it left |
| Coherence.CachedReadReturns | extent_client.cc:58-65 | in every run a read of a cached file returns the bytes asked for, as the writes among all clients' actions so far left them |
| Coherence.FetchedReadReturns | extent_client.cc:31-66 | in every run so does a read that has to fetch the file, and it leaves the file in the cache as those writes left it |
| Coherence.HistoryIsActions | extent_client.cc:222-254 | in every run the history of a file is the writes among the actions, in order |
| Coherence.CacheOnlyUnderToken | lock_client_cache.cc:96-103 | in every run at most one client caches a file, only with a right to the lock, its copy is current, and without a copy the server is current |
| Coherence.RunCInv | yfs_client.cc:17-21 | the flush on release keeps the coherence invariant through every step |
| Acceptor.PropOrder | paxos.cc:16-26 | proposal numbers are totally ordered by number and then by name |
| Acceptor.StrAboveMeans | paxos.cc:16-26 | names compare at the first place where they differ, and a name is above its proper prefixes |
| Acceptor.CrashTransparent | paxos.cc:288-374 | after any requests, an acceptor that replays its log answers all later numbered requests as the one that kept running |
| Acceptor.StartsDurable | paxos.cc:263-285 | a new acceptor, founding or not, starts with a log that rebuilds it |
| Acceptor.FounderHasFirstView | paxos.cc:263-285 | the founding node starts with the first view as instance 1, any other with none |
| Acceptor.DurableStep | log.cc:17-60 | every handler logs enough to rebuild an acceptor that cannot be told apart |
| Acceptor.RestartUnnoticedIff | log.cc:37-39 | all requests, those with number 0 included, are answered alike if and only if replay restores the promised number with its name |
| Acceptor.ZeroNumberTellsRestart | log.cc:37-39 | an acceptor and a request with number 0 that tells its restart |
| Acceptor.AcceptorNode.constructor | paxos.cc:263-285 | a node starts with the state its log replays to, and the first one records the first view |
| Acceptor.AcceptorNode.LogRead | log.cc:17-60 | the loop over the records computes the replay |
| Acceptor.AcceptorNode.Preparereq | paxos.cc:288-321 | promise, old-instance answer or rejection, and what is logged |
| Acceptor.AcceptorNode.Acceptreq | paxos.cc:323-339 | accepts any number at least the promise, whatever the instance |
| Acceptor.AcceptorNode.Decidereq | paxos.cc:341-350 | commits an instance above the highest known one |
| Acceptor.AcceptorNode.CommitWo | paxos.cc:352-374 | records the value and resets the ballots |
| Proposer.QuorumsMeet | paxos.cc:59-70 | two majorities of one list share a member, repeated names included |
| Proposer.IsAMember | paxos.cc:41-48 | true exactly for members |
| Proposer.MajorityOf | paxos.cc:59-70 | true exactly when the places taken by l1's names are a majority of l2 |
| Proposer.NextNumber | paxos.cc:79-84 | the least number above the own last one and the promised one |
| Proposer.PrepareLoop | paxos.cc:146-202 | ends as the first reply that is no promise says: it learns v if and only if that reply is an old instance with v, is turned away if and only if it is a rejection; without such a reply, and only then, it collects exactly the nodes that promised and the highest reported proposal |
| Proposer.PrepareEnds | paxos.cc:174-198 | the same of the loop from any place on |
| Proposer.PrepareTakesHighest | paxos.cc:146-202 | the value taken is that of the highest-numbered accepted proposal among the replies |
| Proposer.AcceptLoop | paxos.cc:204-229 | a name is counted if and only if it answered yes at one of its places |
| Paxos.PrepareLoopIsSteps | paxos.cc:146-202 | the prepare loop run to its end counts and picks what the protocol's steps do |
| Paxos.AcceptLoopIsSteps | paxos.cc:204-229 | the accept loop counts what the protocol's vote steps do |
| Paxos.LearnedIsGotOld | paxos.cc:174-178 | a loop that learns v is the protocol's steps up to that reply and then the step GotOld, after which the round is over and the own acceptor has decided v unless it had decided before |
| Paxos.PickedIsSafe | paxos.cc:86-202 | whatever a majority of promises lets a proposer pick, no other value can be chosen at a lower number |
| Paxos.Agreement | paxos.cc:79-229 | in every run two rounds with an accept majority carry the same value and every decided acceptor has it |
| Paxos.DecidedAgree | paxos.cc:341-374 | in every run any two acceptors that decided the instance have the same value |
| Paxos.ToldIsDecided | paxos.cc:174-178 | in every run a node that is told a value, by a decide request or by the answer to its prepare, has decided that value |
| Paxos.PrepareAnswered | paxos.cc:288-321 | in every run a decided acceptor tells its value, an undecided one promises exactly the numbers above its promise and reports its highest vote, and any other request changes nothing |
| Paxos.AskAnswered | paxos.cc:323-339 | in every run an accept request is voted for exactly if its number is not below the promise |
| Paxos.CrashReplays | log.cc:17-60 | in every run a crash leaves what replaying the log rebuilds, and no request with a number from 1 up can tell |
| Paxos.StepInv | paxos.cc:79-382 | every step, crash and restart from the log included, keeps the invariant |
| Paxos.RunInv | paxos.cc:79-382 | the invariant and the durability of every log hold in every reachable state |
| Paxos.LateAcceptBreaksAgreement | paxos.cc:323-339 | a run of the steps as written, from the start, in which an accept request handled after the decision leads to two decided values |
| LogText.RoundTrip | log.cc:17-141 | the printed records are read back exactly if and only if every name is a word, every value a line and every number an unsigned |
| LogText.UnprintableIsLost | log.cc:90-141 | a name with a space and a value with a newline are not read back |
| LogText.ParsesPrintable | log.cc:27-57 | whatever the file holds, only printable records are read from it |
| LogText.FileCrashTransparent | log.cc:17-60 | a crash cannot be noticed down to the bytes of the log file |
| LogText.LogStaysPrintable | paxos.cc:288-374 | printable requests only ever log printable records |
| LogText.LinesTerminate | log.cc:62-74 | dump returns the text, with a newline added if the last line has none |
| LogText.PrintAppend | log.cc:90-141 | the file is the concatenation of the records written |
| LogText.PrintedIsTerminated | log.cc:90-141 | a printed log is newline-terminated, so dump and restore keep it |
| LogText.LogFile.constructor | log.cc:10-15 | the log on its file |
| LogText.LogFile.LogInstance | log.cc:90-105 | appends one done record |
| LogText.LogFile.LogHigh | log.cc:107-122 | appends one high record |
| LogText.LogFile.LogProp | log.cc:124-141 | appends one prop record |
| LogText.LogFile.LogRead | log.cc:17-60 | the reading loop replays exactly the records parsed and stops as the parse does |
| LogText.LogFile.Dump | log.cc:62-74 | the text, newline-terminated |
| LogText.LogFile.Restore | log.cc:76-87 | the file is replaced |
| LogText.LogFile.RestoreAndDump | log.cc:62-87 | dump after restore is the identity exactly on newline-terminated texts |
| XidWindow.WindowIsSet | rpc/rpc.cc:358-381 | after any updates, repeats included, the front is the largest k with 1..k all received and behind it are exactly the other received ids |
| XidWindow.Updated | rpc/rpc.cc:358-381 | one update adds one id to the set the list stands for and never lowers the front |
| XidWindow.PoppedMeans | rpc/rpc.cc:375-380 | the compress loop pops only consecutive ids and stops at the first gap |
| XidWindow.IteratorKept | rpc/rpc.cc:376-380 | whenever the compress loop pops, its iterator is on a later element |
| XidWindow.Rpcc.constructor | rpc/rpc.cc:124-125 | ids start at 1, received ids at 0 |
| XidWindow.Rpcc.NextHeader | rpc/rpc.cc:207-211 | a fresh id and the front of the window |
| XidWindow.Rpcc.UpdateXidRep | rpc/rpc.cc:358-381 | the insert and compress loops terminate and compute the update |
| ReplyWindow.FilledWindow | rpc/rpc.cc:656-692 | the window becomes exactly xid_rep+1 to max(previous last, xid), surviving entries unchanged |
| ReplyWindow.Checked | rpc/rpc.cc:642-725 | with xid_rep below xid the request is found, judged by its entry and remembered |
| ReplyWindow.ForgottenWhen | rpc/rpc.cc:690-698 | FORGOTTEN exactly when a header acknowledges its own id and an entry survives; without one the back of an empty list is read |
| ReplyWindow.PresentIffSeen | rpc/rpc.cc:642-725 | over any history the window remembers exactly the ids with a processed copy that nothing acknowledged since |
| ReplyWindow.NewIffUnseen | rpc/rpc.cc:556-608 | a request is executed if and only if no earlier copy is unacknowledged; otherwise it is INPROGRESS or DONE |
| ReplyWindow.StoredIsBuffer | rpc/rpc.cc:610-624 | the reply of an unacknowledged execution stays in the window |
| ReplyWindow.DoneIsStored | rpc/rpc.cc:701-708 | DONE carries exactly the bytes stored last for the id |
| ReplyWindow.AcknowledgedRunsAgain | rpc/rpc.cc:679-683 | a late copy of an acknowledged request is NEW again |
| ReplyWindow.Rpcs.constructor | rpc/rpc.h:278-280 | no windows |
| ReplyWindow.Rpcs.CheckDuplicateAndUpdate | rpc/rpc.cc:642-725 | the trim, fill and search loops terminate and compute the check on that client's window only |
| ReplyWindow.Rpcs.StoreReply | rpc/rpc.cc:610-624 | the reply goes into that id's entry only |
| Rpc.HeadersAreOrdered | rpc/rpc.cc:207-211 | in every run every header has xid_rep below xid, so the server never exits and never forgets |
| Rpc.HeaderSays | rpc/rpc.cc:207-211 | in every run a call's header has an id no earlier header has, counting the calls, and acknowledges k exactly if each of 1..k, and not k+1, was the id of a reply received or a call that returned before |
| Rpc.AtMostOnce | rpc/rpc.cc:472-608 | in every run over a network that loses, repeats and reorders, a request that is still open has been executed at most once |
| Rpc.DeliveryComesTo | rpc/rpc.cc:556-598 | in every run the first copy of an open request is executed, one during the execution is dropped and one after it is answered with the result |
| Rpc.ResultIsSent | rpc/rpc.cc:562-588 | in every run a finished execution sends its result |
| Rpc.ReplyIsTheResult | rpc/rpc.cc:320-355 | when a waiting call takes a reply its request was executed exactly once and the reply is that result |
| Rpc.StepInv | rpc/rpc.cc:188-624 | every call, delivery, execution, reply and timeout keeps the invariant of the two windows |
| Rsm.Replica.constructor | rsm.cc:98-115 | a replica with the initial viewstamps |
| Rsm.Replica.Invoke | rsm.cc:414-439 | executes the next seqno of its view and no other |
| Rsm.Replica.ClientInvoke | rsm.cc:347-406 | returns OK, executes and advances if and only if it is primary outside a view change and every other member answered with 0 or more, an error included; a member is sent the request if and only if it has a connection and everyone before it answered so; with which viewstamp |
| Rsm.CallMembers | rsm.cc:373-396 | the loop calls members up to the first failure and tells whether there was one |
| Rsm.ContactedMeans | rsm.cc:376-395 | a member is contacted if and only if it has a connection and every other member before it answered with 0 or more |
| Rsm.ContactedInOrder | rsm.cc:373-396 | the members are contacted in the order of the list |
| Rsm.AllContacted | rsm.cc:376-397 | a call that no failure stops is sent to exactly the other members |
| RsmOrder.BackupsFollow | rsm.cc:347-439 | in every serial run each backup is at the primary's seqno or one more and has executed all seqnos in order, each once |
| RsmOrder.OkMeansAll | rsm.cc:376-403 | when client_invoke returns OK every backup is at exactly the new seqno, whatever it answered |
| RsmOrder.OnceIffSerial | rsm.cc:415-439 | a run executes no seqno twice at a node if and only if no invoke passes its test between another's execution and its update of myvs |
| RsmOrder.OverlapExecutesTwice | rsm.cc:421-435 | for any two requests, a run in which the handlers of a timed-out one and of its successor overlap and a backup executes one seqno twice |
| RsmOrder.EqualStampsEqualStates | rsm.cc:347-439 | if each seqno was stamped for one request, nodes with equal viewstamps are in equal states of any deterministic machine |
| RsmOrder.ReusedSeqnoDiverges | rsm.cc:388-396 | a timed-out request and its successor with the same seqno leave primary and backup in different states |
| RsmOrder.StepInv | rsm.cc:347-439 | every step that does not overlap another handler keeps the ordering invariant |
| RsmCalls.EveryOutcomeIsPlayed | rsm.cc:368-405 | after every run that leaves the primary idle, any outcome of the calls is a continuation of the protocol, refusals answered too, that moves the primary on if and only if every other member answered and sends to exactly the members contacted |
| RsmCalls.EveryCallIsAnOutcome | rsm.cc:368-405 | in every run the primary's steps of a call are those of some outcome, and the call finishes if and only if every other member answered in it |
| RsmCalls.FinishIsOk | rsm.cc:389-405 | those steps end in Finish if and only if the loop over the members is not stopped |
| Wire.Exact | rpc/rpc.cc:736-957 | a message decodes to its values with okdone; of its prefixes and extensions only itself is okdone, and a strict prefix is not even ok |
| Wire.Decodes | rpc/marshall.h:208-256 | every typed value followed by anything decodes to itself and leaves what follows |
| Wire.Agrees | rpc/rpc.cc:864-957 | an extraction that stays ok is the same when more bytes follow |
| Wire.WordIsBigEndian | rpc/rpc.cc:791-800 | a word goes out as its four bytes, highest first |
| Marshalling.Marshall.constructor | rpc/marshall.h:52-57 | 1024 bytes with the head behind the header |
| Marshalling.Marshall.RawByte | rpc/rpc.cc:736-746 | appends one byte, growing within bounds |
| Marshalling.Marshall.RawBytes | rpc/rpc.cc:748-759 | appends the bytes, growing within bounds |
| Marshalling.Marshall.PutWord | rpc/rpc.cc:791-800 | appends four bytes, highest first |
| Marshalling.Marshall.PutShort | rpc/rpc.cc:776-782 | appends two bytes, highest first |
| Marshalling.Marshall.PutLong | rpc/rpc.cc:817-823 | appends the high and then the low word |
| Marshalling.Marshall.PutString | rpc/rpc.cc:809-815 | appends the size and the bytes |
| Marshalling.Marshall.Put | rpc/marshall.h:208-240 | appends the encoding of any value of any marshallable type |
| Marshalling.Marshall.PutItems | rpc/marshall.h:208-215 | appends the size and every element in order |
| Marshalling.Marshall.Pack | rpc/rpc.cc:825-832 | one header word in place, the bytes behind it untouched |
| Marshalling.Marshall.PackReqHeader | rpc/marshall.h:82-95 | fills bytes 4 to 24 and leaves size field and payload alone |
| Marshalling.Marshall.PackReplyHeader | rpc/marshall.h:97-107 | fills bytes 4 to 12 and leaves the rest alone |
| Marshalling.Unmarshall.constructor | rpc/marshall.h:134 | reads from the start of the buffer |
| Marshalling.Unmarshall.TakeIn | rpc/rpc.cc:843-851 | takes a buffer over behind its header, not ok if it is too short |
| Marshalling.Unmarshall.RawByte | rpc/rpc.cc:864-873 | one byte, or zero and not ok |
| Marshalling.Unmarshall.RawBytes | rpc/rpc.cc:946-957 | n bytes, or the target unchanged and not ok |
| Marshalling.Unmarshall.GetWord | rpc/rpc.cc:906-914 | the number whose digits are the next four bytes |
| Marshalling.Unmarshall.GetLong | rpc/rpc.cc:926-934 | the number whose digits are the next eight bytes |
| Marshalling.Unmarshall.GetString | rpc/rpc.cc:936-944 | the size and, if that was ok, the bytes |
| Marshalling.Unmarshall.Get | rpc/marshall.h:217-256 | the value of any marshallable type |
| Marshalling.Unmarshall.GetItems | rpc/marshall.h:217-228 | pushes the elements in order |
| Marshalling.Unmarshall.GetEntries | rpc/marshall.h:242-256 | assigns the entries to a cleared map |
| Marshalling.Unmarshall.Unpack | rpc/rpc.cc:834-841 | one header word, with how much of the header has been read |
| Marshalling.Unmarshall.UnpackReqHeader | rpc/marshall.h:173-185 | exactly the header whose bytes are at 4 to 24, or not ok |
| Marshalling.Unmarshall.UnpackReplyHeader | rpc/marshall.h:187-196 | exactly the header whose bytes are at 4 to 12, or not ok |
| Marshalling.HeadersDiffer | rpc/marshall.h:82-95 | different headers have different bytes |
| StateTransfer.NewReplica | lock_server_cache.cc:305-436 | a new replica gets every lock map, retry list, revoke queue and count exactly and a handle for precisely the subscribed clients |
| StateTransfer.ServerTransferred | lock_server_cache.cc:305-436 | the lock server's own state goes over the wire unchanged: same locks, same revoke queue, handles for the subscribed clients |
| StateTransfer.UsedReplica | lock_server_cache.cc:360-436 | a used replica does if and only if it has no revokes and no retry list or count the sender lacks |
| StateTransfer.Transferred | lock_server_cache.cc:360-436 | what any replica makes of any transferred state |
| StateTransfer.LockServerState.constructor | lock_server_cache.cc:28-40 | the empty replica |
| StateTransfer.LockServerState.MarshalState | lock_server_cache.cc:305-358 | the bytes of the seven fields, maps from their least key |
| StateTransfer.LockServerState.UnmarshalState | lock_server_cache.cc:360-436 | replaces four maps, overlays two, appends the revokes and adds the handles |
| Framing.DeliveredArePrefix | rpc/connection.cc:105-278 | in every run, whatever the short reads and writes and refusals, the PDUs delivered are an intact in-order prefix of those sent |
| Framing.NoByteLost | rpc/connection.cc:204-278 | in every run the bytes between the two ends are exactly the PDUs still to be delivered |
| Framing.AllDelivered | rpc/connection.cc:105-278 | when nothing is in transit everything sent has been delivered |
| Framing.DiesOnlyOnFailure | rpc/connection.cc:228-278 | in every run a connection dies exactly on a size that comes in pieces or not at all and on a failed read, never on a size that was sent |
| Framing.OfferedIsNext | rpc/connection.cc:175-202 | in every run a PDU that is taken is the next one sent, and a refused one is offered again |
| Framing.WriteComesTo | rpc/connection.cc:204-226 | in every run a write puts the next bytes of its PDU behind the others, or nothing if it would block |
| Framing.ReturnComesTo | rpc/connection.cc:105-152 | in every run a sender that returns has written its whole PDU and leaves the connection free |
| Framing.NothingAfterFailure | rpc/connection.cc:204-226 | in every run nothing is sent or written after a failed write |
| Framing.ReadIsSteps | rpc/connection.cc:228-278 | one call of readpdu is the protocol's steps for the size and for the body |
| Framing.SizeIsNext | rpc/connection.cc:231-262 | the four bytes read as a size are the size of the next PDU |
| Framing.StepInv | rpc/connection.cc:105-278 | every step at either end keeps the framing invariant |
| Framing.Connection.constructor | rpc/connection.cc:18-32 | a live connection without PDUs |
| Framing.Connection.WritePdu | rpc/connection.cc:204-226 | stamps the size once and hands the next bytes of the PDU to the stream |
| Framing.Connection.ReadPdu | rpc/connection.cc:228-278 | reads the size and then some of the body, or dies |
| Framing.Connection.ReadCb | rpc/connection.cc:175-202 | reads on and hands over a complete PDU once it is accepted |

## Left out

- LockProtocol.StepInv: safety only; liveness and deadlock freedom are not claimed, and threads may wake at any time, so condition variables and their timeouts are not modelled.
- LockProtocol.RunInv: assumes one stable primary for the lock service, each RPC handled once, handlers that run one at a time, and positive distinct client ids.
- LockServer.LockServerCache.AcquireCall: reads and writes of the handlers outside their mutex and signals are not modelled.
- LockServer.LockServerCache.RetryerRound: whether the node is primary is a free choice in each call, not derived from the view.
- LockClient.LockClientCache.RetryStep: the wait for m_cond_waiting and the signal are not modelled, since a thread may wake at any time.
- LockClient.LockClientCache.ReleaserStep: the timed wait on the empty queue is not modelled; the queue is not empty.
- LockWaiting.RefusedIsNotForgotten: the calls to the client were made, that is the node stayed primary meanwhile; a node that is not primary pops the waiter and does not call it.
- Coherence.ReadsSeeLatestWrites: files exist, reads start within the file and writes end below 4 GiB; a call above the PDU limit is no step, since read and flush abort there and an uncached write returns an error; createFile, remove, cached setAttr, modes and timestamps do not satisfy the refinement and are not modelled.
- Extent.FlushEqualsDirect: the file's size on record is its length, as put and write leave it; allocation does not fail, and the modes that flush sends as well are not modelled.
- Extent.ExtentClient.Write: entries marked REMOVED are not modelled.
- Extent.ExtentClient.Flush: setMode is not modelled.
- Extent.ExtentServer.constructor: the root directory entry is not modelled.
- Extent.ExtentServer.PutFile: times are not kept.
- Extent.ExtentServer.GetAttr: times are not kept.
- Extent.ExtentServer.SetAttr: times are not kept and directories are not modelled.
- Extent.ExtentServer.Write: content and attribute of a file are one record, and modes and times are not kept.
- Paxos.Agreement: assumes that a proposer runs one round at a time and does not restart in the middle of an instance, that proposed values are not empty, and that no accept request is handled by an acceptor that has decided; the counterexample shows the last is needed, but that a run violating it always disagrees is not true and not claimed.
- Acceptor.AcceptorNode.CommitWo: the upcall with the mutex released is not modelled.
- Paxos.StepInv: one instance; instances that follow each other, views, heartbeats, joining and recovery are not modelled.
- LogText.LogFile.LogRead: when an extraction fails in the middle of a record the source still assigns the fields it has read; the model stops before that record.
- LogText.LogFile.constructor: the file name is not modelled, and the reading at construction is LogRead.
- LogText.RoundTrip: a record torn by a crash in the middle of a write is not modelled, and signs in numbers, which the program never prints, are read as a failed extraction.
- Rpc.AtMostOnce: one client and one server instance; the nonce-0 client without at-most-once logic, binding, retransmission timers and threads are not modelled.
- RsmOrder.EqualStampsEqualStates: shown in one direction with a diverging run beside it, since a seqno stamped twice does no harm when the first request reached no backup.
- RsmOrder.BackupsFollow: one view with fixed members; view change, state transfer between views and client retries are not modelled.
- Rsm.Replica.Invoke: the two steps of the handler run together here; RsmOrder separates them.
- Wire.Exact: map entries are kept in iteration order, and the 32-bit wrap-around of the cursor plus a size is not modelled.
- Marshalling.Unmarshall.RawBytes: the 32-bit wrap-around of the cursor plus a size is not modelled.
- ReplyWindow.Rpcs.CheckDuplicateAndUpdate: what reading the back of an empty list does is not modelled; the result names the case.
- Marshalling.Marshall.RawByte: sizes stay below 2^31, so the capacity does not overflow.
- StateTransfer.LockServerState.UnmarshalState: a failed bind exits the process and is not modelled; sizes are the 4-byte ones of a 32-bit build.
- Framing.Connection.ReadPdu: sizes on the wire are above 4, as those of all PDUs sent are; a size of 2^31 or more, a negative number in the source, counts as too big here; a read returns no more than it was asked for.
- Framing.Connection.ReadCb: as for ReadPdu.
- Framing.Connection.WritePdu: the waiting of concurrent senders and the lossy test mode are not modelled.
- Wrap-around of xid, seqno, seqid and proposal numbers: numbers are unbounded.
- Directory operations of the extent server: random ids and overwritten names leave no tree invariant.
- FUSE glue, process start-up, testers, poll manager, thread pool, queue, handle and reference counts: operating-system code or easy members.
