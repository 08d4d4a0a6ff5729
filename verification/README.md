# Verification of the distributed YOLO store

A Dafny model of the parts of the repository that coordinate servers, with proofs over every input
and every run:

- **Raft** (`src/raft/RaftNode.cpp`): elections, replication, commit and apply. `RaftNodeObject`
  holds the node as a class whose methods truncate and append the log, fill the index maps and
  apply entries in place; each method is proved against a step function of `RaftSteps` or
  `RaftRounds`. `RaftCluster` is the transition system of a whole cluster. `RaftHistory` to
  `RaftRuns` prove one inductive invariant for all its runs, `RaftSafety` draws the safety claims
  from it without mentioning the history, and `RaftAtomicRounds` shows that the interleaved steps
  of a run amount to whole calls of the class's methods. Safety is half of it: `RaftAnswers` and
  `RaftReplies` say what every answer means, `RaftCommitProgress` that nothing is left uncommitted,
  and `RaftProgress` and `RaftNeverStuck` that every run can go on to elect, commit and apply.
  `RaftVariants` decides which clusters keep the safety claims under each reading of the code.
- **Routing** (`src/cluster/ShardRouter.cpp`, `src/server/Connection.cpp`,
  `src/server/Server.cpp`): rendezvous hashing and forwarding between servers whose views differ.
- **Connection pool** (`src/raft/RaftConnectionPool.cpp`): ownership of descriptors over all
  sequences of operations.
- **Framing** (`src/server/Protocol.cpp`): length-prefixed messages over a byte stream.

`dafny verify dfyconfig.toml` checks everything.

## How the code is modelled

- **Atomic steps.** A request handler and `submitLog` run under the node's lock and are one step.
  An election and a heartbeat round hold the same lock across all their calls; their steps are
  interleaved with those of other servers, and the busy server handles no requests meanwhile.
- **Calls.** Any call may fail. The wire is a set that only grows, so a request may be handled
  late, more than once or never, and a reply may be lost.
- **Replies.** The code does not compare terms, and a call whose reply has not come yet fails and
  puts its connection back into the pool, where the reply waits to be read by a later call
  (`src/raft/RaftNode.cpp:258-262`, `335-339`). `Config.matchesReplies` covers both readings: true
  is the evident intent, that a call takes only the reply to its own request; under false it
  may also take any reply of that peer to an earlier request of the same kind.
- **Undefined behaviour.** A vector access out of range lets the whole cluster go anywhere
  (`RaftCluster.StepBy`). So no theorem about runs is available until
  `RaftSafety.AccessesStayInRange` is proved.
- **Entries in requests.** `heartbeatLoop` collects the entries to send but never stores them in
  the request (lines 168-173), although it advances the indices past them. `Config.sendsEntries`
  covers both readings: true is the evident intent, false the code as it stands.
- **Which claims need which reading.** `RaftVariants` gives the exact conditions for all four
  combinations. The lemmas of `RaftSafety` are about matched replies (`Running`): election
  safety, single votes, log matching, monotonicity and access safety need no more; state machine
  safety, leader completeness and match index soundness also need the entries (`RunningFully`).
  `RaftAsWrittenRuns` is about matched replies without entries.
- **Quorums.** Nothing assumes that a commit needs a majority: the code commits with (N-1)/2+1 of
  N servers, half of an even cluster, and elects with N/2+1.
- **Membership.** Fixed and common, with non-empty distinct ids. `Forwarding` shows that servers
  which found the same nodes healthy at start-up hand their Raft nodes such a membership.
- **Numbers.** Terms, indices and hash values are natural numbers; frame lengths are cut to 32
  bits as in the code.
- **Environment.** The hash is any function. The validity check of a pooled connection, the
  outcome of connecting, health checks, the clock and the number of bytes a socket accepts or
  delivers are parameters. Descriptors are closed through a table that refuses to close one twice.
- **Receiving.** `recvAll` exists but nothing calls it; `recvMessage` uses MSG_WAITALL. On a
  blocking socket that waits; every socket it is called on is set non-blocking
  (`src/server/Server.cpp:235-236`, `src/server/Connection.cpp:253-254`,
  `src/raft/RaftConnectionPool.cpp:165-166`), where it returns what has arrived. Both kinds are
  modelled, and so is that a header or body cut short is accepted.

## Results that are not as one would hope

- State machine safety holds in every run of a cluster if and only if the cluster has one server,
  or replies are matched to their requests and either requests carry their entries or there are
  only two servers (`RaftVariants.SafeIff`). The code as it stands neither matches replies nor
  sends entries, so it is safe for a single server only. The stores diverge in exactly the same
  cases (`RaftVariants.StoresSafeIff`).
- Election safety holds in every run of a cluster if and only if replies are matched or there is
  at most one server (`RaftVariants.ElectionSafeIff`): votes left unread in one term elect a
  leader in a later one.
- Provided each reply answers its own request, but without the entries: two servers agree if and
  only if they are the same or one has applied nothing (`RaftAsWrittenRuns.AgreeIff`), every run
  is safe if and only if there are at most two servers (`RaftAsWrittenRuns.SafeClusterIff`), and
  with three or more if and only if at most one accepts submissions
  (`RaftAsWrittenRuns.SubmittersIff`). One exchange is sound whatever the follower holds if and
  only if nextIndex already equals the length of the leader's log
  (`RaftAsWritten.AsWrittenSoundIff`).
- The health check sends four bytes without a length. A server of this program reads them as a
  length above 1 MiB and gives the connection up without a reply (`Framing.PingIsRefused`), so
  every check of another such server fails. Then a server's view holds only itself, it serves
  every key itself and its Raft node has no peers (`Forwarding.FailedChecksLeaveAlone`); such a
  node never applies anything (`RaftVariants.LoneServerNeverApplies`), while two or more servers
  could, if requests carried their entries and replies were matched, still bring every command
  into every store (`RaftNeverStuck.NeverStuckIff`).
- Servers that know themselves can forward a key back and forth for ever if and only if two ids tie
  for it (`Forwarding.TerminatesIffNoTies`). They cannot when all start from one node list.
- A server that its own node list does not name is not in its own view. It picks another server
  for every key, and for some tie-free hash that one picks it in turn, so that the key is
  forwarded for ever: a view is safe for all tie-free hashes if and only if the server is in it
  (`Forwarding.SafeViewIff`), which is if and only if its list names it
  (`Forwarding.KnowsItselfIffListed`).
- Releasing a connection under another peer's name closes it but leaves its owner entry behind;
  the pool's invariant survives if and only if the name is right
  (`PoolSpec.ReleaseKeepsPoolOkIff`).
- On the non-blocking sockets in use a message is received intact if and only if its header has
  arrived whole when it is asked for, and then its body (`Framing.InTimeIff`,
  `Framing.AllInTimeIff`). A pause inside a body tears the message, and what comes later is
  read as the next header (`Framing.PauseTears`). A header cut short is taken for a smaller length,
  and its remaining bytes for the start of the message (`Framing.CutHeaderMisleads`).
- On a blocking socket a stream that ends inside a message body is read as one more complete
  message, filled up with old bytes of the reused vector; it is handled correctly if and only if
  it does not end there (`Framing.CutIsCleanIff`).

## Model

| member | source | states |
|---|---|---|
| RaftSafety.StateMachineSafety | src/raft/RaftNode.cpp:477-492 | Any two nodes, at any two points of any run of a cluster of any size, have applied the same entries up to the smaller lastApplied |
| RaftSafety.StoresAreOneHistory | src/raft/RaftNode.cpp:477-492 | Every store is the fold of puts over log[1..commitIndex]; of two stores the one further on is the other plus the later puts |
| RaftSafety.CommittedInLaterLeaders | src/raft/RaftNode.cpp:184-198 | Leader completeness: what any node has committed is in the log of every leader of the same or a later term from then on, for odd and even clusters |
| RaftSafety.ElectionSafety | src/raft/RaftNode.cpp:101-151 | A term has at most one leader over all interleavings with late requests and lost replies |
| RaftSafety.SingleVote | src/raft/RaftNode.cpp:364-398 | A node grants one candidate per term, although an AppendEntries request raises the term and leaves the old vote in place |
| RaftSafety.LogMatching | src/raft/RaftNode.cpp:416-443 | Logs, also at different times, with the same term at a position are equal up to it; every index field is the entry's position |
| RaftSafety.MessageMatching | src/raft/RaftNode.cpp:164-175 | The same between every log and the entries of every request in flight |
| RaftSafety.NodesAdvance | src/raft/RaftNode.cpp:425-451 | Over any stretch of a run terms, commitIndex and lastApplied never decrease and no committed entry is truncated; within a leadership the log only grows and match indices never decrease |
| RaftCommitProgress.CommittedIff | src/raft/RaftNode.cpp:184-198 | At any point of any run: of the entries of its own term a leader has committed, and applied, exactly those that half of the servers, rounded up, hold as far as it knows, one of them besides itself |
| RaftCommitProgress.SuccessfulReplyCommits | src/raft/RaftNode.cpp:179-199 | After a successful reply every entry of the leader's term that half of the servers, rounded up, hold is committed and applied, and a commit index that has risen has risen to such an entry |
| RaftNeverStuck.NeverStuckIff | src/raft/RaftNode.cpp:101-221 | With entries sent and replies matched, every run can be continued, by calls that go through or fail, until any given key and value is in every store, if and only if there are at least two servers |
| RaftNeverStuck.NeverStuck | src/raft/RaftNode.cpp:153-221 | One such continuation, after which all stores are equal: somebody is elected, accepts the command, replicates and commits it, and everybody applies it |
| RaftProgress.RunsCanElect | src/raft/RaftNode.cpp:84-151 | Every run can be continued to one in which a given server leads, if with some voters it makes a majority and its log is at least as recent as theirs, whatever they are doing; no log changes on the way and nobody else moves |
| RaftElectors.ElectedByMajority | src/raft/RaftNode.cpp:113-140 | And only such a server is elected: with the voters, each of which had a log no more recent than the winner's and voted for it in its term, it makes a majority |
| RaftSubmissions.EntriesWereSubmitted | src/raft/RaftNode.cpp:458-475 | Every entry of every log was submitted, with its key and value, to a server that led its term and gave it its position |
| RaftSubmissions.StoresHoldSubmissions | src/raft/RaftNode.cpp:477-492 | What a store holds for a key was submitted for it to a leader and is committed in the node's log |
| RaftSubmissions.SubmissionAppends | src/raft/RaftNode.cpp:458-475 | In a run a submission appends exactly one entry at a leader and changes nothing elsewhere |
| RaftReplies.VotesWereRight | src/raft/RaftNode.cpp:364-398 | Every vote on the wire was granted if and only if, when the request was handled, its term was not older, the voter had no vote for another in it and the candidate's log was at least as recent; it carries the higher of both terms |
| RaftReplies.AcksWereRight | src/raft/RaftNode.cpp:400-456 | Every AppendEntries reply on the wire succeeded if and only if the term was not older and the log check passed when it was handled; a refusal carries the sender's term at the time, and a request of an older term changed nothing |
| RaftReplies.DeposedIff | src/raft/RaftNode.cpp:200-206 | A reply ends a leadership if and only if the peer was in a later term when it handled the leader's request; the leader is then a follower of exactly that term, without a vote, and its round is over |
| RaftReplies.AckStep | src/raft/RaftNode.cpp:178-213 | In a run each outcome of a replication call has the effect RaftAnswers.AckTaken describes |
| RaftAtomicRounds.ElectionsAreDecided | src/raft/RaftNode.cpp:101-151 | In a run an election is decided by the replies to its own request, which describes the candidate's log, as RaftRounds.ElectionDecides says |
| RaftMatchIndex.MatchIndexSound | src/raft/RaftNode.cpp:179-182 | Each peer did hold the leader's log through matchIndex at some time in the leader's term, wherever it is now, and keeps it while its term is the leader's, also later on; nextIndex lies in 1..length of the log |
| RaftMatchIndex.RepliesWereTrue | src/raft/RaftNode.cpp:416-455 | Every successful AppendEntries reply on the wire was true when it was sent: the peer was in that term and had all the request asked for |
| RaftSafety.FollowerCommitsOnlyChecked | src/raft/RaftNode.cpp:445-451 | Every request in flight has leaderCommit at most prevLogIndex plus the number of entries, so a follower with a longer tail commits only entries compared with the leader's |
| RaftSafety.AccessesStayInRange | src/raft/RaftNode.cpp:164-191 | No enabled step of any reachable state indexes a log or an index map out of range |
| RaftRuns.StepKeepsInv | src/raft/RaftNode.cpp:101-221 | The invariant is inductive: each step of any server extends the history and keeps it |
| RaftAtomicRounds.ElectionIsOneRound | src/raft/RaftNode.cpp:84-151 | However other servers interleave, an election in a run has exactly the effect of one call of startElection for outcomes that are replies to its own request |
| RaftAtomicRounds.HeartbeatIsOneRound | src/raft/RaftNode.cpp:153-221 | The same for a heartbeat round, each reply answering the request built at its turn |
| RaftConvergence.RunsCanCatchUp | src/raft/RaftNode.cpp:153-221 | Every run with a leader and a peer whose term is not ahead, whatever the two are doing, can be continued to a state where the leader still leads the same term and the peer holds its whole log |
| RaftConvergence.CatchUpInRuns | src/raft/RaftNode.cpp:207-212 | From any reachable state, if the calls between the two go through one after the other, at most nextIndex of them make the leader's log a prefix of the peer's |
| RaftCatchUp.CatchUpConverges | src/raft/RaftNode.cpp:164-182 | The same for any leader and follower with matching logs, and nextIndex and matchIndex end at the leader's log |
| RaftCatchUp.ExchangeIsThreeSteps | src/raft/RaftNode.cpp:164-216 | The exchange used there is three consecutive steps of the cluster |
| RaftCatchUp.BackOff | src/raft/RaftNode.cpp:207-212 | A failed log check lowers nextIndex by one and changes no log; it cannot happen at the dummy entry |
| RaftVariants.SafeIff | src/raft/RaftNode.cpp:101-221 | Every run of a cluster keeps state machine safety if and only if it has at most one server, or replies are matched to their requests and either requests carry their entries or there are at most two servers |
| RaftVariants.StoresSafeIff | src/raft/RaftNode.cpp:477-492 | In every run of a cluster of two stores the one further on is the other plus later puts, under exactly the same condition |
| RaftVariants.ElectionSafeIff | src/raft/RaftNode.cpp:101-151 | Every run of a cluster has at most one leader per term if and only if replies are matched to their requests or there is at most one server |
| RaftVariants.LoneServerNeverApplies | src/raft/RaftNode.cpp:158-198 | A server without peers never applies anything, whatever it accepts |
| RaftUnmatched.UnmatchedElectsTwo | src/raft/RaftNode.cpp:113-133 | Without matching, any two servers of any cluster can both lead the same term, on votes of earlier terms left unread |
| RaftUnmatched.UnmatchedViolatesStateMachineSafety | src/raft/RaftNode.cpp:113-198 | And both can apply an entry of their own at index 1, with or without entries in the requests, so that their stores differ |
| RaftAsWrittenRuns.SafeClusterIff | src/raft/RaftNode.cpp:159-198 | Provided each reply answers its own request, every run of a cluster without entries in its requests keeps state machine safety if and only if the cluster has at most two servers |
| RaftAsWrittenRuns.SubmittersIff | src/raft/RaftNode.cpp:458-475 | Under the same proviso, with three servers or more, every run in which only given servers accept submissions is safe if and only if there is at most one of them |
| RaftAsWrittenRuns.AgreeIff | src/raft/RaftNode.cpp:159-198 | Provided each reply answers its own request, but without entries: two servers agree, at any two points of any run, if and only if they are the same or one of them has applied nothing |
| RaftAsWrittenRuns.SafeRunIff | src/raft/RaftNode.cpp:477-492 | Under the same proviso a run without entries is safe if and only if no two servers ever apply anything |
| RaftAsWrittenRuns.OneSubmitterIsSafe | src/raft/RaftNode.cpp:458-475 | Under the same proviso a run without entries is safe if only one server ever accepts submissions |
| RaftAsWrittenRuns.EntriesAreOwn | src/raft/RaftNode.cpp:168-173 | Under the same proviso and without entries every entry of a log comes from the server itself, in a term that it led |
| RaftViolation.AsWrittenViolatesStateMachineSafety | src/raft/RaftNode.cpp:168-198 | Even with matched replies, any two servers of a cluster of at least three have a run without entries after which they alone have entries, have applied different ones at index 1, and for different values have different stores |
| RaftAsWritten.AsWrittenSoundIff | src/raft/RaftNode.cpp:168-182 | As it stands an exchange leaves matchIndex sound for every follower if and only if nextIndex is the length of the leader's log |
| RaftAsWritten.AsWrittenSoundForFollower | src/raft/RaftNode.cpp:168-182 | For one follower: if and only if it has no entry or one of another term just before nextIndex, or already has the leader's whole log |
| RaftAsWritten.IntendedIsSound | src/raft/RaftNode.cpp:168-182 | With the entries sent every exchange leaves matchIndex sound |
| LogMerge.MergeUnchanged | src/raft/RaftNode.cpp:421-443 | Handling entries leaves the log alone exactly when it already has all their terms |
| LogMerge.MergeIs | src/raft/RaftNode.cpp:421-443 | For any log and entries, position by position: a carried entry replaces what is there unless all terms up to it were there already, and the tail stays exactly if all were |
| LogMerge.MergeAbsorbsPrefix | src/raft/RaftNode.cpp:421-443 | Handling a request twice, or a shorter one afterwards, changes nothing |
| LogMerge.MergeIgnoresStale | src/raft/RaftNode.cpp:421-443 | A late request of the same leader, with any start, changes nothing where the log already has the leader's entries |
| LogMerge.MergeFollowsLeader | src/raft/RaftNode.cpp:421-443 | The result agrees with the leader through the last entry and is the old log or exactly that part of the leader's |
| LogMerge.MergeKeepsCommonPrefix | src/raft/RaftNode.cpp:425-431 | Erasing never touches a prefix that the log shares with the leader's |
| CommitRule.CommitCandidateIsGreatest | src/raft/RaftNode.cpp:184-192 | Element (n-1)/2 of the descending sort is the greatest index that at least (n-1)/2+1 nodes have reached |
| CommitRule.CommitCandidateIgnoresOrder | src/raft/RaftNode.cpp:186-192 | The order in which the hash map yields the match indices is irrelevant |
| CommitRule.CommitMeetsVote | src/raft/RaftNode.cpp:136-137 | Any commit quorum meets any vote quorum, for every cluster size |
| RaftRounds.ElectionDecides | src/raft/RaftNode.cpp:116-151 | If some outcome is a refusal from a term above the candidacy's, the first one makes the node a follower of that term without a vote; otherwise it leads if and only if 1 plus the grants reaches N/2+1, and then expects every peer to have its log and knows of nothing replicated |
| RaftAnswers.VoteAnswered | src/raft/RaftNode.cpp:364-398 | When a vote is granted, over the last entries of the two logs, and what the node's state is afterwards |
| RaftAnswers.AppendAnswered | src/raft/RaftNode.cpp:400-456 | When a request succeeds, which term the reply carries, and the log, commit index and store afterwards, entry by entry |
| RaftAnswers.AckTaken | src/raft/RaftNode.cpp:178-213 | What a leader makes of a lost reply, a success, a refusal from a later term and any other refusal: both indices of the peer, the commit index as the last entry of its term that half of the servers, rounded up, hold, and whether its round goes on |
| RaftRedelivery.AppendRequestTwice | src/raft/RaftNode.cpp:400-456 | Handling a request twice leaves the node as after once, and succeeds again exactly if it did |
| RaftRedelivery.VoteRequestTwice | src/raft/RaftNode.cpp:364-398 | The same for vote requests, which also get the same reply |
| RaftNodeObject.RaftNode.constructor | src/raft/RaftNode.cpp:18-32 | The initial state, with the dummy entry at index 0 |
| RaftNodeObject.RaftNode.HandleRequestVote | src/raft/RaftNode.cpp:364-398 | The vote is granted if and only if the term is not older, no other candidate has the node's vote in it, and the candidate's log is at least as recent by last term and index; the new state and reply are those the run theorems are about |
| RaftNodeObject.RaftNode.HandleAppendEntries | src/raft/RaftNode.cpp:400-456 | A request succeeds if and only if its term is not older and the entry before the carried ones is there; a refusal carries the term the node had and an older request changes nothing; otherwise the entries are merged and commits follow the leader's |
| RaftNodeObject.RaftNode.MergeLogs | src/raft/RaftNode.cpp:421-443 | The two loops compute the declarative merge and keep every index field equal to its position |
| RaftNodeObject.RaftNode.ApplyCommittedLogs | src/raft/RaftNode.cpp:477-492 | The loop's effect is the fold of puts over the newly committed entries |
| RaftNodeObject.RaftNode.SubmitLog | src/raft/RaftNode.cpp:458-475 | Accepted if and only if the node leads; then exactly one entry of its term, with the key and value given, is appended |
| RaftNodeObject.RaftNode.StartElection | src/raft/RaftNode.cpp:101-151 | The first refusal from a later term makes the node a follower of that term without a vote and nobody else is called; without one everybody is called and the node leads if and only if the grants with its own vote are a majority; every peer called gets the same request |
| RaftNodeObject.RaftNode.Heartbeat | src/raft/RaftNode.cpp:153-221 | For any outcomes the new state and the requests sent are those of the folded replication steps, each of which RaftAnswers.AckTaken describes |
| RaftNodeObject.RaftNode.CollectMatchIndices | src/raft/RaftNode.cpp:186-190 | The collected values reach each threshold as often as the leader and its peers do |
| RaftElections.GrantIsSingle | src/raft/RaftNode.cpp:382-394 | A granted vote agrees with every vote the node has cast in that term |
| RaftReplication.FollowKeepsCommitted | src/raft/RaftNode.cpp:425-443 | Handling a request of a legitimate leader keeps the follower's committed prefix |
| RaftReplication.FollowerCommitRule | src/raft/RaftNode.cpp:445-451 | The bound by the follower's own last index never bites; what it commits is the leader's log through leaderCommit, which a leader of that term or an earlier one has committed |
| RaftCommitOrigin.CommitsComeFromLeaders | src/raft/RaftNode.cpp:445-451 | Over whole runs: whatever a server has committed, a leader of its term or an earlier one had committed with the same entries, at that time or before |
| RaftCommitOrigin.RequestsWereBuilt | src/raft/RaftNode.cpp:160-175 | Every AppendEntries request on the wire was built by a leader of its term: it starts where nextIndex pointed, carries all entries from there on if requests carry entries, and the leader's commit index at the time |
| RaftCommitOrigin.CandidatesStood | src/raft/RaftNode.cpp:109-114 | Every vote request on the wire was sent by a candidate of its term that had voted for itself, and gives the last index and term of its log |
| PoolSafety.Conservation | src/raft/RaftConnectionPool.cpp:27-132 | After any operations an open descriptor is held by one caller and in no queue, or in exactly one slot of its own peer's queue and held by nobody |
| PoolSafety.NothingDangles | src/raft/RaftConnectionPool.cpp:57-131 | What is held, queued or owned is open; a queue has at most five connections, the longest idle in front |
| PoolSafety.OperationsAreReady | src/raft/RaftConnectionPool.cpp:27-154 | Every operation of a run finds the pool as its method requires it, so no descriptor is closed twice, and every release names the descriptor's owner |
| PoolSafety.ReusesLongestIdle | src/raft/RaftConnectionPool.cpp:53-93 | A caller gets the new connection, or one of the peer's idle connections that works and than which none has been idle longer; afterwards it alone holds it |
| PoolSafety.HeldAcrossStop | src/raft/RaftConnectionPool.cpp:27-51 | A descriptor held while the pool stops is closed and not queued when released, whatever happens in between |
| PoolReuse.ReleaseKeepsIff | src/raft/RaftConnectionPool.cpp:95-132 | In any run a released descriptor is kept, last in its peer's queue with the present time, if and only if it works, has an owner and finds fewer than five idle ones; otherwise it is closed and forgotten; nothing else is touched |
| PoolReuse.GetTakesFront | src/raft/RaftConnectionPool.cpp:53-93 | In any run a working longest idle connection is what the caller gets and nothing is opened or closed; one that has failed is closed, no other is tried, and the caller gets the new connection or nothing |
| PoolReuse.ReleaseThenGet | src/raft/RaftConnectionPool.cpp:53-125 | A working connection released when its peer has no other idle one is what the next caller for the peer gets, whatever is done for other peers meanwhile, unless the pool is stopped or it expires or fails |
| PoolReuse.CloseClosesIdle | src/raft/RaftConnectionPool.cpp:134-154 | Closing a peer's connections closes and forgets all its idle ones, none that is held and none of another peer |
| PoolReuse.SweepClosesStale | src/raft/RaftConnectionPool.cpp:238-262 | The sweep closes an idle connection if and only if it has failed or been idle for 301 seconds; the others stay in order |
| PoolReuse.StopClosesIdle | src/raft/RaftConnectionPool.cpp:27-51 | Stopping a running pool leaves exactly the held descriptors open and owned by nobody |
| PoolSafety.AlwaysConserved | src/raft/RaftConnectionPool.cpp:27-154 | The invariant behind these holds after every sequence of operations |
| PoolSpec.KeptIsSubsequence | src/raft/RaftConnectionPool.cpp:238-262 | The sweep keeps, in order, exactly the connections of a queue that work and have been idle for less than 301 seconds |
| PoolSpec.ReleaseKeepsPoolOkIff | src/raft/RaftConnectionPool.cpp:95-132 | Releasing keeps the pool's invariant if and only if the named peer owns the descriptor, when somebody does |
| ConnectionPoolObject.RaftConnectionPool.GetConnection | src/raft/RaftConnectionPool.cpp:53-93 | The longest idle connection of the peer if it works, otherwise the new one or -1; the pool, the owner map and the open descriptors are those of the specified operation; nothing is closed twice |
| ConnectionPoolObject.RaftConnectionPool.ReleaseConnection | src/raft/RaftConnectionPool.cpp:95-132 | The descriptor stays open, last in the queue of the peer, if and only if it works, belongs to the peer and finds fewer than five idle ones; the rest is that of the specified operation |
| ConnectionPoolObject.RaftConnectionPool.ClosePeerConnections | src/raft/RaftConnectionPool.cpp:134-154 | The loop closes and forgets exactly the peer's queued connections |
| ConnectionPoolObject.RaftConnectionPool.CleanupPass | src/raft/RaftConnectionPool.cpp:238-262 | Sweeping the queues one by one, in any order, is the specified sweep of all |
| ConnectionPoolObject.RaftConnectionPool.StopPool | src/raft/RaftConnectionPool.cpp:27-51 | Stopping closes every queued connection once and no held one |
| ShardRouting.ShardRouter.PickNode | src/cluster/ShardRouter.cpp:15-43 | The loop returns the first of the healthy nodes with the highest score |
| ShardRouting.PickIndex | src/cluster/ShardRouter.cpp:22-35 | The pick is healthy, scores at least as high as every healthy node and strictly higher than those before it; none exactly when no node is healthy |
| ShardRouting.ShardRouter.InsertNode | src/cluster/ShardRouter.cpp:45-54 | A known id changes nothing, a new one is appended |
| ShardRouting.JoinMovesOnlyToNewcomer | src/cluster/ShardRouter.cpp:22-54 | After an insertion ids stay unique and the pick is the old one unless the newcomer is healthy and scores strictly higher |
| ShardRouting.LeaveMovesOnlyOwnKeys | src/cluster/ShardRouter.cpp:22-35 | Dropping a node moves only the keys it owned |
| ShardRouting.PickIgnoresOrder | src/cluster/ShardRouter.cpp:15-43 | Without ties routers that agree on the healthy ids agree on the pick |
| Forwarding.TerminatesIffNoTies | src/server/Connection.cpp:136-150 | For all views over given ids in which every server knows itself, a request is forwarded a bounded number of times, at most once per server, if and only if no two ids tie for its key |
| Forwarding.SafeViewIff | src/cluster/ShardRouter.cpp:22-35 | A server's view keeps forwarding finite for every tie-free hash, whatever the other self-knowing servers see, if and only if it contains the server itself as healthy |
| Forwarding.KnowsItselfIffListed | src/server/Server.cpp:41-67 | A server's view contains itself after start-up if and only if its node list names it |
| Forwarding.TripsEnd | src/server/Connection.cpp:136-150 | If every server is healthy in its own view and ties are ranked alike everywhere, a forwarded request visits no server twice, so it ends within as many hops as there are servers |
| Forwarding.NoTiesRanked | src/server/Connection.cpp:136-150 | Scores without ties meet that condition for any views |
| Forwarding.SharedListTerminates | src/server/Server.cpp:41-67 | So do views built from one node list, whatever the health checks said, even when scores tie |
| Forwarding.TripIsTrip | src/server/Connection.cpp:191-204 | The whole trip follows the servers' decisions and ends at a server that serves the key itself |
| Forwarding.TiesCanLoop | src/cluster/ShardRouter.cpp:31-34 | With a tie and lists in different orders two servers that know themselves forward to each other for ever |
| Forwarding.HandlersFollowTrip | src/server/Connection.cpp:136-204 | Handing a STORE or a GET from server to server by the handlers' own answers stores and answers exactly where the trip of picks ends |
| Forwarding.PickedServes | src/server/Connection.cpp:136-204 | The server with the first highest score stores the value and returns it to the next lookup, leaving other keys alone; every other server changes nothing and names that one |
| Forwarding.OneHop | src/server/Connection.cpp:136-141 | Servers that agree on the healthy set send a key to one server in at most one hop |
| Forwarding.StoreThenGet | src/server/Connection.cpp:191-204 | Then a value stored through any server is what a GET through any other returns |
| Forwarding.Server.HandleStore | src/server/Connection.cpp:136-155 | Stores locally and forwards nothing exactly when the router picks this server, otherwise forwards and stores nothing |
| Forwarding.Server.HandleGet | src/server/Connection.cpp:191-204 | Answers from the local store exactly when the router picks this server |
| Forwarding.BuildRouter | src/server/Server.cpp:39-67 | The start-up loop builds the specified view |
| Forwarding.BuiltViewIsSane | src/server/Server.cpp:48-62 | The view has distinct ids and only healthy nodes, among them the server itself if it is configured |
| Forwarding.BuiltViewHolds | src/server/Server.cpp:41-67 | The view holds exactly the listed nodes that are the server itself or passed their check, each id as it first passed |
| Forwarding.FailedChecksLeaveAlone | src/server/Server.cpp:48-100 | When every check of another node fails, the view holds only the server itself, which then serves every key, and its Raft node gets no peers |
| Forwarding.AgreeingViewsMakeACluster | src/server/Server.cpp:93-100 | Servers with the same ids in their views hand Raft a common valid membership |
| Framing.AllInTimeIff | src/server/Protocol.cpp:21-57 | On any socket: the sent messages are what is handled, and exactly their frames are consumed, if and only if every header and every body has arrived whole when it is asked for |
| Framing.InTimeIff | src/server/Protocol.cpp:21-57 | On any socket: one frame is received as its message, with nothing more or less consumed, if and only if the message has 1 byte to 1 MiB and header and body have arrived whole when asked for |
| Framing.PauseTears | src/server/Protocol.cpp:36-41 | On a non-blocking socket a pause inside the body yields a message of full length of which only the start has arrived, and leaves the remainder to be read as a header |
| Framing.CutHeaderMisleads | src/server/Protocol.cpp:21-44 | On a non-blocking socket a header of which only part has arrived is accepted: the length is rounded down and the rest of the header is read as the start of the body, unless the length comes to 0 or nothing has arrived for the body |
| Framing.PingIsRefused | src/cluster/ShardRouter.cpp:92-107 | A server of this program refuses what the health check sends, however it arrives, and handles no message, so no reply comes |
| Framing.DecodeInvertsFrames | src/server/Protocol.cpp:21-57 | On a blocking socket decoding the concatenation of any messages of 1 byte to 1 MiB returns exactly those messages |
| Framing.FrameRoundTripIff | src/server/Protocol.cpp:21-57 | On a blocking socket one frame is received as its message, with nothing more consumed, if and only if the message has 1 byte to 1 MiB |
| Framing.CutIsCleanIff | src/server/Protocol.cpp:36-41 | On a blocking socket a stream that ends early yields exactly the completely arrived messages if and only if it does not end inside a body |
| Framing.DecodeCut | src/server/Protocol.cpp:21-44 | What a stream that ends early yields on a blocking socket: the complete messages in order, then, if it ends inside a body, one of full length of which only the start has arrived |
| Framing.BigEndianRoundTrip | src/server/Protocol.cpp:30-48 | The 32-bit big-endian length and its bytes determine each other |
| Framing.HeadersInOrder | src/server/Protocol.cpp:46-50 | The most significant byte comes first: lengths compare as their headers do byte by byte |
| Framing.Socket.RecvAll | src/server/Protocol.cpp:10-19 | Under any positive chunking the loop fills the buffer with the next bytes of the stream, or fails when there are fewer |
| Framing.Socket.RecvMessage | src/server/Protocol.cpp:21-44 | Result, vector and remaining stream are those of the specified receive, on a blocking or a non-blocking socket and under any chunking |
| Framing.Socket.SendMessage | src/server/Protocol.cpp:46-57 | Succeeds exactly when the whole frame is out; otherwise a prefix of it is |
| Framing.Socket.ReceiveMessages | src/server/Connection.cpp:50-86 | On a blocking socket the read loop, which reuses its vector, handles what decoding the whole stream yields |
| Framing.Socket.ReceiveMessagesWhen | src/server/Connection.cpp:50-86 | On any socket the read loop handles, and leaves on the stream, what decoding by the arrivals at each receive yields |

## Left out

- Sockets, non-blocking mode, retries, epoll, timers, random timeouts and thread wake-ups: calls succeed, fail or are late nondeterministically.
- Crash and restart: term, vote and log are never persisted, so a server may stop but does not come back with lost state.
- The order of unread replies on one connection and that each is read only once: without matching, any earlier reply of the peer may be taken. The runs that break safety read each at most once.
- RocksDB: a put always succeeds on a map; the apply loop only logs a failure.
- A link from STORE to Raft: the handler writes its store directly and nothing calls `submitLog`, so routing has stores of its own.
- Overflow of 64-bit terms and indices.
- A receive that fails with an error other than for want of data: it ends the stream here.
- Liveness under a scheduler: elections may fail for ever under unlucky timing; what is proved is that a run can always go on well, not that it must.
- JSON parsing, missing fields, the reply texts and the error codes of forwarding: a forward that fails is not told from one that succeeds.
- The frame codec (`src/common/codec/YoloCodec.cpp`), Config, Logger, Command, Dispatcher, ThreadPool, main, benchmarks, clients and `src/datebase`: plumbing or easy.
- ShardRouting.ShardRouter.PickNode: requires a healthy node, because the code dereferences a null pointer when there is none.
- Forwarding.SharedListTerminates: requires distinct ids in the node list; with repeated ids and ties two servers can again keep different orders.
- Forwarding.StoreThenGet: covers requests that are forwarded successfully and one at a time.
- RaftCatchUp.CatchUpConverges: considers one leader and one follower whose calls go through; other servers keep silent.
- RaftNeverStuck.NeverStuckIff: says that runs can go on that way, and only for requests that carry their entries and replies matched to them.
- RaftConvergence.RunsCanCatchUp: says that the run can go on that way, not that it must; liveness under a scheduler is not modelled.
