/** The whole cluster as a transition system. Each step is one stretch of code that some server
    runs under its lock; calls may fail, requests may be handled late or never, and replies may
    be lost. */
module RaftCluster {
  import opened RaftTypes
  import opened CommitRule
  import opened RaftSteps

  /** Each server's list of peers. `sendsEntries` tells whether AppendEntries requests carry the
      entries the leader collected (the intent) or none (as written). `matchesReplies` tells
      whether a call only takes the reply to its own request (the intent), or also one to an
      earlier request that was left unread on a pooled connection (as written). */
  datatype Config =
    Config(peers: map<NodeId, seq<NodeId>>, sendsEntries: bool, matchesReplies: bool)

  ghost predicate ValidConfig(cfg: Config) {
    && NO_VOTE !in cfg.peers
    && forall n :: n in cfg.peers ==>
         Distinct(cfg.peers[n]) && SeqSet(cfg.peers[n]) == cfg.peers.Keys - {n}
  }

  /** Requests and replies on the wire. A reply keeps the request it answers. */
  datatype Message =
    | VoteRequest(to: NodeId, voteArgs: RequestVoteArgs)
    | VoteReply(from: NodeId, voteArgs: RequestVoteArgs, vote: RequestVoteReply)
    | AppendRequest(to: NodeId, appendArgs: AppendEntriesArgs)
    | AppendReply(from: NodeId, appendArgs: AppendEntriesArgs, ack: AppendEntriesReply)

  datatype Cluster = Cluster(servers: map<NodeId, Server>, net: set<Message>)

  const INITIAL: Server :=
    Server(NodeState(0, NO_VOTE, [DUMMY], 0, 0, map[], map[], Follower, map[]), Idle)

  ghost predicate Init(cfg: Config, c: Cluster) {
    && c.servers == (map n | n in cfg.peers :: INITIAL)
    && c.net == {}
  }

  datatype Action =
    | BeginElection
    | SendVoteRequest
    | TakeVote(vote: Option<RequestVoteReply>)
    | EndElection
    | BeginHeartbeat
    | SendAppendRequest
    | TakeAck(ack: Option<AppendEntriesReply>)
    | EndHeartbeat
    | ReceiveVoteRequest(voteArgs: RequestVoteArgs)
    | ReceiveAppendRequest(appendArgs: AppendEntriesArgs)
    | Submit(key: string, value: string)

  /** Server n may take the action. The background threads hold the lock through an election or
      a heartbeat round, so a server that is in one of those serves nobody. */
  ghost predicate Enabled(cfg: Config, c: Cluster, n: NodeId, action: Action) {
    && n in c.servers && n in cfg.peers
    && var sv := c.servers[n];
    && var peers := cfg.peers[n];
    match action
    case BeginElection => sv.activity.Idle? && sv.node.role != Leader
    case SendVoteRequest => sv.activity.Electing? && sv.activity.next < |peers|
    case TakeVote(vote) =>
      && sv.activity.Electing? && sv.activity.next < |peers| && |sv.node.log| > 0
      && (vote.Some? ==>
            || VoteReply(peers[sv.activity.next], VoteArgs(n, sv.node), vote.value) in c.net
            || (!cfg.matchesReplies && UnreadVote(c.net, peers[sv.activity.next], n, vote.value)))
    case EndElection => sv.activity.Electing? && sv.activity.next == |peers|
    case BeginHeartbeat => sv.activity.Idle? && sv.node.role == Leader
    case SendAppendRequest => sv.activity.Heartbeating? && sv.activity.next < |peers|
    case TakeAck(ack) =>
      && sv.activity.Heartbeating? && sv.activity.next < |peers|
      && (ack.Some? ==>
            || OwnAck(cfg, c.net, n, sv.node, peers[sv.activity.next], ack.value)
            || (!cfg.matchesReplies && UnreadAck(c.net, peers[sv.activity.next], n, ack.value)))
    case EndHeartbeat => sv.activity.Heartbeating? && sv.activity.next == |peers|
    case ReceiveVoteRequest(args) => sv.activity.Idle? && VoteRequest(n, args) in c.net
    case ReceiveAppendRequest(args) => sv.activity.Idle? && AppendRequest(n, args) in c.net
    case Submit(_, _) => sv.activity.Idle?
  }

  /** A reply of the peer to some vote request of n. */
  ghost predicate UnreadVote(net: set<Message>, peer: NodeId, n: NodeId, vote: RequestVoteReply) {
    exists args :: VoteReply(peer, args, vote) in net && args.candidateId == n
  }

  /** A reply of the peer to some AppendEntries request of n. */
  ghost predicate UnreadAck(net: set<Message>, peer: NodeId, n: NodeId, ack: AppendEntriesReply) {
    exists args :: AppendReply(peer, args, ack) in net && args.leaderId == n
  }

  /** A reply of the peer to the request that n sends it in its present state. */
  ghost predicate OwnAck(cfg: Config, net: set<Message>, n: NodeId, s: NodeState, peer: NodeId,
                         ack: AppendEntriesReply) {
    exists args ::
      AppendReply(peer, args, ack) in net && IsAppendArgs(cfg.sendsEntries, n, s, peer, args)
  }

  ghost predicate IsAppendArgs(sendsEntries: bool, self: NodeId, s: NodeState, peer: NodeId,
                               args: AppendEntriesArgs) {
    && peer in s.nextIndex && 1 <= s.nextIndex[peer] <= |s.log|
    && args == AppendArgs(sendsEntries, self, s, peer)
  }

  /** Every vector access of the action stays in range. */
  ghost predicate Safe(cfg: Config, c: Cluster, n: NodeId, action: Action)
    requires Enabled(cfg, c, n, action)
  {
    var sv := c.servers[n];
    && LocalOk(cfg.peers[n], sv.node)
    && (action.SendAppendRequest? || action.TakeAck? ==> sv.node.role == Leader)
    && (action.ReceiveAppendRequest? ==> Numbered(action.appendArgs))
  }

  /** The acting server afterwards, and the messages it puts on the wire. */
  ghost function Effect(cfg: Config, c: Cluster, n: NodeId, action: Action): (Server, set<Message>)
    requires Enabled(cfg, c, n, action) && Safe(cfg, c, n, action)
  {
    var sv := c.servers[n];
    var peers := cfg.peers[n];
    match action
    case BeginElection => (BecomeCandidate(n, sv.node), {})
    case SendVoteRequest => (sv, {VoteRequest(peers[sv.activity.next], VoteArgs(n, sv.node))})
    case TakeVote(vote) => (TakeVoteReply(sv, vote), {})
    case EndElection => (FinishElection(peers, sv), {})
    case BeginHeartbeat => (sv.(activity := Heartbeating(0)), {})
    case SendAppendRequest =>
      var peer := peers[sv.activity.next];
      (sv, {AppendRequest(peer, AppendArgs(cfg.sendsEntries, n, sv.node, peer))})
    case TakeAck(ack) => (TakeAppendReply(peers, sv, ack), {})
    case EndHeartbeat => (sv.(activity := Idle), {})
    case ReceiveVoteRequest(args) =>
      var (s, reply) := HandleRequestVote(sv.node, args);
      (sv.(node := s), {VoteReply(n, args, reply)})
    case ReceiveAppendRequest(args) =>
      var (s, reply) := HandleAppendEntries(sv.node, args);
      (sv.(node := s), {AppendReply(n, args, reply)})
    case Submit(key, value) => (sv.(node := SubmitLog(sv.node, key, value).0), {})
  }

  ghost function Perform(cfg: Config, c: Cluster, n: NodeId, action: Action): Cluster
    requires Enabled(cfg, c, n, action) && Safe(cfg, c, n, action)
  {
    var (sv, sent) := Effect(cfg, c, n, action);
    Cluster(c.servers[n := sv], c.net + sent)
  }

  /** An access out of range is undefined behaviour: it may lead anywhere. So nothing below
      holds of every run unless accesses are proved to stay in range. */
  ghost predicate StepBy(cfg: Config, c: Cluster, c': Cluster, n: NodeId, action: Action) {
    && Enabled(cfg, c, n, action)
    && (Safe(cfg, c, n, action) ==> c' == Perform(cfg, c, n, action))
  }

  ghost predicate Next(cfg: Config, c: Cluster, c': Cluster) {
    exists n, action :: StepBy(cfg, c, c', n, action)
  }

  ghost predicate StepAt(cfg: Config, run: seq<Cluster>, i: nat)
    requires i + 1 < |run|
  {
    Next(cfg, run[i], run[i + 1])
  }

  ghost predicate IsRun(cfg: Config, run: seq<Cluster>) {
    && |run| > 0
    && Init(cfg, run[0])
    && forall i :: 0 <= i < |run| - 1 ==> StepAt(cfg, run, i)
  }
}
