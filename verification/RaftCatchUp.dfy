/** Replication between one leader and one follower: catching up when calls go through, and
    what becomes of it when the request leaves its entries out. */
module RaftCatchUp {
  import opened RaftTypes
  import opened LogMerge
  import opened RaftSteps
  import opened RaftCluster

  /** The follower's log fits the leader's, as it does in every reachable state, and the
      leader's term is not behind. */
  ghost predicate Fits(peers: seq<NodeId>, i: nat, l: NodeState, f: NodeState) {
    && i < |peers|
    && LocalOk(peers, l) && l.role == Leader
    && WellFormed(f.log)
    && f.currentTerm <= l.currentTerm
    && Matching(l.log, f.log)
  }

  /** One call that goes through: the request for peers[i], the follower's reaction, and the
      leader's reaction to the reply. */
  ghost function Exchange(sendsEntries: bool, self: NodeId, peers: seq<NodeId>, i: nat,
                          l: NodeState, f: NodeState)
    : (r: (NodeState, NodeState, bool))
    requires Fits(peers, i, l, f)
  {
    var peer := peers[i];
    assert peer in SeqSet(peers);
    var args := AppendArgs(sendsEntries, self, l, peer);
    var (f', reply) := HandleAppendEntries(f, args);
    (TakeAppendReply(peers, Server(l, Heartbeating(i)), Some(reply)).node, f', reply.success)
  }

  lemma ExchangeParts(sendsEntries: bool, self: NodeId, peers: seq<NodeId>, i: nat, l: NodeState,
                      f: NodeState, args: AppendEntriesArgs)
    requires Fits(peers, i, l, f) && IsAppendArgs(sendsEntries, self, l, peers[i], args)
    ensures Numbered(args) && |l.log| > 0 && LeaderIndicesOk(peers, l)
    ensures var (f', reply) := HandleAppendEntries(f, args);
            Exchange(sendsEntries, self, peers, i, l, f)
            == (TakeAppendReply(peers, Server(l, Heartbeating(i)), Some(reply)).node, f',
                reply.success)
  {
  }

  /** When the log check fails the leader backs off by one and nothing else changes but the
      follower's term. It cannot fail at the dummy entry. */
  lemma BackOff(self: NodeId, peers: seq<NodeId>, i: nat, l: NodeState, f: NodeState)
    requires Fits(peers, i, l, f)
    requires !Exchange(true, self, peers, i, l, f).2
    ensures var (l', f', _) := Exchange(true, self, peers, i, l, f);
            && l.nextIndex[peers[i]] > 1
            && l' == l.(nextIndex := l.nextIndex[peers[i] := l.nextIndex[peers[i]] - 1])
            && f'.log == f.log
            && Fits(peers, i, l', f')
  {
    assert peers[i] in SeqSet(peers);
  }

  /** When it succeeds the follower has the leader's whole log and the leader knows it. */
  lemma Success(self: NodeId, peers: seq<NodeId>, i: nat, l: NodeState, f: NodeState)
    requires Fits(peers, i, l, f)
    requires Exchange(true, self, peers, i, l, f).2
    ensures var (l', f', _) := Exchange(true, self, peers, i, l, f);
            && l.log <= f'.log && l'.log == l.log
            && peers[i] in l'.matchIndex && l'.matchIndex[peers[i]] == |l.log| - 1
            && peers[i] in l'.nextIndex && l'.nextIndex[peers[i]] == |l.log|
  {
    assert peers[i] in SeqSet(peers);
    var args := AppendArgs(true, self, l, peers[i]);
    ExchangeParts(true, self, peers, i, l, f, args);
    FollowerGetsAll(self, peers, i, l, f, args);
    LeaderSide(peers, i, l, HandleAppendEntries(f, args).1);
  }

  lemma FollowerGetsAll(self: NodeId, peers: seq<NodeId>, i: nat, l: NodeState, f: NodeState,
                        args: AppendEntriesArgs)
    requires Fits(peers, i, l, f) && IsAppendArgs(true, self, l, peers[i], args)
    requires Numbered(args)
    ensures HandleAppendEntries(f, args).1.success ==> l.log <= HandleAppendEntries(f, args).0.log
  {
    FollowerSide(f, args);
    if HandleAppendEntries(f, args).1.success {
      FollowerAcceptsAll(l.log, f.log, args.prevLogIndex);
    }
  }

  lemma FollowerSide(f: NodeState, args: AppendEntriesArgs)
    requires WellFormed(f.log) && Numbered(args)
    ensures var (f', reply) := HandleAppendEntries(f, args);
            reply.success ==>
              && args.prevLogIndex < |f.log|
              && f.log[args.prevLogIndex].term == args.prevLogTerm
              && f'.log == Merge(f.log, args.prevLogIndex, args.entries)
  {
  }

  lemma LeaderSide(peers: seq<NodeId>, i: nat, l: NodeState, reply: AppendEntriesReply)
    requires i < |peers| && LocalOk(peers, l) && l.role == Leader && reply.success
    ensures var l' := TakeAppendReply(peers, Server(l, Heartbeating(i)), Some(reply)).node;
            && l'.log == l.log
            && peers[i] in l'.matchIndex && l'.matchIndex[peers[i]] == |l.log| - 1
            && peers[i] in l'.nextIndex && l'.nextIndex[peers[i]] == |l.log|
  {
    assert peers[i] in SeqSet(peers);
  }

  lemma FollowerAcceptsAll(leader: Log, log: Log, prev: nat)
    requires Matching(leader, log)
    requires prev < |leader| && prev < |log| && log[prev].term == leader[prev].term
    ensures leader <= Merge(log, prev, leader[prev + 1..])
  {
    MatchingSymmetric(leader, log);
    MergeFollowsLeader(log, leader, prev, leader[prev + 1..]);
    assert leader[..prev + 1 + |leader[prev + 1..]|] == leader;
  }

  lemma MatchingSymmetric(a: Log, b: Log)
    requires Matching(a, b)
    ensures Matching(b, a)
  {
    forall i | 0 <= i < |b| && i < |a| ensures MatchAt(b, a, i) {
      assert MatchAt(a, b, i);
    }
  }

  /** The leader and follower after consecutive calls, up to the first that succeeds. */
  ghost function CatchUp(self: NodeId, peers: seq<NodeId>, i: nat, l: NodeState, f: NodeState)
    : (r: (NodeState, NodeState, nat))
    requires Fits(peers, i, l, f)
    decreases if peers[i] in l.nextIndex then l.nextIndex[peers[i]] else 0
  {
    assert peers[i] in SeqSet(peers);
    var (l', f', success) := Exchange(true, self, peers, i, l, f);
    if success then (l', f', 1)
    else
      BackOff(self, peers, i, l, f);
      var (l'', f'', rounds) := CatchUp(self, peers, i, l', f');
      (l'', f'', rounds + 1)
  }

  /** Convergence: after at most nextIndex calls the follower's log starts with the leader's, and
      the leader's indices for it say so. */
  lemma {:induction false} CatchUpConverges(self: NodeId, peers: seq<NodeId>, i: nat,
                                            l: NodeState, f: NodeState)
    requires Fits(peers, i, l, f)
    ensures var (l', f', rounds) := CatchUp(self, peers, i, l, f);
            && peers[i] in l.nextIndex && 1 <= rounds <= l.nextIndex[peers[i]]
            && l.log <= f'.log && l'.log == l.log
            && peers[i] in l'.matchIndex && l'.matchIndex[peers[i]] == |l.log| - 1
            && peers[i] in l'.nextIndex && l'.nextIndex[peers[i]] == |l.log|
    decreases if peers[i] in l.nextIndex then l.nextIndex[peers[i]] else 0
  {
    assert peers[i] in SeqSet(peers);
    var (l', f', success) := Exchange(true, self, peers, i, l, f);
    if success {
      Success(self, peers, i, l, f);
    } else {
      BackOff(self, peers, i, l, f);
      CatchUpConverges(self, peers, i, l', f');
    }
  }

  /** An exchange is three consecutive steps of the cluster. */
  lemma ExchangeIsThreeSteps(cfg: Config, c: Cluster, n: NodeId, p: NodeId, i: nat)
    returns (c1: Cluster, c2: Cluster, c': Cluster)
    requires n in c.servers && n in cfg.peers && p in c.servers && p in cfg.peers && p != n
    requires i < |cfg.peers[n]| && cfg.peers[n][i] == p
    requires c.servers[n].activity == Heartbeating(i) && c.servers[p].activity.Idle?
    requires Fits(cfg.peers[n], i, c.servers[n].node, c.servers[p].node)
    requires LocalOk(cfg.peers[p], c.servers[p].node)
    ensures Next(cfg, c, c1) && Next(cfg, c1, c2) && Next(cfg, c2, c')
    ensures n in c'.servers && p in c'.servers
    ensures var (l', f', _) := Exchange(cfg.sendsEntries, n, cfg.peers[n], i,
                                        c.servers[n].node, c.servers[p].node);
            c'.servers[n].node == l' && c'.servers[p].node == f'
  {
    var peers := cfg.peers[n];
    var l, f := c.servers[n].node, c.servers[p].node;
    assert p in SeqSet(peers);
    var args := AppendArgs(cfg.sendsEntries, n, l, p);
    assert Enabled(cfg, c, n, SendAppendRequest) && Safe(cfg, c, n, SendAppendRequest);
    c1 := Perform(cfg, c, n, SendAppendRequest);
    assert StepBy(cfg, c, c1, n, SendAppendRequest);
    assert Numbered(args);
    assert Enabled(cfg, c1, p, ReceiveAppendRequest(args));
    assert Safe(cfg, c1, p, ReceiveAppendRequest(args));
    c2 := Perform(cfg, c1, p, ReceiveAppendRequest(args));
    assert StepBy(cfg, c1, c2, p, ReceiveAppendRequest(args));
    var reply := HandleAppendEntries(f, args).1;
    assert AppendReply(p, args, reply) in c2.net;
    assert IsAppendArgs(cfg.sendsEntries, n, l, p, args);
    assert Enabled(cfg, c2, n, TakeAck(Some(reply))) && Safe(cfg, c2, n, TakeAck(Some(reply)));
    c' := Perform(cfg, c2, n, TakeAck(Some(reply)));
    assert StepBy(cfg, c2, c', n, TakeAck(Some(reply)));
  }
}
