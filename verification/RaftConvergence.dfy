/** Catching up from any state that a run can reach. */
module RaftConvergence {
  import opened RaftTypes
  import opened RaftSteps
  import opened RaftAnswers
  import opened RaftCluster
  import opened RaftRuns
  import opened RaftRedelivery
  import opened RaftReplies
  import opened RaftSafety
  import opened RaftCatchUp
  import opened RaftPaths

  /** In every reachable state a leader fits each of its peers that has not gone beyond its term. */
  lemma ReachableFits(cfg: Config, run: seq<Cluster>, at: nat, n: NodeId, i: nat)
    requires Running(cfg, run) && LeadsAt(run, at, n) && n in cfg.peers && i < |cfg.peers[n]|
    requires Present(run, at, cfg.peers[n][i])
    requires NodeAt(run, at, cfg.peers[n][i]).currentTerm <= NodeAt(run, at, n).currentTerm
    ensures Fits(cfg.peers[n], i, NodeAt(run, at, n), NodeAt(run, at, cfg.peers[n][i]))
  {
    var hs := RunHistory(cfg, run);
    FactsAt(cfg, run, hs, at, n);
    LogMatching(cfg, run, at, n, at, cfg.peers[n][i]);
    LogMatching(cfg, run, at, cfg.peers[n][i], at, n);
  }

  /** Convergence: from any reachable state, if only this leader and this peer act and their calls
      go through, at most nextIndex calls bring the leader's whole log to the peer. */
  lemma CatchUpInRuns(cfg: Config, run: seq<Cluster>, at: nat, n: NodeId, i: nat)
    requires Running(cfg, run) && LeadsAt(run, at, n) && n in cfg.peers && i < |cfg.peers[n]|
    requires Present(run, at, cfg.peers[n][i])
    requires NodeAt(run, at, cfg.peers[n][i]).currentTerm <= NodeAt(run, at, n).currentTerm
    ensures var l, p := NodeAt(run, at, n), cfg.peers[n][i];
            && Fits(cfg.peers[n], i, l, NodeAt(run, at, p))
            && var (l', f', rounds) := CatchUp(n, cfg.peers[n], i, l, NodeAt(run, at, p));
            && p in l.nextIndex && 1 <= rounds <= l.nextIndex[p]
            && l.log <= f'.log && l'.log == l.log
            && p in l'.matchIndex && l'.matchIndex[p] == |l.log| - 1
  {
    ReachableFits(cfg, run, at, n, i);
    CatchUpConverges(n, cfg.peers[n], i, NodeAt(run, at, n), NodeAt(run, at, cfg.peers[n][i]));
  }

  // ---------- the continued run ----------

  /** A server in the middle of a round finishes it with failing calls. */
  lemma FinishRound(cfg: Config, c0: Cluster, run: seq<Cluster>, c: Cluster, n: NodeId)
    returns (run': seq<Cluster>, c': Cluster)
    requires Ready(cfg, c0, run, c, n) && c.servers[n].node.role == Leader
    requires c.servers[n].activity.Heartbeating? && c.servers[n].activity.next <= |cfg.peers[n]|
    ensures PathFrom(cfg, run', c0, c') && run <= run'
    ensures c'.servers == c.servers[n := Server(c.servers[n].node, Idle)]
  {
    var run1, c1 := MissAcks(cfg, c0, run, c, n, |cfg.peers[n]|);
    run', c' := Extend(cfg, c0, run1, c1, n, EndHeartbeat);
  }

  lemma {:induction false} FinishVoting(cfg: Config, c0: Cluster, run: seq<Cluster>, c: Cluster,
                                        n: NodeId)
    returns (run': seq<Cluster>, c': Cluster)
    requires Ready(cfg, c0, run, c, n) && c.servers[n].activity.Electing?
    requires c.servers[n].activity.next <= |cfg.peers[n]|
    ensures PathFrom(cfg, run', c0, c') && run <= run' && n in c'.servers
    ensures c'.servers == c.servers[n := c'.servers[n]] && c'.servers[n].activity.Idle?
    ensures c'.servers[n].node.currentTerm == c.servers[n].node.currentTerm
    ensures c'.servers[n].node.log == c.servers[n].node.log
    decreases |cfg.peers[n]| - c.servers[n].activity.next
  {
    if c.servers[n].activity.next < |cfg.peers[n]| {
      run', c' := MissVote(cfg, c0, run, c, n);
      run', c' := FinishVoting(cfg, c0, run', c', n);
    } else {
      run', c' := Extend(cfg, c0, run, c, n, EndElection);
    }
  }

  ghost predicate Last(run: seq<Cluster>, c: Cluster) {
    |run| > 0 && run[|run| - 1] == c
  }

  lemma PathIsRun(cfg: Config, run: seq<Cluster>, c: Cluster)
    requires ValidConfig(cfg) && cfg.matchesReplies && |run| > 0 && Init(cfg, run[0]) && PathFrom(cfg, run, run[0], c)
    ensures Running(cfg, run) && Last(run, c)
  {
  }

  lemma RunIsPath(cfg: Config, run: seq<Cluster>)
    requires Running(cfg, run)
    ensures PathFrom(cfg, run, run[0], run[|run| - 1])
  {
  }

  /** What the invariant says of a server at the end of a run. */
  lemma LastFacts(cfg: Config, run: seq<Cluster>, n: NodeId)
    requires Running(cfg, run) && n in run[|run| - 1].servers
    ensures n in cfg.peers
    ensures var sv := run[|run| - 1].servers[n];
            && LocalOk(cfg.peers[n], sv.node)
            && (sv.activity.Electing? ==> sv.activity.next <= |cfg.peers[n]| && sv.node.role == Candidate)
            && (sv.activity.Heartbeating? ==> sv.activity.next <= |cfg.peers[n]| && sv.node.role == Leader)
  {
    var hs := RunHistory(cfg, run);
    FactsAt(cfg, run, hs, |run| - 1, n);
  }

  /** Any server can come to rest by its own steps, without a change of term or log; one that is
      not standing for election does so without any change. */
  lemma Settle(cfg: Config, run: seq<Cluster>, n: NodeId) returns (run': seq<Cluster>)
    requires Running(cfg, run) && n in run[|run| - 1].servers
    ensures Running(cfg, run') && run <= run'
    ensures var c, c' := run[|run| - 1], run'[|run'| - 1];
            && n in c'.servers && c'.servers == c.servers[n := c'.servers[n]]
            && c'.servers[n].activity.Idle?
            && c'.servers[n].node.currentTerm == c.servers[n].node.currentTerm
            && c'.servers[n].node.log == c.servers[n].node.log
            && (!c.servers[n].activity.Electing? ==> c'.servers[n].node == c.servers[n].node)
  {
    var c := run[|run| - 1];
    LastFacts(cfg, run, n);
    RunIsPath(cfg, run);
    run' := run;
    if c.servers[n].activity.Heartbeating? {
      var c';
      run', c' := FinishRound(cfg, run[0], run, c, n);
      PathIsRun(cfg, run', c');
    } else if c.servers[n].activity.Electing? {
      var c';
      run', c' := FinishVoting(cfg, run[0], run, c, n);
      PathIsRun(cfg, run', c');
    }
  }

  /** One round in which the call to peers[i] goes through and all others fail. */
  lemma RoundWithPeer(cfg: Config, c0: Cluster, run: seq<Cluster>, c: Cluster, n: NodeId, i: nat,
                      p: NodeId)
    returns (run': seq<Cluster>, c': Cluster)
    requires Ready(cfg, c0, run, c, n) && c.servers[n].activity.Idle?
    requires i < |cfg.peers[n]| && cfg.peers[n][i] == p && ReadyPeer(cfg, c, n, p)
    requires Fits(cfg.peers[n], i, c.servers[n].node, c.servers[p].node)
    ensures PathFrom(cfg, run', c0, c') && run <= run'
    ensures var (l', f', _) := Exchange(cfg.sendsEntries, n, cfg.peers[n], i, c.servers[n].node,
                                        c.servers[p].node);
            && c'.servers == c.servers[p := Server(f', Idle)][n := Server(l', Idle)]
            && LocalOk(cfg.peers[n], l') && l'.role == Leader && LocalOk(cfg.peers[p], f')
            && l'.currentTerm == c.servers[n].node.currentTerm >= f'.currentTerm
  {
    var peers, l, f := cfg.peers[n], c.servers[n].node, c.servers[p].node;
    assert p in SeqSet(peers);
    var args := AppendArgs(cfg.sendsEntries, n, l, p);
    ExchangeParts(cfg.sendsEntries, n, peers, i, l, f, args);
    ExchangeKeepsLeading(cfg.sendsEntries, n, peers, i, l, f, args);
    HandleAppendEntriesKeepsLocalOk(cfg.peers[p], f, args);
    AppendAnswered(f, args);
    var run1, c1 := Extend(cfg, c0, run, c, n, BeginHeartbeat);
    var run2, c2 := MissAcks(cfg, c0, run1, c1, n, i);
    var run3, c3 := DeliverAppend(cfg, c0, run2, c2, n, p, args);
    run', c' := FinishRound(cfg, c0, run3, c3, n);
  }

  /** The reply of a peer whose term is not ahead leaves the leader leading. */
  lemma ExchangeKeepsLeading(sendsEntries: bool, self: NodeId, peers: seq<NodeId>, i: nat,
                             l: NodeState, f: NodeState, args: AppendEntriesArgs)
    requires Fits(peers, i, l, f) && IsAppendArgs(sendsEntries, self, l, peers[i], args)
    requires Numbered(args)
    ensures var reply := HandleAppendEntries(f, args).1;
            var sv' := TakeAppendReply(peers, Server(l, Heartbeating(i)), Some(reply));
            && sv'.activity == Heartbeating(i + 1) && LocalOk(peers, sv'.node)
            && sv'.node.role == Leader && sv'.node.currentTerm == l.currentTerm
  {
    TakeAppendReplyKeepsLocalOk(peers, Server(l, Heartbeating(i)),
                                Some(HandleAppendEntries(f, args).1));
  }

  /** When the call succeeds, the follower commits all that the leader had. */
  lemma FollowerCommits(self: NodeId, peers: seq<NodeId>, i: nat, l: NodeState, f: NodeState)
    requires Fits(peers, i, l, f) && Exchange(true, self, peers, i, l, f).2
    requires l.commitIndex < |l.log|
    ensures Exchange(true, self, peers, i, l, f).1.commitIndex >= l.commitIndex
  {
    assert peers[i] in SeqSet(peers);
    var args := AppendArgs(true, self, l, peers[i]);
    ExchangeParts(true, self, peers, i, l, f, args);
    FollowerGetsAll(self, peers, i, l, f, args);
    AcceptedForm(f, args);
    CommitTwice(Merged(f, args), args.leaderCommit);
  }

  /** What a successful round leaves: the same leader, and a peer with all that it has. */
  ghost predicate CaughtUp(l: NodeState, l': NodeState, f': NodeState, p: NodeId) {
    && l'.role == Leader && l'.currentTerm == l.currentTerm && l'.log == l.log <= f'.log
    && p in l'.matchIndex && l'.matchIndex[p] == |l.log| - 1
    && (l.commitIndex < |l.log| ==> f'.commitIndex >= l.commitIndex)
    && f'.currentTerm <= l.currentTerm
  }

  /** What a round leaves whose log check failed: the leader tries one entry earlier. */
  ghost predicate BackedOff(peers: seq<NodeId>, i: nat, l: NodeState, l': NodeState,
                            f': NodeState) {
    && Fits(peers, i, l', f') && peers[i] in l.nextIndex && peers[i] in l'.nextIndex
    && l' == l.(nextIndex := l'.nextIndex) && l'.nextIndex[peers[i]] < l.nextIndex[peers[i]]
  }

  /** The two servers have moved, and are at rest. */
  ghost predicate PairMoved(c: Cluster, c': Cluster, n: NodeId, p: NodeId) {
    && n in c'.servers && p in c'.servers
    && c'.servers == c.servers[p := c'.servers[p]][n := c'.servers[n]]
    && c'.servers[n].activity.Idle? && c'.servers[p].activity.Idle?
  }

  lemma OneRound(cfg: Config, c0: Cluster, run: seq<Cluster>, c: Cluster, n: NodeId, i: nat,
                 p: NodeId)
    returns (run': seq<Cluster>, c': Cluster, done: bool)
    requires cfg.sendsEntries && Ready(cfg, c0, run, c, n) && c.servers[n].activity.Idle?
    requires i < |cfg.peers[n]| && cfg.peers[n][i] == p && ReadyPeer(cfg, c, n, p)
    requires Fits(cfg.peers[n], i, c.servers[n].node, c.servers[p].node)
    ensures Ready(cfg, c0, run', c', n) && run <= run' && PairMoved(c, c', n, p)
    ensures ReadyPeer(cfg, c', n, p)
    ensures var l, l', f' := c.servers[n].node, c'.servers[n].node, c'.servers[p].node;
            if done then CaughtUp(l, l', f', p) else BackedOff(cfg.peers[n], i, l, l', f')
  {
    var peers, l, f := cfg.peers[n], c.servers[n].node, c.servers[p].node;
    assert p in SeqSet(peers);
    run', c' := RoundWithPeer(cfg, c0, run, c, n, i, p);
    done := Exchange(true, n, peers, i, l, f).2;
    if done {
      Success(n, peers, i, l, f);
      if l.commitIndex < |l.log| {
        FollowerCommits(n, peers, i, l, f);
      }
    } else {
      BackOff(n, peers, i, l, f);
    }
  }

  /** Rounds until the peer has everything. */
  lemma {:induction false} RoundsUntilDone(cfg: Config, c0: Cluster, run: seq<Cluster>, c: Cluster,
                                           n: NodeId, i: nat, p: NodeId)
    returns (run': seq<Cluster>, c': Cluster)
    requires cfg.sendsEntries && Ready(cfg, c0, run, c, n) && c.servers[n].activity.Idle?
    requires i < |cfg.peers[n]| && cfg.peers[n][i] == p && ReadyPeer(cfg, c, n, p)
    requires Fits(cfg.peers[n], i, c.servers[n].node, c.servers[p].node)
    ensures PathFrom(cfg, run', c0, c') && run <= run' && PairMoved(c, c', n, p)
    ensures CaughtUp(c.servers[n].node, c'.servers[n].node, c'.servers[p].node, p)
    decreases if p in c.servers[n].node.nextIndex then c.servers[n].node.nextIndex[p] else 0
  {
    var done;
    run', c', done := OneRound(cfg, c0, run, c, n, i, p);
    if !done {
      run', c' := RoundsUntilDone(cfg, c0, run', c', n, i, p);
    }
  }

  /** Catching up as runs: every run with a leader, and a peer that has not gone beyond its term,
      can go on, whatever the two are doing, to a state where the same leader leads the same
      term and the peer holds its whole log. */
  lemma RunsCanCatchUp(cfg: Config, run: seq<Cluster>, n: NodeId, i: nat)
    returns (run': seq<Cluster>)
    requires RunningFully(cfg, run) && LeadsAt(run, |run| - 1, n)
    requires n in cfg.peers && i < |cfg.peers[n]| && Present(run, |run| - 1, cfg.peers[n][i])
    requires NodeAt(run, |run| - 1, cfg.peers[n][i]).currentTerm
          <= NodeAt(run, |run| - 1, n).currentTerm
    ensures RunningFully(cfg, run') && run <= run'
    ensures LeadsAt(run', |run'| - 1, n) && Present(run', |run'| - 1, cfg.peers[n][i])
    ensures var l, p := NodeAt(run, |run| - 1, n), cfg.peers[n][i];
            var l', f' := NodeAt(run', |run'| - 1, n), NodeAt(run', |run'| - 1, p);
            && l'.currentTerm == l.currentTerm && l'.log == l.log <= f'.log
            && p in l'.matchIndex && l'.matchIndex[p] == |l.log| - 1
  {
    var p := cfg.peers[n][i];
    assert p in SeqSet(cfg.peers[n]);
    LastFacts(cfg, run, n);
    var run1 := Settle(cfg, run, p);
    LastFacts(cfg, run1, n);
    var run2 := Settle(cfg, run1, n);
    run' := FromRest(cfg, run2, n, i, p);
  }

  lemma FromRest(cfg: Config, run: seq<Cluster>, n: NodeId, i: nat, p: NodeId)
    returns (run': seq<Cluster>)
    requires RunningFully(cfg, run) && LeadsAt(run, |run| - 1, n) && Present(run, |run| - 1, p)
    requires n in cfg.peers && i < |cfg.peers[n]| && cfg.peers[n][i] == p && p != n
    requires run[|run| - 1].servers[n].activity.Idle? && run[|run| - 1].servers[p].activity.Idle?
    requires NodeAt(run, |run| - 1, p).currentTerm <= NodeAt(run, |run| - 1, n).currentTerm
    ensures RunningFully(cfg, run') && run <= run'
    ensures LeadsAt(run', |run'| - 1, n) && Present(run', |run'| - 1, p)
    ensures var l := NodeAt(run, |run| - 1, n);
            var l', f' := NodeAt(run', |run'| - 1, n), NodeAt(run', |run'| - 1, p);
            && l'.currentTerm == l.currentTerm && l'.log == l.log <= f'.log
            && p in l'.matchIndex && l'.matchIndex[p] == |l.log| - 1
  {
    LastFacts(cfg, run, n);
    LastFacts(cfg, run, p);
    RunIsPath(cfg, run);
    ReachableFits(cfg, run, |run| - 1, n, i);
    var c';
    run', c' := RoundsUntilDone(cfg, run[0], run, run[|run| - 1], n, i, p);
    PathIsRun(cfg, run', c');
  }
}
