/** Every step keeps the invariant, so every run has a history. */
module RaftRuns {
  import opened RaftTypes
  import opened LogMerge
  import opened CommitRule
  import opened RaftSteps
  import opened RaftCluster
  import opened RaftHistory
  import opened RaftInvariant
  import opened RaftPreservation
  import opened RaftElections
  import opened RaftReplication

  lemma SeatOf(cfg: Config, n: NodeId)
    requires ValidConfig(cfg) && n in cfg.peers
    ensures Seat(cfg.peers.Keys, n, cfg.peers[n])
  {
  }

  /** No reachable step reads outside a log or a leader's index maps. */
  lemma StepIsSafe(cfg: Config, c: Cluster, h: History, n: NodeId, action: Action)
    requires ValidConfig(cfg) && Inv(cfg, c, h) && Enabled(cfg, c, n, action)
    ensures Safe(cfg, c, n, action)
  {
    assert ServerOk(cfg.peers[n], h, n, c.servers[n]);
    if action.ReceiveAppendRequest? {
      assert MessageOk(h, AppendRequest(n, action.appendArgs));
      assert ReignOk(cfg.peers.Keys, h, action.appendArgs.term);
      RequestNumbered(h, n, action.appendArgs);
    }
  }

  /** The part of the invariant that concerns server n and the history. */
  ghost predicate LocalInv(cfg: Config, h: History, n: NodeId, sv: Server) {
    && n in cfg.peers
    && h.carries == cfg.sendsEntries
    && HistoryOk(cfg.peers.Keys, h)
    && ServerOk(cfg.peers[n], h, n, sv)
  }

  ghost predicate StepOk(cfg: Config, h: History, h': History, n: NodeId, sv': Server,
                         sent: set<Message>) {
    && ContinuesBy(h, h', n)
    && LocalInv(cfg, h', n, sv')
    && MessagesOk(h', sent)
  }

  lemma BeginElectionStep(cfg: Config, h: History, n: NodeId, sv: Server) returns (h': History)
    requires ValidConfig(cfg) && LocalInv(cfg, h, n, sv) && sv.activity.Idle?
    ensures StepOk(cfg, h, h', n, BecomeCandidate(n, sv.node), {})
  {
    SeatOf(cfg, n);
    h' := CandidacyHistory(h, n, sv.node);
    BeginElectionHistory(cfg.peers.Keys, h, n, sv.node);
    BeginElectionServer(cfg.peers.Keys, cfg.peers[n], h, n, sv);
  }

  lemma EndElectionStep(cfg: Config, h: History, n: NodeId, sv: Server) returns (h': History)
    requires ValidConfig(cfg) && LocalInv(cfg, h, n, sv)
    requires sv.activity.Electing? && sv.activity.next == |cfg.peers[n]|
    ensures StepOk(cfg, h, h', n, FinishElection(cfg.peers[n], sv), {})
  {
    SeatOf(cfg, n);
    var peers := cfg.peers[n];
    if sv.activity.votes >= VoteQuorum(|peers| + 1) {
      h' := VictoryHistory(h, n, sv.node, peers);
      EndElectionHistory(cfg.peers.Keys, peers, h, n, sv);
      EndElectionServer(cfg.peers.Keys, peers, h, n, sv);
    } else {
      h' := h;
    }
  }

  lemma ReceiveVoteRequestStep(cfg: Config, h: History, n: NodeId, sv: Server,
                               args: RequestVoteArgs) returns (h': History)
    requires ValidConfig(cfg) && LocalInv(cfg, h, n, sv) && sv.activity.Idle?
    requires MessageOk(h, VoteRequest(n, args))
    ensures var (s, reply) := HandleRequestVote(sv.node, args);
            StepOk(cfg, h, h', n, sv.(node := s), {VoteReply(n, args, reply)})
  {
    h' := h;
    if Granted(sv.node, args) {
      h' := GrantHistory(h, n, args);
      GrantHistoryOk(cfg.peers.Keys, h, n, sv.node, args);
    }
    VoteServer(cfg.peers.Keys, cfg.peers[n], h, n, sv, args);
  }

  lemma ReceiveAppendRequestStep(cfg: Config, h: History, n: NodeId, sv: Server,
                                 args: AppendEntriesArgs) returns (h': History)
    requires ValidConfig(cfg) && LocalInv(cfg, h, n, sv) && sv.activity.Idle?
    requires AppendArgsOk(h, n, args) && Numbered(args)
    ensures var (s, reply) := HandleAppendEntries(sv.node, args);
            StepOk(cfg, h, h', n, sv.(node := s), {AppendReply(n, args, reply)})
  {
    h' := h;
    var s := sv.node;
    if args.term >= s.currentTerm {
      FollowTerm(cfg.peers[n], h, n, sv, args.term);
      var s1 := s.(role := Follower, currentTerm := args.term);
      if args.prevLogIndex < |s.log| && s.log[args.prevLogIndex].term == args.prevLogTerm {
        h' := AcceptStep(cfg, h, n, Server(s1, Idle), args);
      }
    }
  }

  lemma AcceptStep(cfg: Config, h: History, n: NodeId, sv: Server, args: AppendEntriesArgs)
    returns (h': History)
    requires LocalInv(cfg, h, n, sv) && sv.activity.Idle?
    requires sv.node.role == Follower && sv.node.currentTerm == args.term
    requires AppendArgsOk(h, n, args) && Numbered(args)
    requires args.prevLogIndex < |sv.node.log|
    requires sv.node.log[args.prevLogIndex].term == args.prevLogTerm
    ensures WellFormed(Merge(sv.node.log, args.prevLogIndex, args.entries))
    ensures StepOk(cfg, h, h', n,
              sv.(node := Commit(sv.node.(log := Merge(sv.node.log, args.prevLogIndex, args.entries)),
                                 args.leaderCommit)),
              {AppendReply(n, args, AppendEntriesReply(args.term, true))})
  {
    var last := args.prevLogIndex + |args.entries|;
    h' := FollowHistory(h, n, args.term, last);
    FollowHistoryOk(cfg.peers.Keys, h, n, sv.node, args.term, last);
    Accept(cfg.peers.Keys, cfg.peers[n], h, n, sv, args);
    AcceptanceOk(h, n, args);
    var merged := sv.node.(log := Merge(sv.node.log, args.prevLogIndex, args.entries));
    PartsMakeStep(cfg, h, h', n, sv.(node := Commit(merged, args.leaderCommit)),
                  {AppendReply(n, args, AppendEntriesReply(args.term, true))});
  }

  lemma PartsMakeStep(cfg: Config, h: History, h': History, n: NodeId, sv': Server,
                      sent: set<Message>)
    requires n in cfg.peers && h'.carries == cfg.sendsEntries
    requires ContinuesBy(h, h', n) && HistoryOk(cfg.peers.Keys, h')
    requires ServerOk(cfg.peers[n], h', n, sv') && MessagesOk(h', sent)
    ensures StepOk(cfg, h, h', n, sv', sent)
  {
  }

  lemma AcceptanceOk(h: History, n: NodeId, args: AppendEntriesArgs)
    ensures MessagesOk(FollowHistory(h, n, args.term, args.prevLogIndex + |args.entries|),
                       {AppendReply(n, args, AppendEntriesReply(args.term, true))})
  {
  }

  lemma SubmittedEntry(s: NodeState, key: string, value: string)
    requires WellFormed(s.log) && s.role == Leader
    ensures SubmitLog(s, key, value).0
         == s.(log := s.log + [LogEntry(s.currentTerm, |s.log|, key, value)])
  {
  }

  lemma SubmitStep(cfg: Config, h: History, n: NodeId, sv: Server, key: string, value: string)
    returns (h': History)
    requires ValidConfig(cfg) && LocalInv(cfg, h, n, sv) && sv.activity.Idle?
    ensures StepOk(cfg, h, h', n, sv.(node := SubmitLog(sv.node, key, value).0), {})
  {
    var s := sv.node;
    if s.role == Leader {
      var entry := LogEntry(s.currentTerm, |s.log|, key, value);
      SubmittedEntry(s, key, value);
      SubmitAt(cfg.peers.Keys, cfg.peers[n], h, n, sv, entry);
      h' := SubmitHistory(h, n, s.currentTerm, entry);
    } else {
      h' := h;
    }
  }

  /** The request a leader builds slices its own log, to the end if it carries its entries. */
  lemma BuiltRequestOk(cfg: Config, h: History, n: NodeId, sv: Server, peer: NodeId)
    requires ValidConfig(cfg) && LocalInv(cfg, h, n, sv)
    requires sv.node.role == Leader && peer in cfg.peers[n]
    ensures peer in sv.node.nextIndex && 1 <= sv.node.nextIndex[peer] <= |sv.node.log|
    ensures AppendArgsOk(h, peer, AppendArgs(cfg.sendsEntries, n, sv.node, peer))
    ensures var args := AppendArgs(cfg.sendsEntries, n, sv.node, peer);
            cfg.sendsEntries ==> args.prevLogIndex + |args.entries| == |sv.node.log| - 1
  {
    SeatOf(cfg, n);
    assert peer in SeqSet(cfg.peers[n]);
  }

  lemma TakeAckStep(cfg: Config, h: History, n: NodeId, sv: Server,
                    ack: Option<AppendEntriesReply>) returns (h': History)
    requires ValidConfig(cfg) && LocalInv(cfg, h, n, sv)
    requires sv.activity.Heartbeating? && sv.activity.next < |cfg.peers[n]|
    requires cfg.sendsEntries && ack.Some? && ack.value.success ==>
               Acked(h, cfg.peers[n][sv.activity.next], sv.node.currentTerm, |sv.node.log| - 1)
    ensures StepOk(cfg, h, h', n, TakeAppendReply(cfg.peers[n], sv, ack), {})
  {
    h' := h;
    var peers := cfg.peers[n];
    var peer := peers[sv.activity.next];
    var s := sv.node;
    assert peer in SeqSet(peers);
    if ack.Some? {
      if ack.value.success {
        SuccessServer(peers, h, n, sv);
        var s1 := RecordSuccess(s, peer);
        h' := AdvanceStep(cfg, h, n, Server(s1, Heartbeating(sv.activity.next + 1)));
      } else if ack.value.term > s.currentTerm {
        RaiseTerm(peers, h, n, sv, ack.value.term, NO_VOTE);
      } else if s.nextIndex[peer] > 1 {
        BackOffServer(peers, h, n, sv);
      }
    }
  }

  lemma AdvanceStep(cfg: Config, h: History, n: NodeId, sv: Server) returns (h': History)
    requires ValidConfig(cfg) && LocalInv(cfg, h, n, sv) && sv.activity.Heartbeating?
    ensures StepOk(cfg, h, h', n, sv.(node := AdvanceCommit(cfg.peers[n], sv.node)), {})
  {
    SeatOf(cfg, n);
    h' := h;
    var peers := cfg.peers[n];
    var s := sv.node;
    var k := CommitCandidate(ReplicaIndices(peers, s));
    ReplicaIndicesInRange(peers, s);
    if k > s.commitIndex && s.log[k].term == s.currentTerm {
      h' := CommitHistory(h, s.currentTerm, k);
      if h.carries {
        CandidateIsHeld(cfg.peers.Keys, peers, h, n, s, k);
      }
      CommitHistoryOk(cfg.peers.Keys, h, n, s.currentTerm, k);
      CommitServer(peers, h, n, sv, k);
    }
  }

  /** Any enabled action of any server: it is safe, and its effect has a history. */
  lemma StepEffect(cfg: Config, c: Cluster, h: History, n: NodeId, action: Action)
    returns (h': History)
    requires ValidConfig(cfg) && Inv(cfg, c, h) && Enabled(cfg, c, n, action)
    ensures Safe(cfg, c, n, action)
    ensures var (sv', sent) := Effect(cfg, c, n, action);
            StepOk(cfg, h, h', n, sv', sent)
  {
    StepIsSafe(cfg, c, h, n, action);
    var sv := c.servers[n];
    assert ServerOk(cfg.peers[n], h, n, sv);
    assert LocalInv(cfg, h, n, sv);
    match action
    case ReceiveVoteRequest(args) =>
      assert MessageOk(h, VoteRequest(n, args));
      h' := ReceiveVoteRequestStep(cfg, h, n, sv, args);
    case ReceiveAppendRequest(args) =>
      assert MessageOk(h, AppendRequest(n, args));
      h' := ReceiveAppendRequestStep(cfg, h, n, sv, args);
    case Submit(key, value) => h' := SubmitStep(cfg, h, n, sv, key, value);
    case _ => h' := BackgroundEffect(cfg, c, h, n, action);
  }

  /** The actions of the election and heartbeat threads. */
  lemma BackgroundEffect(cfg: Config, c: Cluster, h: History, n: NodeId, action: Action)
    returns (h': History)
    requires ValidConfig(cfg) && cfg.matchesReplies && MessagesOk(h, c.net)
    requires Enabled(cfg, c, n, action) && Safe(cfg, c, n, action)
    requires LocalInv(cfg, h, n, c.servers[n])
    requires !action.ReceiveVoteRequest? && !action.ReceiveAppendRequest? && !action.Submit?
    ensures var (sv', sent) := Effect(cfg, c, n, action);
            StepOk(cfg, h, h', n, sv', sent)
  {
    SeatOf(cfg, n);
    var sv := c.servers[n];
    var peers := cfg.peers[n];
    h' := h;
    match action
    case BeginElection => h' := BeginElectionStep(cfg, h, n, sv);
    case SendVoteRequest =>
    case TakeVote(vote) =>
      if vote.Some? {
        assert MessageOk(h, VoteReply(peers[sv.activity.next], VoteArgs(n, sv.node), vote.value));
      }
      TakeVoteServer(cfg.peers.Keys, peers, h, n, sv, vote);
    case EndElection => h' := EndElectionStep(cfg, h, n, sv);
    case BeginHeartbeat =>
    case SendAppendRequest => BuiltRequestOk(cfg, h, n, sv, peers[sv.activity.next]);
    case TakeAck(ack) =>
      if ack.Some? {
        var args :| AppendReply(peers[sv.activity.next], args, ack.value) in c.net
                 && IsAppendArgs(cfg.sendsEntries, n, sv.node, peers[sv.activity.next], args);
        BuiltRequestOk(cfg, h, n, sv, peers[sv.activity.next]);
        assert MessageOk(h, AppendReply(peers[sv.activity.next], args, ack.value));
      }
      h' := TakeAckStep(cfg, h, n, sv, ack);
    case EndHeartbeat =>
  }

  lemma StepKeepsInv(cfg: Config, c: Cluster, c': Cluster, h: History) returns (h': History)
    requires ValidConfig(cfg) && Inv(cfg, c, h) && Next(cfg, c, c')
    ensures Inv(cfg, c', h') && Continues(h, h')
  {
    var n, action :| StepBy(cfg, c, c', n, action);
    h' := StepEffect(cfg, c, h, n, action);
    var (sv', sent) := Effect(cfg, c, n, action);
    Frame(cfg, c, h, h', n, sv', sent);
  }

  lemma InitInv(cfg: Config, c: Cluster)
    requires ValidConfig(cfg) && cfg.matchesReplies && Init(cfg, c)
    ensures Inv(cfg, c, NoHistory(cfg.sendsEntries))
  {
    forall n | n in c.servers ensures ServerOk(cfg.peers[n], NoHistory(cfg.sendsEntries), n, c.servers[n]) {
      assert c.servers[n] == INITIAL;
    }
  }

  ghost predicate IsHistory(cfg: Config, run: seq<Cluster>, hs: seq<History>) {
    && |hs| == |run|
    && (forall i {:trigger Inv(cfg, run[i], hs[i])} :: 0 <= i < |run| ==> Inv(cfg, run[i], hs[i]))
    && forall i, j {:trigger Continues(hs[i], hs[j])} ::
         0 <= i <= j < |hs| ==> Continues(hs[i], hs[j])
  }

  lemma RunPrefix(cfg: Config, run: seq<Cluster>)
    requires IsRun(cfg, run) && |run| > 1
    ensures IsRun(cfg, run[..|run| - 1]) && Next(cfg, run[|run| - 2], run[|run| - 1])
  {
    assert StepAt(cfg, run, |run| - 2);
    var before := run[..|run| - 1];
    forall i | 0 <= i < |before| - 1 ensures StepAt(cfg, before, i) {
      assert StepAt(cfg, run, i);
    }
  }

  lemma HistoryExtends(cfg: Config, run: seq<Cluster>, hs: seq<History>, c: Cluster, h: History)
    requires IsHistory(cfg, run, hs) && |run| > 0
    requires Inv(cfg, c, h) && Continues(hs[|hs| - 1], h)
    ensures IsHistory(cfg, run + [c], hs + [h])
  {
    var run', hs' := run + [c], hs + [h];
    forall i | 0 <= i < |run'| ensures Inv(cfg, run'[i], hs'[i]) {
      if i < |run| {
        assert Inv(cfg, run[i], hs[i]);
      }
    }
    forall i, j | 0 <= i <= j < |hs'| ensures Continues(hs'[i], hs'[j]) {
      if j < |hs| {
        assert Continues(hs[i], hs[j]);
      } else if i < |hs| {
        assert Continues(hs[i], hs[|hs| - 1]);
        ContinuesTransitive(hs[i], hs[|hs| - 1], h);
      }
    }
  }

  /** Every run has a history that only grows. */
  lemma {:induction false} RunHistory(cfg: Config, run: seq<Cluster>) returns (hs: seq<History>)
    requires ValidConfig(cfg) && cfg.matchesReplies && IsRun(cfg, run)
    ensures IsHistory(cfg, run, hs)
    decreases |run|
  {
    var last := |run| - 1;
    if last == 0 {
      InitInv(cfg, run[0]);
      hs := [NoHistory(cfg.sendsEntries)];
    } else {
      RunPrefix(cfg, run);
      var before := RunHistory(cfg, run[..last]);
      assert run[..last][last - 1] == run[last - 1];
      assert Inv(cfg, run[..last][last - 1], before[last - 1]);
      var h := StepKeepsInv(cfg, run[last - 1], run[last], before[last - 1]);
      HistoryExtends(cfg, run[..last], before, run[last], h);
      assert run == run[..last] + [run[last]];
      hs := before + [h];
    }
  }
}
