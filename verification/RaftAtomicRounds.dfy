/** The steps of the cluster against the methods of the node object. A server that holds its lock
    is interleaved with all the others, yet each stretch from taking the lock to releasing it
    has exactly the effect of one call of StartElection or Heartbeat. */
module RaftAtomicRounds {
  import opened RaftTypes
  import opened RaftSteps
  import opened RaftRounds
  import opened RaftCluster
  import opened RaftSafety

  /** Server n is busy strictly between the positions i and j of the run, and idle at both. */
  ghost predicate BusyBetween(run: seq<Cluster>, i: nat, j: nat, n: NodeId) {
    && i + 1 < j < |run|
    && IdleAt(run, i, n) && IdleAt(run, j, n)
    && forall k :: i < k < j ==> BusyAt(run, k, n)
  }

  ghost predicate IdleAt(run: seq<Cluster>, k: nat, n: NodeId) {
    Present(run, k, n) && run[k].servers[n].activity.Idle?
  }

  ghost predicate BusyAt(run: seq<Cluster>, k: nat, n: NodeId) {
    Present(run, k, n) && !run[k].servers[n].activity.Idle?
  }

  ghost predicate ElectingAt(run: seq<Cluster>, k: nat, n: NodeId) {
    Present(run, k, n) && run[k].servers[n].activity.Electing?
  }

  ghost predicate HeartbeatingAt(run: seq<Cluster>, k: nat, n: NodeId) {
    Present(run, k, n) && run[k].servers[n].activity.Heartbeating?
  }

  /** The outcomes are padded with failed calls where the loop stopped early. */
  function Padded<T>(outs: seq<Option<T>>, total: nat): (r: seq<Option<T>>)
    requires |outs| <= total
    ensures |r| == total && outs <= r
  {
    outs + seq(total - |outs|, _ => None)
  }

  // ---------- elections ----------

  /** Every outcome that is a reply has come from its peer, for the candidate's own request. */
  ghost predicate VotesArrived(net: set<Message>, n: NodeId, peers: seq<NodeId>, s: NodeState,
                               outs: seq<Option<RequestVoteReply>>)
    requires |outs| <= |peers| && |s.log| > 0
  {
    forall k :: 0 <= k < |outs| && outs[k].Some? ==>
      VoteReply(peers[k], VoteArgs(n, s), outs[k].value) in net
  }

  /** After the outcomes `outs` the election that began in `start` is in `sv`. */
  ghost predicate ElectionReaches(start: Server, sv: Server, outs: seq<Option<RequestVoteReply>>,
                                  total: nat) {
    && start.activity == Electing(0, 1)
    && sv.activity.Electing? && sv.activity.next == |outs| <= total && sv.node == start.node
    && forall outcomes :: |outcomes| == total && outs <= outcomes ==>
         ElectionLoop(start, outcomes) == ElectionLoop(sv, outcomes)
  }

  lemma VoteTaken(start: Server, sv: Server, outs: seq<Option<RequestVoteReply>>, total: nat,
                  vote: Option<RequestVoteReply>)
    requires ElectionReaches(start, sv, outs, total) && |outs| < total
    ensures var sv' := TakeVoteReply(sv, vote);
            if sv'.activity.Idle?
            then ElectionLoop(start, Padded(outs + [vote], total)) == sv'
            else ElectionReaches(start, sv', outs + [vote], total)
  {
    var sv' := TakeVoteReply(sv, vote);
    forall outcomes | |outcomes| == total && outs + [vote] <= outcomes
      ensures ElectionLoop(start, outcomes)
           == if sv'.activity.Idle? then sv' else ElectionLoop(sv', outcomes)
    {
      assert outs <= outs + [vote] && outcomes[|outs|] == (outs + [vote])[|outs|] == vote;
    }
  }

  lemma {:induction false} VotesSoFar(cfg: Config, run: seq<Cluster>, i: nat, k: nat, n: NodeId)
    returns (outs: seq<Option<RequestVoteReply>>)
    requires Running(cfg, run) && i < k < |run| && IdleAt(run, i, n)
    requires forall q :: i < q <= k ==> BusyAt(run, q, n)
    requires BusyAt(run, k, n)
    requires ElectingAt(run, i + 1, n)
    ensures n in cfg.peers && |outs| <= |cfg.peers[n]| && |NodeAt(run, i, n).log| > 0
    ensures ElectionReaches(BecomeCandidate(n, NodeAt(run, i, n)), run[k].servers[n], outs,
                            |cfg.peers[n]|)
    ensures VotesArrived(run[k].net, n, cfg.peers[n], run[k].servers[n].node, outs)
    decreases k
  {
    var m, action := StepOf(cfg, run, k - 1);
    if k == i + 1 {
      assert m == n && action.BeginElection?;
      outs := [];
    } else {
      outs := VotesSoFar(cfg, run, i, k - 1, n);
      assert BusyAt(run, k, n);
      if m == n && action.TakeVote? {
        VoteTaken(BecomeCandidate(n, NodeAt(run, i, n)), run[k - 1].servers[n], outs,
                  |cfg.peers[n]|, action.vote);
        outs := outs + [action.vote];
      }
    }
  }

  /** An election in a run is one call of StartElection, for outcomes that are replies to its
      requests. */
  lemma ElectionIsOneRound(cfg: Config, run: seq<Cluster>, i: nat, j: nat, n: NodeId)
    returns (outcomes: seq<Option<RequestVoteReply>>)
    requires Running(cfg, run) && BusyBetween(run, i, j, n)
    requires ElectingAt(run, i + 1, n)
    ensures n in cfg.peers && |outcomes| == |cfg.peers[n]| && |NodeAt(run, i, n).log| > 0
    ensures NodeAt(run, i, n).role != Leader
    ensures NodeAt(run, j, n) == ElectionRound(n, cfg.peers[n], NodeAt(run, i, n), outcomes)
    ensures VotesArrived(run[j].net, n, cfg.peers[n],
                         BecomeCandidate(n, NodeAt(run, i, n)).node, outcomes)
  {
    var m0, action0 := StepOf(cfg, run, i);
    assert BusyAt(run, i + 1, n);
    assert m0 == n && action0.BeginElection?;
    var outs := VotesSoFar(cfg, run, i, j - 1, n);
    var m, action := StepOf(cfg, run, j - 1);
    var start, sv, total := BecomeCandidate(n, NodeAt(run, i, n)), run[j - 1].servers[n],
                            |cfg.peers[n]|;
    if action.TakeVote? {
      VoteTaken(start, sv, outs, total, action.vote);
      outs := outs + [action.vote];
    } else {
      assert Padded(outs, total) == outs;
    }
    outcomes := Padded(outs, total);
  }

  /** Elections in runs: whatever other servers do meanwhile, the candidacy is decided by the replies
      to its own request as ElectionOutcome says. */
  lemma ElectionsAreDecided(cfg: Config, run: seq<Cluster>, i: nat, j: nat, n: NodeId)
    returns (outcomes: seq<Option<RequestVoteReply>>)
    requires Running(cfg, run) && BusyBetween(run, i, j, n)
    requires ElectingAt(run, i + 1, n)
    ensures n in cfg.peers && |outcomes| == |cfg.peers[n]| && |NodeAt(run, i, n).log| > 0
    ensures ElectionOutcome(n, cfg.peers[n], NodeAt(run, i, n), outcomes, NodeAt(run, j, n))
    ensures forall k :: 0 <= k < |outcomes| && outcomes[k].Some? ==>
              var last := NodeAt(run, i, n).log[|NodeAt(run, i, n).log| - 1];
              VoteReply(cfg.peers[n][k],
                        RequestVoteArgs(NodeAt(run, i, n).currentTerm + 1, n, last.index,
                                        last.term), outcomes[k].value) in run[j].net
  {
    outcomes := ElectionIsOneRound(cfg, run, i, j, n);
    ElectionDecides(n, cfg.peers[n], NodeAt(run, i, n), outcomes);
  }

  // ---------- heartbeat rounds ----------

  /** Every outcome that is a reply has come from its peer, for the request sent to it. */
  ghost predicate AcksArrived(net: set<Message>, peers: seq<NodeId>,
                              sent: seq<(NodeId, AppendEntriesArgs)>,
                              outs: seq<Option<AppendEntriesReply>>)
    requires |outs| <= |peers|
  {
    forall k :: 0 <= k < |outs| && outs[k].Some? ==>
      && k < |sent| && sent[k].0 == peers[k]
      && AppendReply(peers[k], sent[k].1, outs[k].value) in net
  }

  /** After the outcomes `outs` the round that began in `start` is in `sv` and has sent `sent`. */
  ghost predicate RoundReaches(cfg: Config, n: NodeId, start: Server, sv: Server,
                               outs: seq<Option<AppendEntriesReply>>,
                               sent: seq<(NodeId, AppendEntriesArgs)>)
    requires n in cfg.peers
  {
    var peers := cfg.peers[n];
    && start.activity == Heartbeating(0) && LocalOk(peers, start.node) && start.node.role == Leader
    && sv.activity.Heartbeating? && sv.activity.next == |outs| == |sent| <= |peers|
    && LocalOk(peers, sv.node) && sv.node.role == Leader
    && forall outcomes :: |outcomes| == |peers| && outs <= outcomes ==>
         HeartbeatLoop(cfg.sendsEntries, n, peers, start, outcomes, [])
         == HeartbeatLoop(cfg.sendsEntries, n, peers, sv, outcomes, sent)
  }

  lemma AckTaken(cfg: Config, n: NodeId, start: Server, sv: Server,
                 outs: seq<Option<AppendEntriesReply>>, sent: seq<(NodeId, AppendEntriesArgs)>,
                 ack: Option<AppendEntriesReply>, sent': seq<(NodeId, AppendEntriesArgs)>)
    requires n in cfg.peers && RoundReaches(cfg, n, start, sv, outs, sent)
    requires |outs| < |cfg.peers[n]|
    requires var peer := cfg.peers[n][|outs|];
             && peer in sv.node.nextIndex && 1 <= sv.node.nextIndex[peer] <= |sv.node.log|
             && sent' == sent + [(peer, AppendArgs(cfg.sendsEntries, n, sv.node, peer))]
    ensures var sv' := TakeAppendReply(cfg.peers[n], sv, ack);
            if sv'.activity.Idle?
            then HeartbeatLoop(cfg.sendsEntries, n, cfg.peers[n], start,
                               Padded(outs + [ack], |cfg.peers[n]|), []) == Round(sv'.node, sent')
            else RoundReaches(cfg, n, start, sv', outs + [ack], sent')
  {
    var peers := cfg.peers[n];
    var sv' := TakeAppendReply(peers, sv, ack);
    TakeAppendReplyKeepsLocalOk(peers, sv, ack);
    forall outcomes | |outcomes| == |peers| && outs + [ack] <= outcomes
      ensures HeartbeatLoop(cfg.sendsEntries, n, peers, start, outcomes, [])
           == if sv'.activity.Idle? then Round(sv'.node, sent')
              else HeartbeatLoop(cfg.sendsEntries, n, peers, sv', outcomes, sent')
    {
      assert outs <= outs + [ack] && outcomes[|outs|] == (outs + [ack])[|outs|] == ack;
    }
  }

  lemma {:induction false} AcksSoFar(cfg: Config, run: seq<Cluster>, i: nat, k: nat, n: NodeId)
    returns (outs: seq<Option<AppendEntriesReply>>, sent: seq<(NodeId, AppendEntriesArgs)>)
    requires Running(cfg, run) && i < k < |run| && IdleAt(run, i, n)
    requires forall q :: i < q <= k ==> BusyAt(run, q, n)
    requires BusyAt(run, k, n)
    requires HeartbeatingAt(run, i + 1, n)
    ensures n in cfg.peers && |outs| <= |cfg.peers[n]|
    ensures RoundReaches(cfg, n, Server(NodeAt(run, i, n), Heartbeating(0)), run[k].servers[n],
                         outs, sent)
    ensures AcksArrived(run[k].net, cfg.peers[n], sent, outs)
    decreases k
  {
    var m, action := StepOf(cfg, run, k - 1);
    if k == i + 1 {
      assert m == n && action.BeginHeartbeat?;
      outs, sent := [], [];
    } else {
      outs, sent := AcksSoFar(cfg, run, i, k - 1, n);
      assert BusyAt(run, k, n);
      if m == n && action.TakeAck? {
        outs, sent := OneMoreAck(cfg, run[k - 1], n, Server(NodeAt(run, i, n), Heartbeating(0)),
                                 outs, sent, action.ack);
      }
    }
  }

  lemma OneMoreAck(cfg: Config, c: Cluster, n: NodeId, start: Server,
                   outs: seq<Option<AppendEntriesReply>>, sent: seq<(NodeId, AppendEntriesArgs)>,
                   ack: Option<AppendEntriesReply>)
    returns (outs': seq<Option<AppendEntriesReply>>, sent': seq<(NodeId, AppendEntriesArgs)>)
    requires cfg.matchesReplies && Enabled(cfg, c, n, TakeAck(ack))
    requires RoundReaches(cfg, n, start, c.servers[n], outs, sent)
    requires AcksArrived(c.net, cfg.peers[n], sent, outs)
    ensures LocalOk(cfg.peers[n], c.servers[n].node) && c.servers[n].node.role == Leader
    ensures |outs'| <= |cfg.peers[n]|
    ensures var sv' := TakeAppendReply(cfg.peers[n], c.servers[n], ack);
            if sv'.activity.Idle?
            then HeartbeatLoop(cfg.sendsEntries, n, cfg.peers[n], start,
                               Padded(outs', |cfg.peers[n]|), []) == Round(sv'.node, sent')
            else RoundReaches(cfg, n, start, sv', outs', sent')
    ensures AcksArrived(c.net, cfg.peers[n], sent', outs')
  {
    sent' := OneMoreSent(cfg, n, c.servers[n], sent);
    AckTaken(cfg, n, start, c.servers[n], outs, sent, ack, sent');
    outs' := outs + [ack];
    forall k | 0 <= k < |outs'| && outs'[k].Some?
      ensures sent'[k].0 == cfg.peers[n][k]
           && AppendReply(cfg.peers[n][k], sent'[k].1, outs'[k].value) in c.net
    {
      assert k < |outs| ==> outs[k] == outs'[k] && sent[k] == sent'[k];
    }
  }

  lemma OneMoreSent(cfg: Config, n: NodeId, sv: Server, sent: seq<(NodeId, AppendEntriesArgs)>)
    returns (sent': seq<(NodeId, AppendEntriesArgs)>)
    requires n in cfg.peers && sv.activity.Heartbeating? && sv.activity.next < |cfg.peers[n]|
    requires LocalOk(cfg.peers[n], sv.node) && sv.node.role == Leader
    ensures var peer := cfg.peers[n][sv.activity.next];
            && peer in sv.node.nextIndex && 1 <= sv.node.nextIndex[peer] <= |sv.node.log|
            && sent' == sent + [(peer, AppendArgs(cfg.sendsEntries, n, sv.node, peer))]
  {
    var peer := cfg.peers[n][sv.activity.next];
    sent' := sent + [(peer, AppendArgs(cfg.sendsEntries, n, sv.node, peer))];
  }

  /** A heartbeat round in a run is one call of Heartbeat, for outcomes that are replies to the
      requests which that call sends. */
  lemma HeartbeatIsOneRound(cfg: Config, run: seq<Cluster>, i: nat, j: nat, n: NodeId)
    returns (outcomes: seq<Option<AppendEntriesReply>>)
    requires Running(cfg, run) && BusyBetween(run, i, j, n)
    requires HeartbeatingAt(run, i + 1, n)
    ensures n in cfg.peers && |outcomes| == |cfg.peers[n]|
    ensures LocalOk(cfg.peers[n], NodeAt(run, i, n))
    ensures var round := HeartbeatRound(cfg.sendsEntries, n, cfg.peers[n], NodeAt(run, i, n),
                                        outcomes);
            && NodeAt(run, j, n) == round.node
            && AcksArrived(run[j].net, cfg.peers[n], round.sent, outcomes)
  {
    var outs, sent := AcksSoFar(cfg, run, i, j - 1, n);
    var start := Server(NodeAt(run, i, n), Heartbeating(0));
    outs, sent := RoundCloses(cfg, run, j, n, start, outs, sent);
    outcomes := Padded(outs, |cfg.peers[n]|);
  }

  /** The step with which server n comes to rest again. */
  lemma RoundCloses(cfg: Config, run: seq<Cluster>, j: nat, n: NodeId, start: Server,
                    outs: seq<Option<AppendEntriesReply>>, sent: seq<(NodeId, AppendEntriesArgs)>)
    returns (outs': seq<Option<AppendEntriesReply>>, sent': seq<(NodeId, AppendEntriesArgs)>)
    requires Running(cfg, run) && 0 < j < |run| && n in cfg.peers
    requires HeartbeatingAt(run, j - 1, n) && IdleAt(run, j, n)
    requires RoundReaches(cfg, n, start, run[j - 1].servers[n], outs, sent)
    requires AcksArrived(run[j - 1].net, cfg.peers[n], sent, outs)
    ensures |outs'| <= |cfg.peers[n]| && AcksArrived(run[j].net, cfg.peers[n], sent', outs')
    ensures HeartbeatLoop(cfg.sendsEntries, n, cfg.peers[n], start,
                          Padded(outs', |cfg.peers[n]|), []) == Round(NodeAt(run, j, n), sent')
  {
    var m, action := StepOf(cfg, run, j - 1);
    if action.TakeAck? {
      outs', sent' := OneMoreAck(cfg, run[j - 1], n, start, outs, sent, action.ack);
    } else {
      outs', sent' := outs, sent;
      assert Padded(outs, |cfg.peers[n]|) == outs;
      RoundEnds(cfg, n, start, run[j - 1].servers[n], outs, sent);
    }
  }

  lemma RoundEnds(cfg: Config, n: NodeId, start: Server, sv: Server,
                  outs: seq<Option<AppendEntriesReply>>, sent: seq<(NodeId, AppendEntriesArgs)>)
    requires n in cfg.peers && RoundReaches(cfg, n, start, sv, outs, sent)
    requires |outs| == |cfg.peers[n]|
    ensures HeartbeatLoop(cfg.sendsEntries, n, cfg.peers[n], start, outs, [])
         == Round(sv.node, sent)
  {
  }
}
