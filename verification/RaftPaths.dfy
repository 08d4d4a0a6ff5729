/** Building runs step by step: what a call that goes through or fails does to the servers. */
module RaftPaths {
  import opened RaftTypes
  import opened RaftSteps
  import opened RaftCluster

  ghost predicate Path(cfg: Config, run: seq<Cluster>) {
    |run| > 0 && forall i :: 0 <= i < |run| - 1 ==> StepAt(cfg, run, i)
  }

  ghost predicate PathFrom(cfg: Config, run: seq<Cluster>, c: Cluster, c': Cluster) {
    Path(cfg, run) && run[0] == c && run[|run| - 1] == c'
  }

  ghost predicate Ready(cfg: Config, c0: Cluster, run: seq<Cluster>, c: Cluster, n: NodeId) {
    && PathFrom(cfg, run, c0, c)
    && n in c.servers && n in cfg.peers && LocalOk(cfg.peers[n], c.servers[n].node)
  }

  ghost predicate ReadyPeer(cfg: Config, c: Cluster, n: NodeId, p: NodeId) {
    && p in c.servers && p in cfg.peers && p != n
    && c.servers[p].activity.Idle? && LocalOk(cfg.peers[p], c.servers[p].node)
  }

  lemma Extend(cfg: Config, c0: Cluster, run: seq<Cluster>, c: Cluster, n: NodeId, action: Action)
    returns (run': seq<Cluster>, c': Cluster)
    requires PathFrom(cfg, run, c0, c) && Enabled(cfg, c, n, action) && Safe(cfg, c, n, action)
    ensures PathFrom(cfg, run', c0, c') && run <= run'
    ensures c' == Perform(cfg, c, n, action)
  {
    c' := Perform(cfg, c, n, action);
    run' := run + [c'];
    assert StepBy(cfg, c, c', n, action);
    forall i | 0 <= i < |run'| - 1 ensures StepAt(cfg, run', i) {
      if i < |run| - 1 {
        assert StepAt(cfg, run, i);
      }
    }
  }

  /** The call for the next vote fails. */
  lemma MissVote(cfg: Config, c0: Cluster, run: seq<Cluster>, c: Cluster, n: NodeId)
    returns (run': seq<Cluster>, c': Cluster)
    requires Ready(cfg, c0, run, c, n) && c.servers[n].activity.Electing?
    requires c.servers[n].activity.next < |cfg.peers[n]|
    ensures PathFrom(cfg, run', c0, c') && run <= run'
    ensures c'.servers == c.servers[n := TakeVoteReply(c.servers[n], None)]
  {
    run', c' := Extend(cfg, c0, run, c, n, TakeVote(None));
  }

  /** The call for the next vote goes through. */
  lemma DeliverVote(cfg: Config, c0: Cluster, run: seq<Cluster>, c: Cluster, n: NodeId, p: NodeId)
    returns (run': seq<Cluster>, c': Cluster)
    requires Ready(cfg, c0, run, c, n) && ReadyPeer(cfg, c, n, p)
    requires var sv := c.servers[n];
             && sv.activity.Electing? && sv.activity.next < |cfg.peers[n]|
             && cfg.peers[n][sv.activity.next] == p
    ensures PathFrom(cfg, run', c0, c') && run <= run'
    ensures var (f', reply) := HandleRequestVote(c.servers[p].node, VoteArgs(n, c.servers[n].node));
            c'.servers == c.servers[p := Server(f', Idle)]
                                   [n := TakeVoteReply(c.servers[n], Some(reply))]
  {
    var args := VoteArgs(n, c.servers[n].node);
    var run1, c1 := Extend(cfg, c0, run, c, n, SendVoteRequest);
    var run2, c2 := Extend(cfg, c0, run1, c1, p, ReceiveVoteRequest(args));
    var reply := HandleRequestVote(c.servers[p].node, args).1;
    assert VoteReply(p, args, reply) in c2.net;
    run', c' := Extend(cfg, c0, run2, c2, n, TakeVote(Some(reply)));
  }

  /** The next replication call fails. */
  lemma MissAck(cfg: Config, c0: Cluster, run: seq<Cluster>, c: Cluster, n: NodeId)
    returns (run': seq<Cluster>, c': Cluster)
    requires Ready(cfg, c0, run, c, n) && c.servers[n].activity.Heartbeating?
    requires c.servers[n].activity.next < |cfg.peers[n]| && c.servers[n].node.role == Leader
    ensures PathFrom(cfg, run', c0, c') && run <= run'
    ensures c'.servers
         == c.servers[n := Server(c.servers[n].node, Heartbeating(c.servers[n].activity.next + 1))]
  {
    run', c' := Extend(cfg, c0, run, c, n, TakeAck(None));
  }

  /** All calls of the round before peers[upTo] fail. */
  lemma {:induction false} MissAcks(cfg: Config, c0: Cluster, run: seq<Cluster>, c: Cluster,
                                    n: NodeId, upTo: nat)
    returns (run': seq<Cluster>, c': Cluster)
    requires Ready(cfg, c0, run, c, n) && c.servers[n].activity.Heartbeating?
    requires c.servers[n].activity.next <= upTo <= |cfg.peers[n]|
    requires c.servers[n].node.role == Leader
    ensures PathFrom(cfg, run', c0, c') && run <= run'
    ensures c'.servers == c.servers[n := Server(c.servers[n].node, Heartbeating(upTo))]
    decreases upTo - c.servers[n].activity.next
  {
    run', c' := run, c;
    if c.servers[n].activity.next < upTo {
      run', c' := MissAck(cfg, c0, run, c, n);
      run', c' := MissAcks(cfg, c0, run', c', n, upTo);
    }
  }

  /** The next replication call goes through: sent, handled and acknowledged. */
  lemma DeliverAppend(cfg: Config, c0: Cluster, run: seq<Cluster>, c: Cluster, n: NodeId,
                      p: NodeId, args: AppendEntriesArgs)
    returns (run': seq<Cluster>, c': Cluster)
    requires Ready(cfg, c0, run, c, n) && ReadyPeer(cfg, c, n, p)
    requires c.servers[n].activity.Heartbeating? && c.servers[n].node.role == Leader
    requires c.servers[n].activity.next < |cfg.peers[n]|
    requires cfg.peers[n][c.servers[n].activity.next] == p
    requires IsAppendArgs(cfg.sendsEntries, n, c.servers[n].node, p, args) && Numbered(args)
    ensures PathFrom(cfg, run', c0, c') && run <= run'
    ensures LeaderIndicesOk(cfg.peers[n], c.servers[n].node)
    ensures var (f', reply) := HandleAppendEntries(c.servers[p].node, args);
            c'.servers == c.servers[p := Server(f', Idle)]
                                   [n := TakeAppendReply(cfg.peers[n], c.servers[n], Some(reply))]
  {
    var run1, c1 := Extend(cfg, c0, run, c, n, SendAppendRequest);
    var run2, c2 := Extend(cfg, c0, run1, c1, p, ReceiveAppendRequest(args));
    var reply := HandleAppendEntries(c.servers[p].node, args).1;
    assert AppendReply(p, args, reply) in c2.net;
    run', c' := Extend(cfg, c0, run2, c2, n, TakeAck(Some(reply)));
  }
}
