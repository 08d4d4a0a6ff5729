/** The safety claims of Raft, for every run of a cluster of any size. No statement here
    mentions the history: it only serves the proofs. */
module RaftSafety {
  import opened RaftTypes
  import opened LogMerge
  import opened CommitRule
  import opened RaftSteps
  import opened RaftCluster
  import opened RaftHistory
  import opened RaftInvariant
  import opened RaftRedelivery
  import opened RaftReplication
  import opened RaftRuns

  /** A run of a cluster whose members know each other and whose calls only take replies to their
      own requests. */
  ghost predicate Running(cfg: Config, run: seq<Cluster>) {
    ValidConfig(cfg) && cfg.matchesReplies && IsRun(cfg, run)
  }

  /** The same for requests that carry their entries. */
  ghost predicate RunningFully(cfg: Config, run: seq<Cluster>) {
    Running(cfg, run) && cfg.sendsEntries
  }

  /** Node n's state at position i of the run. */
  ghost function NodeAt(run: seq<Cluster>, i: nat, n: NodeId): NodeState
    requires i < |run| && n in run[i].servers
  {
    run[i].servers[n].node
  }

  ghost predicate Present(run: seq<Cluster>, i: nat, n: NodeId) {
    i < |run| && n in run[i].servers
  }

  ghost predicate LeadsAt(run: seq<Cluster>, i: nat, n: NodeId) {
    Present(run, i, n) && NodeAt(run, i, n).role == Leader
  }

  lemma FactsAt(cfg: Config, run: seq<Cluster>, hs: seq<History>, i: nat, n: NodeId)
    requires IsHistory(cfg, run, hs) && Present(run, i, n)
    ensures n in cfg.peers && HistoryOk(cfg.peers.Keys, hs[i]) && hs[i].carries == cfg.sendsEntries
    ensures ServerOk(cfg.peers[n], hs[i], n, run[i].servers[n])
  {
    assert Inv(cfg, run[i], hs[i]);
  }

  lemma MessageAt(cfg: Config, run: seq<Cluster>, hs: seq<History>, i: nat, m: Message)
    requires IsHistory(cfg, run, hs) && i < |run| && m in run[i].net
    ensures HistoryOk(cfg.peers.Keys, hs[i]) && MessageOk(hs[i], m)
    ensures hs[i].carries == cfg.sendsEntries
  {
    assert Inv(cfg, run[i], hs[i]);
  }

  // ---------- elections ----------

  /** Election safety: a term has at most one leader, at whatever times it is observed. */
  lemma ElectionSafety(cfg: Config, run: seq<Cluster>, i: nat, n: NodeId, j: nat, m: NodeId)
    requires Running(cfg, run) && LeadsAt(run, i, n) && LeadsAt(run, j, m)
    requires NodeAt(run, i, n).currentTerm == NodeAt(run, j, m).currentTerm
    ensures n == m
  {
    var hs := RunHistory(cfg, run);
    var t := NodeAt(run, i, n).currentTerm;
    FactsAt(cfg, run, hs, i, n);
    FactsAt(cfg, run, hs, j, m);
    if i <= j {
      assert Continues(hs[i], hs[j]) && ReignContinues(hs[i].reigns[t], hs[j].reigns[t]);
    } else {
      assert Continues(hs[j], hs[i]) && ReignContinues(hs[j].reigns[t], hs[i].reigns[t]);
    }
  }

  /** A node grants its vote to at most one candidate per term. */
  lemma SingleVote(cfg: Config, run: seq<Cluster>, i: nat, j: nat, from: NodeId,
                   a: RequestVoteArgs, ra: RequestVoteReply, b: RequestVoteArgs,
                   rb: RequestVoteReply)
    requires Running(cfg, run) && i < |run| && j < |run|
    requires VoteReply(from, a, ra) in run[i].net && VoteReply(from, b, rb) in run[j].net
    requires ra.voteGranted && rb.voteGranted && a.term == b.term
    ensures a.candidateId == b.candidateId
  {
    var hs := RunHistory(cfg, run);
    MessageAt(cfg, run, hs, i, VoteReply(from, a, ra));
    MessageAt(cfg, run, hs, j, VoteReply(from, b, rb));
    if i <= j {
      assert Continues(hs[i], hs[j]);
    } else {
      assert Continues(hs[j], hs[i]);
    }
  }

  // ---------- logs ----------

  lemma LogRootedLater(cfg: Config, run: seq<Cluster>, hs: seq<History>, i: nat, n: NodeId, j: nat)
    requires IsHistory(cfg, run, hs) && Present(run, i, n) && i <= j < |run|
    ensures Rooted(hs[j], NodeAt(run, i, n).log)
  {
    FactsAt(cfg, run, hs, i, n);
    assert Continues(hs[i], hs[j]);
    RootedContinues(hs[i], hs[j], NodeAt(run, i, n).log);
  }

  /** Log matching, also between different times: equal terms at a position mean equal logs up
      to it, and every index field is the entry's position. */
  lemma LogMatching(cfg: Config, run: seq<Cluster>, i: nat, n: NodeId, j: nat, m: NodeId)
    requires Running(cfg, run) && Present(run, i, n) && Present(run, j, m)
    ensures Matching(NodeAt(run, i, n).log, NodeAt(run, j, m).log)
    ensures WellFormed(NodeAt(run, i, n).log)
  {
    var hs := RunHistory(cfg, run);
    var last := if i <= j then j else i;
    LogRootedLater(cfg, run, hs, i, n, last);
    LogRootedLater(cfg, run, hs, j, m, last);
    RootedLogsMatch(hs[last], NodeAt(run, i, n).log, NodeAt(run, j, m).log);
  }

  ghost predicate AgreesWithEntry(log: Log, args: AppendEntriesArgs, k: nat)
    requires k < |args.entries|
  {
    var prev := args.prevLogIndex;
    (prev + 1 + k < |log| && log[prev + 1 + k].term == args.entries[k].term) ==>
      && log[prev].term == args.prevLogTerm
      && log[prev + 1..prev + 2 + k] == args.entries[..k + 1]
  }

  /** The same for the entries in flight: where a log has the term of a carried entry, it also
      has all carried entries before it, and prevLogIndex and prevLogTerm describe the entry
      they follow. */
  lemma MessageMatching(cfg: Config, run: seq<Cluster>, i: nat, to: NodeId,
                        args: AppendEntriesArgs, j: nat, m: NodeId, k: nat)
    requires Running(cfg, run) && i < |run| && AppendRequest(to, args) in run[i].net
    requires Present(run, j, m) && k < |args.entries|
    ensures Numbered(args)
    ensures AgreesWithEntry(NodeAt(run, j, m).log, args, k)
  {
    var hs := RunHistory(cfg, run);
    var last := if i <= j then j else i;
    MessageAt(cfg, run, hs, i, AppendRequest(to, args));
    assert Continues(hs[i], hs[last]);
    MessageContinues(hs[i], hs[last], AppendRequest(to, args));
    LogRootedLater(cfg, run, hs, j, m, last);
    assert Inv(cfg, run[last], hs[last]);
    CarriedEntriesMatch(cfg.peers.Keys, hs[last], to, args, NodeAt(run, j, m).log, k);
  }

  lemma CarriedEntriesMatch(members: set<NodeId>, h: History, to: NodeId, args: AppendEntriesArgs,
                            log: Log, k: nat)
    requires HistoryOk(members, h) && AppendArgsOk(h, to, args) && Rooted(h, log)
    requires k < |args.entries|
    ensures Numbered(args)
    ensures AgreesWithEntry(log, args, k)
  {
    assert ReignOk(members, h, args.term);
    RequestNumbered(h, to, args);
    RootedLogsMatch(h, log, h.reigns[args.term].built);
    CarriedEntries(log, h.reigns[args.term].built, args, k);
  }

  lemma CarriedEntries(log: Log, built: Log, args: AppendEntriesArgs, k: nat)
    requires Matching(log, built) && k < |args.entries|
    requires args.prevLogIndex + |args.entries| < |built|
    requires args.prevLogTerm == built[args.prevLogIndex].term
    requires args.entries == built[args.prevLogIndex + 1..args.prevLogIndex + |args.entries| + 1]
    ensures AgreesWithEntry(log, args, k)
  {
    var prev := args.prevLogIndex;
    var p := prev + 1 + k;
    if p < |log| && log[p].term == args.entries[k].term {
      assert args.entries[k] == built[p];
      assert MatchAt(log, built, p);
      assert log[prev] == log[..p + 1][prev] == built[..p + 1][prev];
      assert log[prev + 1..p + 1] == log[..p + 1][prev + 1..]
          == built[..p + 1][prev + 1..] == args.entries[..k + 1];
    }
  }

  // ---------- state machine safety ----------

  lemma CommittedAt(cfg: Config, run: seq<Cluster>, hs: seq<History>, i: nat, n: NodeId, j: nat)
    requires IsHistory(cfg, run, hs) && Present(run, i, n) && i <= j < |run|
    ensures var s := NodeAt(run, i, n);
            && s.lastApplied == s.commitIndex < |s.log|
            && s.store == FoldPuts(map[], s.log[1..s.commitIndex + 1])
            && WellFormed(s.log[..s.commitIndex + 1])
            && Certified(hs[j], s.log[..s.commitIndex + 1], s.currentTerm)
            && HistoryOk(cfg.peers.Keys, hs[j]) && hs[j].carries == cfg.sendsEntries
  {
    var s := NodeAt(run, i, n);
    FactsAt(cfg, run, hs, i, n);
    assert Continues(hs[i], hs[j]) && Inv(cfg, run[j], hs[j]);
    CertifiedContinues(hs[i], hs[j], s.log[..s.commitIndex + 1], s.currentTerm, s.currentTerm);
  }

  /** State machine safety: what two nodes have applied, at any two times, is the beginning of
      one and the same sequence of entries. */
  lemma StateMachineSafety(cfg: Config, run: seq<Cluster>, i: nat, n: NodeId, j: nat, m: NodeId)
    requires RunningFully(cfg, run) && Present(run, i, n) && Present(run, j, m)
    ensures var a, b := NodeAt(run, i, n), NodeAt(run, j, m);
            && a.lastApplied < |a.log| && b.lastApplied < |b.log|
            && var k := Min(a.lastApplied, b.lastApplied);
            a.log[..k + 1] == b.log[..k + 1]
  {
    var hs := RunHistory(cfg, run);
    var last := if i <= j then j else i;
    var a, b := NodeAt(run, i, n), NodeAt(run, j, m);
    CommittedAt(cfg, run, hs, i, n, last);
    CommittedAt(cfg, run, hs, j, m, last);
    CertifiedAgree(cfg.peers.Keys, hs[last], a, b);
  }

  lemma CertifiedAgree(members: set<NodeId>, h: History, a: NodeState, b: NodeState)
    requires h.carries && HistoryOk(members, h)
    requires a.commitIndex < |a.log| && WellFormed(a.log[..a.commitIndex + 1])
    requires b.commitIndex < |b.log| && WellFormed(b.log[..b.commitIndex + 1])
    requires Certified(h, a.log[..a.commitIndex + 1], a.currentTerm)
    requires Certified(h, b.log[..b.commitIndex + 1], b.currentTerm)
    ensures var k := Min(a.commitIndex, b.commitIndex);
            a.log[..k + 1] == b.log[..k + 1]
  {
    CertifiedLogsAgree(members, h, a.log[..a.commitIndex + 1], a.currentTerm,
                       b.log[..b.commitIndex + 1], b.currentTerm);
    ShorterAgrees(a.log, a.commitIndex, b.log, b.commitIndex);
  }

  lemma ShorterAgrees(a: Log, ka: nat, b: Log, kb: nat)
    requires ka < |a| && kb < |b|
    requires a[..ka + 1] <= b[..kb + 1] || b[..kb + 1] <= a[..ka + 1]
    ensures a[..Min(ka, kb) + 1] == b[..Min(ka, kb) + 1]
  {
    var k := Min(ka, kb);
    assert a[..k + 1] == a[..ka + 1][..k + 1];
    assert b[..k + 1] == b[..kb + 1][..k + 1];
  }

  /** Every store is the fold of puts over the committed part of the node's log, and of two
      stores the further one is the other plus the later puts. */
  lemma StoresAreOneHistory(cfg: Config, run: seq<Cluster>, i: nat, n: NodeId, j: nat, m: NodeId)
    requires RunningFully(cfg, run) && Present(run, i, n) && Present(run, j, m)
    requires NodeAt(run, i, n).lastApplied <= NodeAt(run, j, m).lastApplied
    ensures var a, b := NodeAt(run, i, n), NodeAt(run, j, m);
            && a.lastApplied == a.commitIndex < |a.log| && b.lastApplied == b.commitIndex < |b.log|
            && a.store == FoldPuts(map[], a.log[1..a.commitIndex + 1])
            && b.store == FoldPuts(a.store, b.log[a.lastApplied + 1..b.lastApplied + 1])
  {
    var a, b := NodeAt(run, i, n), NodeAt(run, j, m);
    AppliedAt(cfg, run, i, n);
    AppliedAt(cfg, run, j, m);
    StateMachineSafety(cfg, run, i, n, j, m);
    LaterPuts(a.log, a.lastApplied, b.log, b.lastApplied);
  }

  lemma AppliedAt(cfg: Config, run: seq<Cluster>, i: nat, n: NodeId)
    requires Running(cfg, run) && Present(run, i, n)
    ensures var s := NodeAt(run, i, n);
            && s.lastApplied == s.commitIndex < |s.log|
            && s.store == FoldPuts(map[], s.log[1..s.commitIndex + 1])
  {
    var hs := RunHistory(cfg, run);
    FactsAt(cfg, run, hs, i, n);
  }

  lemma LaterPuts(a: Log, ka: nat, b: Log, kb: nat)
    requires ka <= kb && ka < |a| && kb < |b| && a[..ka + 1] == b[..ka + 1]
    ensures FoldPuts(map[], b[1..kb + 1])
         == FoldPuts(FoldPuts(map[], a[1..ka + 1]), b[ka + 1..kb + 1])
  {
    assert a[1..ka + 1] == a[..ka + 1][1..] == b[..ka + 1][1..] == b[1..ka + 1];
    assert b[1..kb + 1] == b[1..ka + 1] + b[ka + 1..kb + 1];
    FoldPutsConcat(map[], b[1..ka + 1], b[ka + 1..kb + 1]);
  }

  /** Leader completeness: whatever any node has committed is in the log of every leader of the
      same or a later term from then on. */
  lemma CommittedInLaterLeaders(cfg: Config, run: seq<Cluster>, i: nat, n: NodeId, j: nat,
                                m: NodeId)
    requires RunningFully(cfg, run) && Present(run, i, n) && LeadsAt(run, j, m) && i <= j
    requires NodeAt(run, i, n).currentTerm <= NodeAt(run, j, m).currentTerm
    ensures NodeAt(run, i, n).commitIndex < |NodeAt(run, i, n).log|
    ensures NodeAt(run, i, n).log[..NodeAt(run, i, n).commitIndex + 1] <= NodeAt(run, j, m).log
  {
    var hs := RunHistory(cfg, run);
    var s := NodeAt(run, i, n);
    CommittedAt(cfg, run, hs, i, n, j);
    FactsAt(cfg, run, hs, j, m);
    CertifiedInLaterLeader(cfg.peers.Keys, hs[j], s.log[..s.commitIndex + 1], s.currentTerm,
                           NodeAt(run, j, m).currentTerm);
  }

  // ---------- what one step does to a node ----------

  /** Terms and commit indices never decrease and committed entries stay; within a leadership
      the log only grows and match indices never decrease. */
  ghost predicate NodeAdvances(s: NodeState, s': NodeState) {
    && s.currentTerm <= s'.currentTerm
    && s.commitIndex <= s'.commitIndex
    && s.commitIndex < |s.log| && s.log[..s.commitIndex + 1] <= s'.log
    && (s.role == Leader && s'.role == Leader && s.currentTerm == s'.currentTerm ==>
          && s.log <= s'.log
          && forall p :: p in s.matchIndex ==>
               p in s'.matchIndex && s.matchIndex[p] <= s'.matchIndex[p])
  }

  lemma NodeAdvancesTransitive(a: NodeState, b: NodeState, c: NodeState)
    requires NodeAdvances(a, b) && NodeAdvances(b, c)
    requires a.role == Leader && a.currentTerm == b.currentTerm ==> b.role == Leader
    ensures NodeAdvances(a, c)
  {
    assert a.log[..a.commitIndex + 1] <= b.log[..b.commitIndex + 1];
    PrefixTransitive(a.log[..a.commitIndex + 1], b.log[..b.commitIndex + 1], c.log);
  }

  /** The committed prefix survives an AppendEntries request although the erasure and the bound
      on the commit index have no guard of their own. */
  lemma FollowAdvances(members: set<NodeId>, h: History, n: NodeId, s: NodeState,
                       args: AppendEntriesArgs)
    requires HistoryOk(members, h) && Rooted(h, s.log) && AppliedOk(h, s)
    requires AppendArgsOk(h, n, args) && Numbered(args)
    requires s.role == Leader ==> s.currentTerm in h.reigns && h.reigns[s.currentTerm].leader == n
    ensures NodeAdvances(s, HandleAppendEntries(s, args).0)
  {
    if args.term >= s.currentTerm && args.prevLogIndex < |s.log|
       && s.log[args.prevLogIndex].term == args.prevLogTerm {
      RequestSlices(members, h, n, s.log, args);
      FollowKeepsCommitted(members, h, n, s, args);
      CommitOnlyRaises(h, n, s, args);
    }
  }

  lemma CommitOnlyRaises(h: History, n: NodeId, s: NodeState, args: AppendEntriesArgs)
    requires AppendArgsOk(h, n, args) && Numbered(args) && WellFormed(s.log)
    requires SliceOf(s.log, h.reigns[args.term].built, args.prevLogIndex, args.entries)
    requires s.commitIndex < |Merge(s.log, args.prevLogIndex, args.entries)|
    ensures WellFormed(Merge(s.log, args.prevLogIndex, args.entries))
    ensures Commit(s.(log := Merge(s.log, args.prevLogIndex, args.entries)),
                   args.leaderCommit).commitIndex >= s.commitIndex
  {
    AcceptedInPlace(h, n, s, args);
  }

  lemma AckAdvances(peers: seq<NodeId>, sv: Server, ack: Option<AppendEntriesReply>)
    requires LocalOk(peers, sv.node) && sv.node.role == Leader
    requires sv.node.commitIndex < |sv.node.log|
    requires sv.activity.Heartbeating? && sv.activity.next < |peers|
    ensures NodeAdvances(sv.node, TakeAppendReply(peers, sv, ack).node)
  {
    assert peers[sv.activity.next] in SeqSet(peers);
  }

  lemma EffectAdvances(cfg: Config, c: Cluster, h: History, n: NodeId, action: Action)
    requires ValidConfig(cfg) && Inv(cfg, c, h) && Enabled(cfg, c, n, action)
    requires Safe(cfg, c, n, action)
    ensures NodeAdvances(c.servers[n].node, Effect(cfg, c, n, action).0.node)
  {
    assert ServerOk(cfg.peers[n], h, n, c.servers[n]);
    match action
    case ReceiveAppendRequest(args) =>
      assert MessageOk(h, AppendRequest(n, args));
      FollowAdvances(cfg.peers.Keys, h, n, c.servers[n].node, args);
    case TakeAck(ack) => AckAdvances(cfg.peers[n], c.servers[n], ack);
    case _ =>
      OtherAdvances(cfg, c, n, action);
  }

  lemma OtherAdvances(cfg: Config, c: Cluster, n: NodeId, action: Action)
    requires Enabled(cfg, c, n, action) && Safe(cfg, c, n, action)
    requires !action.ReceiveAppendRequest? && !action.TakeAck?
    requires c.servers[n].node.commitIndex < |c.servers[n].node.log|
    requires c.servers[n].activity.Electing? ==> c.servers[n].node.role == Candidate
    ensures NodeAdvances(c.servers[n].node, Effect(cfg, c, n, action).0.node)
  {
  }

  lemma StepAdvances(cfg: Config, run: seq<Cluster>, hs: seq<History>, i: nat, n: NodeId)
    requires Running(cfg, run) && IsHistory(cfg, run, hs) && i + 1 < |run| && Present(run, i, n)
    ensures Present(run, i + 1, n) && NodeAdvances(NodeAt(run, i, n), NodeAt(run, i + 1, n))
  {
    assert StepAt(cfg, run, i) && Inv(cfg, run[i], hs[i]);
    var m, action :| StepBy(cfg, run[i], run[i + 1], m, action);
    StepIsSafe(cfg, run[i], hs[i], m, action);
    if m == n {
      EffectAdvances(cfg, run[i], hs[i], n, action);
    } else {
      FactsAt(cfg, run, hs, i, n);
    }
  }

  /** Committed entries are never lost or reordered, commitIndex and lastApplied never decrease,
      and through a leader's term its log only grows and its match indices never decrease. */
  lemma {:induction false} NodesAdvance(cfg: Config, run: seq<Cluster>, i: nat, j: nat, n: NodeId)
    requires Running(cfg, run) && Present(run, i, n) && i <= j < |run|
    ensures Present(run, j, n) && NodeAdvances(NodeAt(run, i, n), NodeAt(run, j, n))
    ensures NodeAt(run, i, n).lastApplied <= NodeAt(run, j, n).lastApplied
  {
    var hs := RunHistory(cfg, run);
    AdvanceFrom(cfg, run, hs, i, j, n);
    FactsAt(cfg, run, hs, i, n);
    FactsAt(cfg, run, hs, j, n);
  }

  lemma {:induction false} AdvanceFrom(cfg: Config, run: seq<Cluster>, hs: seq<History>, i: nat,
                                       j: nat, n: NodeId)
    requires Running(cfg, run) && IsHistory(cfg, run, hs)
    requires Present(run, i, n) && i <= j < |run|
    ensures Present(run, j, n) && NodeAdvances(NodeAt(run, i, n), NodeAt(run, j, n))
    decreases j - i
  {
    FactsAt(cfg, run, hs, i, n);
    if i < j {
      StepAdvances(cfg, run, hs, i, n);
      AdvanceFrom(cfg, run, hs, i + 1, j, n);
      FactsAt(cfg, run, hs, i + 1, n);
      StillLeads(cfg, run, hs, i, n);
      NodeAdvancesTransitive(NodeAt(run, i, n), NodeAt(run, i + 1, n), NodeAt(run, j, n));
    }
  }

  /** A leader stays leader as long as its term does not change. */
  lemma StillLeads(cfg: Config, run: seq<Cluster>, hs: seq<History>, i: nat, n: NodeId)
    requires IsHistory(cfg, run, hs) && Present(run, i, n) && Present(run, i + 1, n)
    ensures (NodeAt(run, i, n).role == Leader
             && NodeAt(run, i, n).currentTerm == NodeAt(run, i + 1, n).currentTerm) ==>
              NodeAt(run, i + 1, n).role == Leader
  {
    FactsAt(cfg, run, hs, i, n);
    FactsAt(cfg, run, hs, i + 1, n);
    assert Continues(hs[i], hs[i + 1]);
    var s := NodeAt(run, i, n);
    if s.role == Leader {
      assert ReignContinues(hs[i].reigns[s.currentTerm], hs[i + 1].reigns[s.currentTerm]);
    }
  }

  // ---------- replication ----------

  /** A peer in the leader's term holds the leader's log through its match index; nextIndex
      always points into or just past the log. */
  lemma MatchIndexKept(cfg: Config, run: seq<Cluster>, i: nat, n: NodeId, j: nat, p: NodeId)
    requires RunningFully(cfg, run) && LeadsAt(run, i, n) && i <= j && Present(run, j, p)
    requires n in cfg.peers && p in cfg.peers[n]
    requires NodeAt(run, j, p).currentTerm == NodeAt(run, i, n).currentTerm
    ensures var s := NodeAt(run, i, n);
            && p in s.nextIndex && 1 <= s.nextIndex[p] <= |s.log|
            && p in s.matchIndex && s.matchIndex[p] < |s.log|
            && s.log[..s.matchIndex[p] + 1] <= NodeAt(run, j, p).log
  {
    var hs := RunHistory(cfg, run);
    FactsAt(cfg, run, hs, i, n);
    FactsAt(cfg, run, hs, j, p);
    assert Continues(hs[i], hs[j]);
    AckedStaysInTerm(cfg.peers[n], hs[i], hs[j], n, NodeAt(run, i, n), p, NodeAt(run, j, p));
  }

  lemma AckedStaysInTerm(peers: seq<NodeId>, h: History, h': History, n: NodeId, s: NodeState,
                         p: NodeId, f: NodeState)
    requires h.carries && Continues(h, h') && LeaderIndicesOk(peers, s) && p in peers
    requires LeaderOk(h, n, peers, s) && WellFormed(s.log) && WellFormed(f.log)
    requires AcksOk(h', p, f) && f.currentTerm == s.currentTerm
    ensures s.log[..s.matchIndex[p] + 1] <= f.log
  {
    var t, k := s.currentTerm, s.matchIndex[p];
    if k > 0 {
      PrefixContinues(h, h', t, k);
      assert Acked(h', p, t, k);
      assert !Superseded(h', t, k, t + 1);
    }
  }

  /** Every AppendEntries request in flight carries entries up to at least its leaderCommit. When
      a node accepts one that raises its commit index, the new index is leaderCommit itself
      and the carried entries are in place, even if the node keeps a longer tail. */
  lemma FollowerCommitsOnlyChecked(cfg: Config, run: seq<Cluster>, i: nat, n: NodeId,
                                   args: AppendEntriesArgs)
    requires RunningFully(cfg, run) && Present(run, i, n) && AppendRequest(n, args) in run[i].net
    ensures args.leaderCommit <= args.prevLogIndex + |args.entries|
    ensures WellFormed(NodeAt(run, i, n).log) && Numbered(args)
    ensures var (s', reply) := HandleAppendEntries(NodeAt(run, i, n), args);
            reply.success ==>
              && args.prevLogIndex + |args.entries| < |s'.log|
              && s'.log[args.prevLogIndex + 1..args.prevLogIndex + 1 + |args.entries|]
                 == args.entries
              && s'.commitIndex == (if args.leaderCommit > NodeAt(run, i, n).commitIndex
                                    then args.leaderCommit else NodeAt(run, i, n).commitIndex)
  {
    var hs := RunHistory(cfg, run);
    FactsAt(cfg, run, hs, i, n);
    MessageAt(cfg, run, hs, i, AppendRequest(n, args));
    AcceptedCommit(cfg.peers.Keys, hs[i], n, NodeAt(run, i, n), args);
  }

  lemma AcceptedCommit(members: set<NodeId>, h: History, n: NodeId, s: NodeState,
                       args: AppendEntriesArgs)
    requires h.carries && HistoryOk(members, h) && Rooted(h, s.log) && AppendArgsOk(h, n, args)
    ensures Numbered(args)
    ensures var (s', reply) := HandleAppendEntries(s, args);
            reply.success ==>
              && args.prevLogIndex + |args.entries| < |s'.log|
              && s'.log[args.prevLogIndex + 1..args.prevLogIndex + 1 + |args.entries|]
                 == args.entries
              && s'.commitIndex == (if args.leaderCommit > s.commitIndex
                                    then args.leaderCommit else s.commitIndex)
  {
    assert ReignOk(members, h, args.term);
    RequestNumbered(h, n, args);
    if args.term >= s.currentTerm && args.prevLogIndex < |s.log|
       && s.log[args.prevLogIndex].term == args.prevLogTerm {
      RequestSlices(members, h, n, s.log, args);
      AcceptedInPlace(h, n, s, args);
      AcceptedForm(s, args);
      CommitTwice(Merged(s, args), args.leaderCommit);
    }
  }

  lemma AcceptedInPlace(h: History, n: NodeId, s: NodeState, args: AppendEntriesArgs)
    requires AppendArgsOk(h, n, args) && Numbered(args) && WellFormed(s.log)
    requires SliceOf(s.log, h.reigns[args.term].built, args.prevLogIndex, args.entries)
    ensures WellFormed(Merge(s.log, args.prevLogIndex, args.entries))
    ensures var last := args.prevLogIndex + |args.entries|;
            var merged := Merge(s.log, args.prevLogIndex, args.entries);
            && last < |merged| && (h.carries ==> args.leaderCommit <= LastIndex(merged))
            && merged[args.prevLogIndex + 1..last + 1] == args.entries
  {
    var last := args.prevLogIndex + |args.entries|;
    var built := h.reigns[args.term].built;
    var merged := Merge(s.log, args.prevLogIndex, args.entries);
    MergeWellFormed(s.log, args.prevLogIndex, args.entries);
    MergeFollowsLeader(s.log, built, args.prevLogIndex, args.entries);
    assert merged[..last + 1] == built[..last + 1];
    assert merged[args.prevLogIndex + 1..last + 1] == merged[..last + 1][args.prevLogIndex + 1..]
        == built[..last + 1][args.prevLogIndex + 1..] == args.entries;
  }

  /** No enabled step of any reachable state accesses a log or an index map out of range. */
  lemma AccessesStayInRange(cfg: Config, run: seq<Cluster>, i: nat, n: NodeId, action: Action)
    requires Running(cfg, run) && i < |run| && Enabled(cfg, run[i], n, action)
    ensures Safe(cfg, run[i], n, action)
  {
    var hs := RunHistory(cfg, run);
    assert Inv(cfg, run[i], hs[i]);
    StepIsSafe(cfg, run[i], hs[i], n, action);
  }

  /** The step that leads from position k of a run to the next one. */
  lemma StepOf(cfg: Config, run: seq<Cluster>, k: nat) returns (m: NodeId, action: Action)
    requires Running(cfg, run) && k + 1 < |run|
    ensures Enabled(cfg, run[k], m, action) && Safe(cfg, run[k], m, action)
    ensures run[k + 1] == Perform(cfg, run[k], m, action)
  {
    assert StepAt(cfg, run, k);
    m, action :| StepBy(cfg, run[k], run[k + 1], m, action);
    AccessesStayInRange(cfg, run, k, m, action);
  }
}
