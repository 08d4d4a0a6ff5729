/** Where commits come from: what any server has committed, some leader had committed first. */
module RaftCommitOrigin {
  import opened RaftTypes
  import opened RaftSteps
  import opened RaftCluster
  import opened RaftHistory
  import opened RaftRuns
  import opened RaftSafety

  // ---------- every request was built by a leader ----------

  /** At position j the sender led the request's term, its nextIndex for the addressee was just past
      prevLogIndex, and the request carried the term there, all entries from there on if requests
      carry entries, and the leader's commit index. */
  ghost predicate BuiltAt(cfg: Config, run: seq<Cluster>, j: nat, to: NodeId,
                          args: AppendEntriesArgs) {
    && LeadsAt(run, j, args.leaderId)
    && var s := NodeAt(run, j, args.leaderId);
    && args.term == s.currentTerm
    && to in s.nextIndex && s.nextIndex[to] == args.prevLogIndex + 1 <= |s.log|
    && args.prevLogTerm == s.log[args.prevLogIndex].term
    && args.entries == (if cfg.sendsEntries then s.log[args.prevLogIndex + 1..] else [])
    && args.leaderCommit == s.commitIndex
  }

  ghost predicate BuiltBefore(cfg: Config, run: seq<Cluster>, i: nat, to: NodeId,
                              args: AppendEntriesArgs) {
    exists j :: 0 <= j <= i && BuiltAt(cfg, run, j, to, args)
  }

  /** Every AppendEntries request on the wire was built by a leader from its state at the time. */
  lemma {:induction false} RequestsWereBuilt(cfg: Config, run: seq<Cluster>, i: nat, to: NodeId,
                                             args: AppendEntriesArgs)
    requires Running(cfg, run) && i < |run| && AppendRequest(to, args) in run[i].net
    ensures BuiltBefore(cfg, run, i, to, args)
    decreases i
  {
    if i > 0 {
      var n, action := StepOf(cfg, run, i - 1);
      if AppendRequest(to, args) in run[i - 1].net {
        RequestsWereBuilt(cfg, run, i - 1, to, args);
        var j :| 0 <= j <= i - 1 && BuiltAt(cfg, run, j, to, args);
      } else {
        assert action.SendAppendRequest?;
        BuiltNow(cfg, run, i - 1, n, to, args);
      }
    }
  }

  lemma BuiltNow(cfg: Config, run: seq<Cluster>, i: nat, n: NodeId, to: NodeId,
                 args: AppendEntriesArgs)
    requires i < |run| && Enabled(cfg, run[i], n, SendAppendRequest)
    requires Safe(cfg, run[i], n, SendAppendRequest)
    requires AppendRequest(to, args) in Effect(cfg, run[i], n, SendAppendRequest).1
    ensures BuiltAt(cfg, run, i, to, args)
  {
    var sv := run[i].servers[n];
    assert cfg.peers[n][sv.activity.next] in SeqSet(cfg.peers[n]);
  }

  /** At position j the candidate stood in the request's term, with a log that ended as it says. */
  ghost predicate StoodAt(run: seq<Cluster>, j: nat, args: RequestVoteArgs) {
    && Present(run, j, args.candidateId)
    && var s := NodeAt(run, j, args.candidateId);
    && s.role == Candidate && s.currentTerm == args.term && s.votedFor == args.candidateId
    && |s.log| > 0 && args.lastLogIndex == |s.log| - 1 && args.lastLogTerm == s.log[|s.log| - 1].term
  }

  ghost predicate StoodBefore(run: seq<Cluster>, i: nat, args: RequestVoteArgs) {
    exists j :: 0 <= j <= i && StoodAt(run, j, args)
  }

  /** Every vote request on the wire was sent by a candidate of its term and describes its log. */
  lemma {:induction false} CandidatesStood(cfg: Config, run: seq<Cluster>, i: nat, to: NodeId,
                                           args: RequestVoteArgs)
    requires Running(cfg, run) && i < |run| && VoteRequest(to, args) in run[i].net
    ensures StoodBefore(run, i, args)
    decreases i
  {
    if i > 0 {
      var n, action := StepOf(cfg, run, i - 1);
      if VoteRequest(to, args) in run[i - 1].net {
        CandidatesStood(cfg, run, i - 1, to, args);
        var j :| 0 <= j <= i - 1 && StoodAt(run, j, args);
      } else {
        assert action.SendVoteRequest?;
        VotedForSelf(cfg, run, i - 1, n);
        assert StoodAt(run, i - 1, args);
      }
    }
  }

  lemma VotedForSelf(cfg: Config, run: seq<Cluster>, i: nat, n: NodeId)
    requires Running(cfg, run) && Present(run, i, n) && run[i].servers[n].activity.Electing?
    ensures var s := NodeAt(run, i, n);
            && s.role == Candidate && s.votedFor == n
            && |s.log| > 0 && s.log[|s.log| - 1].index == |s.log| - 1
  {
    var hs := RunHistory(cfg, run);
    FactsAt(cfg, run, hs, i, n);
    assert VotedFor(hs[i], n, NodeAt(run, i, n).currentTerm, n);
  }

  // ---------- every commit was made by a leader ----------

  /** At position j server m led, in a term up to `term`, and had committed exactly this log. */
  ghost predicate LeaderCommitted(run: seq<Cluster>, j: nat, m: NodeId, term: nat, log: Log) {
    && LeadsAt(run, j, m) && NodeAt(run, j, m).currentTerm <= term
    && |log| == NodeAt(run, j, m).commitIndex + 1 && log <= NodeAt(run, j, m).log
  }

  ghost predicate CommittedBefore(run: seq<Cluster>, i: nat, term: nat, log: Log) {
    exists j, m :: 0 <= j <= i && LeaderCommitted(run, j, m, term, log)
  }

  ghost predicate HasOrigin(run: seq<Cluster>, i: nat, n: NodeId) {
    Present(run, i, n) ==>
      var s := NodeAt(run, i, n);
      0 < s.commitIndex < |s.log| ==>
        CommittedBefore(run, i, s.currentTerm, s.log[..s.commitIndex + 1])
  }

  lemma OriginStays(run: seq<Cluster>, i: nat, n: NodeId)
    requires i > 0 && Present(run, i - 1, n) && Present(run, i, n) && HasOrigin(run, i - 1, n)
    requires NodeAdvances(NodeAt(run, i - 1, n), NodeAt(run, i, n))
    requires NodeAt(run, i, n).commitIndex == NodeAt(run, i - 1, n).commitIndex
    ensures HasOrigin(run, i, n)
  {
    var s, s' := NodeAt(run, i - 1, n), NodeAt(run, i, n);
    if 0 < s.commitIndex {
      assert s'.log[..s'.commitIndex + 1] == s.log[..s.commitIndex + 1];
      var j, m :| 0 <= j <= i - 1
                && LeaderCommitted(run, j, m, s.currentTerm, s.log[..s.commitIndex + 1]);
      assert LeaderCommitted(run, j, m, s'.currentTerm, s'.log[..s'.commitIndex + 1]);
    }
  }

  /** Whatever a server has committed, a leader of its term or an earlier one had committed, at
      that time or before, with the same entries. */
  lemma {:induction false} CommitsComeFromLeaders(cfg: Config, run: seq<Cluster>, i: nat, n: NodeId)
    requires RunningFully(cfg, run) && Present(run, i, n)
    ensures NodeAt(run, i, n).commitIndex < |NodeAt(run, i, n).log| && HasOrigin(run, i, n)
    decreases i
  {
    AppliedAt(cfg, run, i, n);
    if i > 0 {
      var m, action := StepOf(cfg, run, i - 1);
      NodesAdvance(cfg, run, i - 1, i, n);
      CommitsComeFromLeaders(cfg, run, i - 1, n);
      if NodeAt(run, i, n).commitIndex == NodeAt(run, i - 1, n).commitIndex {
        OriginStays(run, i, n);
      } else if action.TakeAck? {
        AckCommits(cfg, run, i, n, action.ack);
      } else {
        RequestCommits(cfg, run, i, n, action);
      }
    }
  }

  lemma AckCommits(cfg: Config, run: seq<Cluster>, i: nat, n: NodeId,
                   ack: Option<AppendEntriesReply>)
    requires 0 < i < |run| && Enabled(cfg, run[i - 1], n, TakeAck(ack))
    requires Safe(cfg, run[i - 1], n, TakeAck(ack))
    requires run[i] == Perform(cfg, run[i - 1], n, TakeAck(ack)) && Present(run, i, n)
    requires NodeAt(run, i, n).commitIndex != NodeAt(run, i - 1, n).commitIndex
    ensures HasOrigin(run, i, n)
  {
    var s := NodeAt(run, i, n);
    if 0 < s.commitIndex < |s.log| {
      assert LeaderCommitted(run, i, n, s.currentTerm, s.log[..s.commitIndex + 1]);
    }
  }

  /** A follower's commit: the request that caused it was built by a leader that had committed as
      much. */
  lemma RequestCommits(cfg: Config, run: seq<Cluster>, i: nat, n: NodeId, action: Action)
    requires RunningFully(cfg, run) && 0 < i < |run| && Present(run, i - 1, n)
    requires Enabled(cfg, run[i - 1], n, action) && Safe(cfg, run[i - 1], n, action)
    requires run[i] == Perform(cfg, run[i - 1], n, action) && !action.TakeAck?
    requires NodeAt(run, i, n).commitIndex != NodeAt(run, i - 1, n).commitIndex
    ensures Present(run, i, n) && HasOrigin(run, i, n)
  {
    OnlyRequestsCommit(cfg, run[i - 1], n, action);
    var args := action.appendArgs;
    FollowerCommitsOnlyChecked(cfg, run, i - 1, n, args);
    CommitsByRequest(NodeAt(run, i - 1, n), args);
    RequestsWereBuilt(cfg, run, i - 1, n, args);
    var j :| 0 <= j <= i - 1 && BuiltAt(cfg, run, j, n, args);
    LeaderHad(cfg, run, i, n, j, args);
  }

  lemma OnlyRequestsCommit(cfg: Config, c: Cluster, n: NodeId, action: Action)
    requires Enabled(cfg, c, n, action) && Safe(cfg, c, n, action) && !action.TakeAck?
    requires Effect(cfg, c, n, action).0.node.commitIndex != c.servers[n].node.commitIndex
    ensures action.ReceiveAppendRequest?
  {
  }

  lemma CommitsByRequest(s: NodeState, args: AppendEntriesArgs)
    requires WellFormed(s.log) && Numbered(args)
    requires HandleAppendEntries(s, args).0.commitIndex != s.commitIndex
    ensures HandleAppendEntries(s, args).1.success
    ensures HandleAppendEntries(s, args).0.currentTerm == args.term
  {
  }

  lemma LeaderHad(cfg: Config, run: seq<Cluster>, i: nat, n: NodeId, j: nat,
                  args: AppendEntriesArgs)
    requires RunningFully(cfg, run) && Present(run, i, n) && j <= i
    requires BuiltAt(cfg, run, j, n, args)
    requires NodeAt(run, i, n).commitIndex == args.leaderCommit
    requires NodeAt(run, i, n).currentTerm == args.term
    ensures HasOrigin(run, i, n)
  {
    var m, s := args.leaderId, NodeAt(run, i, n);
    AppliedAt(cfg, run, i, n);
    AppliedAt(cfg, run, j, m);
    StateMachineSafety(cfg, run, i, n, j, m);
    assert LeaderCommitted(run, j, m, s.currentTerm, s.log[..s.commitIndex + 1]);
  }
}
