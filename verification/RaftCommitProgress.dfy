/** What a leader has committed, exactly: the safety claims say that nothing is committed too early,
    these that nothing is left uncommitted either. */
module RaftCommitProgress {
  import opened RaftTypes
  import opened CommitRule
  import opened RaftSteps
  import opened RaftAnswers
  import opened RaftCluster
  import opened RaftHistory
  import opened RaftInvariant
  import opened RaftMatchIndex
  import opened RaftPreservation
  import opened RaftRuns
  import opened RaftSafety
  import opened RaftReplies

  /** The servers that have entry v of the leader's log, as far as the leader knows. */
  ghost function KnownHolders(members: set<NodeId>, n: NodeId, s: NodeState, v: nat): set<NodeId> {
    set q | q in members && if q == n then v < |s.log| else q in s.matchIndex && s.matchIndex[q] >= v
  }

  /** Half of the servers, rounded up, hold entry v, among them one besides the leader. */
  ghost predicate Replicated(members: set<NodeId>, n: NodeId, s: NodeState, v: nat) {
    && |KnownHolders(members, n, s, v)| >= (|members| - 1) / 2 + 1
    && exists q :: q in KnownHolders(members, n, s, v) && q != n
  }

  /** An entry of the leader's own term. */
  ghost predicate Own(s: NodeState, v: nat) {
    v < |s.log| && s.log[v].term == s.currentTerm
  }

  /** The leader has committed exactly those entries of its own term that are replicated. */
  ghost predicate CommitsExactly(members: set<NodeId>, n: NodeId, s: NodeState) {
    forall v: nat :: Own(s, v) ==> (v <= s.commitIndex <==> Replicated(members, n, s, v))
  }

  // ---------- taking a successful reply ----------

  lemma HoldersCounted(members: set<NodeId>, n: NodeId, peers: seq<NodeId>, s: NodeState, v: nat)
    requires Seat(members, n, peers) && |s.log| > 0 && v < |s.log|
    requires s.matchIndex.Keys == SeqSet(peers)
    ensures forall p :: p in peers ==> p in s.matchIndex
    ensures CountAtLeast(ReplicaIndices(peers, s), v) == |KnownHolders(members, n, s, v)|
    ensures |ReplicaIndices(peers, s)| == |members|
  {
    assert forall p :: p in peers ==> p in SeqSet(peers);
    var r := ReplicaIndices(peers, s);
    assert r[1..] == MatchValues(peers, s.matchIndex);
    MatchValuesCount(peers, s.matchIndex, v);
    assert KnownHolders(members, n, s, v) == {n} + ReachedBy(SeqSet(peers), s.matchIndex, v);
    DistinctSize(peers);
    assert members == {n} + SeqSet(peers);
  }

  /** The candidate for the commit index bounds what is replicated once a peer has everything. */
  lemma CandidateDecides(members: set<NodeId>, n: NodeId, peers: seq<NodeId>, s: NodeState,
                         p: NodeId, v: nat)
    requires Seat(members, n, peers) && LocalOk(peers, s) && s.role == Leader && v < |s.log|
    requires p in peers && s.matchIndex[p] == |s.log| - 1
    ensures v <= CommitCandidate(ReplicaIndices(peers, s)) <==> Replicated(members, n, s, v)
    ensures CommitCandidate(ReplicaIndices(peers, s)) < |s.log|
  {
    HoldersCounted(members, n, peers, s, v);
    CommitCandidateIsGreatest(ReplicaIndices(peers, s), v);
    ReplicaIndicesInRange(peers, s);
    assert p in SeqSet(peers) && p in KnownHolders(members, n, s, v);
  }

  lemma MoreReplicated(members: set<NodeId>, n: NodeId, s: NodeState, s': NodeState, v: nat)
    requires Replicated(members, n, s, v) && |s.log| <= |s'.log|
    requires forall q :: q in s.matchIndex ==>
               q in s'.matchIndex && s.matchIndex[q] <= s'.matchIndex[q]
    ensures Replicated(members, n, s', v)
  {
    SubsetSize(KnownHolders(members, n, s, v), KnownHolders(members, n, s', v));
    var q :| q in KnownHolders(members, n, s, v) && q != n;
    assert q in KnownHolders(members, n, s', v);
  }

  lemma SameReplicated(members: set<NodeId>, n: NodeId, s: NodeState, s': NodeState, v: nat)
    requires s.matchIndex == s'.matchIndex && (v < |s.log| <==> v < |s'.log|)
    ensures Replicated(members, n, s, v) <==> Replicated(members, n, s', v)
  {
    assert KnownHolders(members, n, s, v) == KnownHolders(members, n, s', v);
  }

  /** Terms ascend and stay within the leader's. */
  ghost predicate TermsInOrder(s: NodeState) {
    && (forall i :: 0 <= i < |s.log| ==> s.log[i].term <= s.currentTerm)
    && forall i, j :: 0 <= i <= j < |s.log| ==> s.log[i].term <= s.log[j].term
  }

  lemma LogInOrder(members: set<NodeId>, h: History, peers: seq<NodeId>, n: NodeId, sv: Server)
    requires HistoryOk(members, h) && ServerOk(peers, h, n, sv)
    ensures TermsInOrder(sv.node)
  {
    forall i, j | 0 <= i <= j < |sv.node.log| ensures sv.node.log[i].term <= sv.node.log[j].term {
      TermsAscend(members, h, sv.node.log, i, j);
    }
  }

  lemma RecordedOk(peers: seq<NodeId>, s: NodeState, p: NodeId)
    requires LocalOk(peers, s) && s.role == Leader && p in peers
    ensures p in s.nextIndex && LocalOk(peers, RecordSuccess(s, p))
    ensures RecordSuccess(s, p).matchIndex == s.matchIndex[p := |s.log| - 1]
  {
    assert p in SeqSet(peers);
  }

  /** A successful reply commits what it makes replicated. */
  lemma SuccessCommits(members: set<NodeId>, n: NodeId, peers: seq<NodeId>, s: NodeState, p: NodeId)
    requires Seat(members, n, peers) && LocalOk(peers, s) && s.role == Leader && p in peers
    requires TermsInOrder(s) && CommitsExactly(members, n, s)
    ensures p in s.nextIndex && LocalOk(peers, RecordSuccess(s, p))
    ensures CommitsExactly(members, n, AdvanceCommit(peers, RecordSuccess(s, p)))
  {
    RecordedOk(peers, s, p);
    var s1 := RecordSuccess(s, p);
    var s2 := AdvanceCommit(peers, s1);
    var k := CommitCandidate(ReplicaIndices(peers, s1));
    forall v: nat | Own(s2, v) ensures v <= s2.commitIndex <==> Replicated(members, n, s2, v) {
      CandidateDecides(members, n, peers, s1, p, v);
      SameReplicated(members, n, s1, s2, v);
      assert Own(s, v);
      if Replicated(members, n, s, v) {
        MoreReplicated(members, n, s, s1, v);
      }
    }
  }

  // ---------- other steps ----------

  /** A submission adds an entry that no peer has. */
  lemma SubmissionUncommitted(members: set<NodeId>, n: NodeId, peers: seq<NodeId>, s: NodeState,
                              key: string, value: string)
    requires Seat(members, n, peers) && LocalOk(peers, s) && s.role == Leader
    requires s.commitIndex < |s.log| && CommitsExactly(members, n, s)
    ensures CommitsExactly(members, n, SubmitLog(s, key, value).0)
  {
    var s' := SubmitLog(s, key, value).0;
    forall v: nat | Own(s', v) ensures v <= s'.commitIndex <==> Replicated(members, n, s', v) {
      if v < |s.log| {
        assert Own(s, v);
        SameReplicated(members, n, s, s', v);
      } else {
        forall q | q in members && q != n ensures q !in KnownHolders(members, n, s', v) {
          assert q in SeqSet(peers);
        }
      }
    }
  }

  lemma UnchangedCommits(members: set<NodeId>, n: NodeId, s: NodeState, s': NodeState)
    requires CommitsExactly(members, n, s)
    requires s'.currentTerm == s.currentTerm && s'.log == s.log && s'.matchIndex == s.matchIndex
    requires s'.commitIndex == s.commitIndex
    ensures CommitsExactly(members, n, s')
  {
    forall v: nat | Own(s', v) ensures v <= s'.commitIndex <==> Replicated(members, n, s', v) {
      assert Own(s, v);
      SameReplicated(members, n, s, s', v);
    }
  }

  /** A server that has just been elected has no entry of its term. */
  lemma WinnerHasNoOwn(cfg: Config, run: seq<Cluster>, i: nat, n: NodeId)
    requires Running(cfg, run) && Present(run, i, n) && run[i].servers[n].activity.Electing?
    ensures forall v: nat :: !Own(NodeAt(run, i, n), v)
  {
    var hs := RunHistory(cfg, run);
    FactsAt(cfg, run, hs, i, n);
    assert CandidacyOk(cfg.peers.Keys, hs[i], Ballot(n, NodeAt(run, i, n).currentTerm));
  }

  /** Other actions of a server that leads afterwards touch neither its log nor its indices. */
  lemma QuietActions(cfg: Config, c: Cluster, n: NodeId, action: Action)
    requires Enabled(cfg, c, n, action) && Safe(cfg, c, n, action)
    requires !action.EndElection? && !action.TakeAck? && !action.Submit?
    requires Effect(cfg, c, n, action).0.node.role == Leader
    ensures var s, s' := c.servers[n].node, Effect(cfg, c, n, action).0.node;
            && s.role == Leader && s'.currentTerm == s.currentTerm && s'.log == s.log
            && s'.matchIndex == s.matchIndex && s'.commitIndex == s.commitIndex
  {
    match action
    case ReceiveAppendRequest(args) => OnlyRejectionKeepsLeading(c.servers[n].node, args);
    case ReceiveVoteRequest(args) => VoteAnswered(c.servers[n].node, args);
    case TakeVote(_) =>
    case _ =>
  }

  lemma AckCommitsExactly(cfg: Config, run: seq<Cluster>, i: nat, n: NodeId,
                          ack: Option<AppendEntriesReply>)
    requires Running(cfg, run) && TakesAck(cfg, run, i, n, ack) && LeadsAt(run, i + 1, n)
    requires LeadsAt(run, i, n) && CommitsExactly(cfg.peers.Keys, n, NodeAt(run, i, n))
    ensures CommitsExactly(cfg.peers.Keys, n, NodeAt(run, i + 1, n))
  {
    AckStep(cfg, run, i, n, ack);
    var hs := RunHistory(cfg, run);
    FactsAt(cfg, run, hs, i, n);
    SeatOf(cfg, n);
    var sv := run[i].servers[n];
    if ack.Some? && ack.value.success {
      LogInOrder(cfg.peers.Keys, hs[i], cfg.peers[n], n, sv);
      SuccessCommits(cfg.peers.Keys, n, cfg.peers[n], sv.node, cfg.peers[n][sv.activity.next]);
    } else {
      UnchangedCommits(cfg.peers.Keys, n, sv.node, NodeAt(run, i + 1, n));
    }
  }

  lemma SubmitCommitsExactly(cfg: Config, run: seq<Cluster>, i: nat, n: NodeId, action: Action)
    requires Running(cfg, run) && i + 1 < |run| && LeadsAt(run, i, n) && action.Submit?
    requires Enabled(cfg, run[i], n, action) && Safe(cfg, run[i], n, action)
    requires run[i + 1] == Perform(cfg, run[i], n, action)
    requires CommitsExactly(cfg.peers.Keys, n, NodeAt(run, i, n))
    ensures Present(run, i + 1, n) && CommitsExactly(cfg.peers.Keys, n, NodeAt(run, i + 1, n))
  {
    SeatOf(cfg, n);
    AppliedAt(cfg, run, i, n);
    SubmissionUncommitted(cfg.peers.Keys, n, cfg.peers[n], NodeAt(run, i, n), action.key,
                          action.value);
  }

  lemma WinnerCommitsExactly(cfg: Config, run: seq<Cluster>, i: nat, n: NodeId)
    requires Running(cfg, run) && i + 1 < |run|
    requires Enabled(cfg, run[i], n, EndElection) && Safe(cfg, run[i], n, EndElection)
    requires run[i + 1] == Perform(cfg, run[i], n, EndElection)
    ensures Present(run, i + 1, n) && CommitsExactly(cfg.peers.Keys, n, NodeAt(run, i + 1, n))
  {
    WinnerHasNoOwn(cfg, run, i, n);
    NoOwnCommits(cfg.peers.Keys, n, NodeAt(run, i, n), NodeAt(run, i + 1, n));
  }

  lemma NoOwnCommits(members: set<NodeId>, n: NodeId, s: NodeState, s': NodeState)
    requires forall v: nat :: !Own(s, v)
    requires s'.log == s.log && s'.currentTerm == s.currentTerm
    ensures CommitsExactly(members, n, s')
  {
    assert forall v: nat :: Own(s', v) <==> Own(s, v);
  }

  /** A server that leads after any other step led before, and with the same entries and indices. */
  lemma LedBefore(cfg: Config, run: seq<Cluster>, i: nat, n: NodeId, m: NodeId, action: Action)
    requires i + 1 < |run| && Enabled(cfg, run[i], m, action) && Safe(cfg, run[i], m, action)
    requires run[i + 1] == Perform(cfg, run[i], m, action) && LeadsAt(run, i + 1, n)
    requires m == n ==> !action.EndElection? && !action.TakeAck? && !action.Submit?
    ensures LeadsAt(run, i, n)
    ensures var s, s' := NodeAt(run, i, n), NodeAt(run, i + 1, n);
            && s'.currentTerm == s.currentTerm && s'.log == s.log
            && s'.matchIndex == s.matchIndex && s'.commitIndex == s.commitIndex
  {
    if m == n {
      QuietActions(cfg, run[i], n, action);
    }
  }

  lemma StepCommitsExactly(cfg: Config, run: seq<Cluster>, i: nat, n: NodeId, m: NodeId,
                           action: Action)
    requires Running(cfg, run) && i + 1 < |run| && LeadsAt(run, i + 1, n) && Present(run, i, n)
    requires Enabled(cfg, run[i], m, action) && Safe(cfg, run[i], m, action)
    requires run[i + 1] == Perform(cfg, run[i], m, action)
    requires LeadsAt(run, i, n) ==> CommitsExactly(cfg.peers.Keys, n, NodeAt(run, i, n))
    ensures CommitsExactly(cfg.peers.Keys, n, NodeAt(run, i + 1, n))
  {
    if m == n && action.EndElection? {
      WinnerCommitsExactly(cfg, run, i, n);
    } else if m == n && action.TakeAck? {
      AckStep(cfg, run, i, n, action.ack);
      AckCommitsExactly(cfg, run, i, n, action.ack);
    } else if m == n && action.Submit? {
      SubmitCommitsExactly(cfg, run, i, n, action);
    } else {
      LedBefore(cfg, run, i, n, m, action);
      UnchangedCommits(cfg.peers.Keys, n, NodeAt(run, i, n), NodeAt(run, i + 1, n));
    }
  }

  lemma AcrossStep(cfg: Config, run: seq<Cluster>, i: nat, n: NodeId)
    requires Running(cfg, run) && i + 1 < |run| && LeadsAt(run, i + 1, n)
    requires LeadsAt(run, i, n) ==> CommitsExactly(cfg.peers.Keys, n, NodeAt(run, i, n))
    ensures CommitsExactly(cfg.peers.Keys, n, NodeAt(run, i + 1, n))
  {
    var m, action := StepOf(cfg, run, i);
    assert run[i + 1].servers.Keys == run[i].servers.Keys;
    StepCommitsExactly(cfg, run, i, n, m, action);
  }

  lemma {:induction false} CommitsExactlyAt(cfg: Config, run: seq<Cluster>, i: nat, n: NodeId)
    requires Running(cfg, run) && LeadsAt(run, i, n)
    ensures CommitsExactly(cfg.peers.Keys, n, NodeAt(run, i, n))
    decreases i
  {
    if i > 0 {
      if LeadsAt(run, i - 1, n) {
        CommitsExactlyAt(cfg, run, i - 1, n);
      }
      AcrossStep(cfg, run, i - 1, n);
    }
  }

  // ---------- the claims ----------

  /** At any point of any run, of the entries of its own term a leader has committed and applied
      exactly those that half of the servers, rounded up, hold as far as it knows, at least one
      besides itself. */
  lemma CommittedIff(cfg: Config, run: seq<Cluster>, i: nat, n: NodeId, v: nat)
    requires Running(cfg, run) && LeadsAt(run, i, n)
    requires v < |NodeAt(run, i, n).log|
    requires NodeAt(run, i, n).log[v].term == NodeAt(run, i, n).currentTerm
    ensures v <= NodeAt(run, i, n).commitIndex
       <==> Replicated(cfg.peers.Keys, n, NodeAt(run, i, n), v)
    ensures NodeAt(run, i, n).lastApplied == NodeAt(run, i, n).commitIndex
  {
    CommitsExactlyAt(cfg, run, i, n);
    AppliedAt(cfg, run, i, n);
    assert Own(NodeAt(run, i, n), v);
  }

  /** After a leader has taken a successful reply, every entry of its term that half of the servers,
      rounded up, hold is committed and applied; and if the commit index has risen, it has risen
      to such an entry. */
  lemma SuccessfulReplyCommits(cfg: Config, run: seq<Cluster>, k: nat, n: NodeId,
                               ack: AppendEntriesReply)
    requires Running(cfg, run) && TakesAck(cfg, run, k, n, Some(ack)) && ack.success
    ensures LeadsAt(run, k, n) && LeadsAt(run, k + 1, n)
    ensures var s, s' := NodeAt(run, k, n), NodeAt(run, k + 1, n);
            && s'.lastApplied == s'.commitIndex >= s.commitIndex
            && (forall v: nat :: Own(s', v)
                  && |KnownHolders(cfg.peers.Keys, n, s', v)| >= (|cfg.peers| - 1) / 2 + 1
                  ==> v <= s'.commitIndex)
            && (s'.commitIndex > s.commitIndex ==>
                  Own(s', s'.commitIndex)
                  && |KnownHolders(cfg.peers.Keys, n, s', s'.commitIndex)|
                     >= (|cfg.peers| - 1) / 2 + 1)
  {
    AckStep(cfg, run, k, n, Some(ack));
    var s, s' := NodeAt(run, k, n), NodeAt(run, k + 1, n);
    var p := cfg.peers[n][run[k].servers[n].activity.next];
    AppliedAt(cfg, run, k + 1, n);
    CommitsExactlyAt(cfg, run, k + 1, n);
    assert |cfg.peers.Keys| == |cfg.peers|;
    SeatOf(cfg, n);
    forall v: nat | Own(s', v)
                    && |KnownHolders(cfg.peers.Keys, n, s', v)| >= (|cfg.peers| - 1) / 2 + 1
      ensures v <= s'.commitIndex
    {
      assert p in SeqSet(cfg.peers[n]);
      assert p in KnownHolders(cfg.peers.Keys, n, s', v);
    }
    if s'.commitIndex > s.commitIndex {
      assert Own(s', s'.commitIndex);
    }
  }
}
