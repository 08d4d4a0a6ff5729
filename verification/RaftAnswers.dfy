/** What a node answers and what it does with answers, described by its state before and after and not
    by the step functions. */
module RaftAnswers {
  import opened RaftTypes
  import opened LogMerge
  import opened CommitRule
  import opened RaftSteps
  import opened RaftRedelivery

  function Higher(a: nat, b: nat): nat {
    if a >= b then a else b
  }

  // ---------- votes ----------

  /** A log that ends with this term and index is at least as recent as the other: its last entry
      has a later term, or the same term and an index that is not smaller. */
  ghost predicate AtLeastAsRecent(lastTerm: nat, lastIndex: nat, log: Log)
    requires |log| > 0
  {
    var last := log[|log| - 1];
    lastTerm > last.term || (lastTerm == last.term && lastIndex >= last.index)
  }

  /** The term is not older, no other candidate has the node's vote in it, and the candidate's log
      is at least as recent as the node's. */
  ghost predicate MayVote(s: NodeState, args: RequestVoteArgs)
    requires |s.log| > 0
  {
    && args.term >= s.currentTerm
    && (args.term == s.currentTerm ==> s.votedFor == "" || s.votedFor == args.candidateId)
    && AtLeastAsRecent(args.lastLogTerm, args.lastLogIndex, s.log)
  }

  /** A node in state s answers the request with `vote` and is then in state s'. */
  ghost predicate VoteAnswer(s: NodeState, args: RequestVoteArgs, s': NodeState,
                             vote: RequestVoteReply)
    requires |s.log| > 0
  {
    && (vote.voteGranted <==> MayVote(s, args))
    && vote.term == Higher(s.currentTerm, args.term)
    && s' == s.(currentTerm := vote.term,
                role := if args.term > s.currentTerm then Follower else s.role,
                votedFor := if vote.voteGranted then args.candidateId
                            else if args.term > s.currentTerm then "" else s.votedFor)
  }

  lemma VoteAnswered(s: NodeState, args: RequestVoteArgs)
    requires |s.log| > 0
    ensures VoteAnswer(s, args, HandleRequestVote(s, args).0, HandleRequestVote(s, args).1)
  {
  }

  // ---------- applying ----------

  /** Applying goes as far as committing and puts the entries in between, one after the other. */
  ghost predicate CatchesUp(s: NodeState, s': NodeState) {
    if s.lastApplied < s'.commitIndex < |s'.log| then
      && s'.lastApplied == s'.commitIndex
      && s'.store == FoldPuts(s.store, s'.log[s.lastApplied + 1..s'.commitIndex + 1])
    else AppliesNothing(s, s')
  }

  ghost predicate AppliesNothing(s: NodeState, s': NodeState) {
    s'.lastApplied == s.lastApplied && s'.store == s.store
  }

  /** The commit index rises to the leader's, but not beyond the log, and the log is applied so far. */
  ghost predicate FollowsCommit(s: NodeState, leaderCommit: nat, s': NodeState) {
    if leaderCommit <= s.commitIndex then s'.commitIndex == s.commitIndex && AppliesNothing(s, s')
    else
      && s'.commitIndex == (if leaderCommit < |s'.log| then leaderCommit else |s'.log| - 1)
      && CatchesUp(s, s')
  }

  lemma CommitAnswered(s: NodeState, leaderCommit: nat)
    requires WellFormed(s.log)
    ensures FollowsCommit(s, leaderCommit, Commit(s, leaderCommit))
    ensures var s' := Commit(s, leaderCommit);
            s' == s.(commitIndex := s'.commitIndex, lastApplied := s'.lastApplied, store := s'.store)
  {
  }

  // ---------- AppendEntries ----------

  /** The entry before the carried ones is in the log. */
  ghost predicate HasPrevious(s: NodeState, args: AppendEntriesArgs) {
    args.prevLogIndex < |s.log| && s.log[args.prevLogIndex].term == args.prevLogTerm
  }

  /** The log takes in the entries, and commits follow the leader's as far as the log goes. */
  ghost predicate Adopted(s: NodeState, args: AppendEntriesArgs, s': NodeState) {
    && s' == s.(log := s'.log, commitIndex := s'.commitIndex, lastApplied := s'.lastApplied,
                store := s'.store)
    && IsMerged(s.log, args.prevLogIndex, args.entries, s'.log)
    && FollowsCommit(s, args.leaderCommit, s')
  }

  /** A node in state s answers the request with `ack` and is then in state s': it succeeds if the
      term is not older and the entry before the carried ones is there; a refusal carries the
      term the node had before. */
  ghost predicate AppendAnswer(s: NodeState, args: AppendEntriesArgs, s': NodeState,
                               ack: AppendEntriesReply) {
    var s1 := if args.term < s.currentTerm then s
              else s.(currentTerm := args.term, role := Follower);
    && (ack.success <==> args.term >= s.currentTerm && HasPrevious(s, args))
    && ack.term == (if ack.success then args.term else s.currentTerm)
    && if ack.success then Adopted(s1, args, s') else s' == s1
  }

  lemma AcceptAnswered(s: NodeState, args: AppendEntriesArgs)
    requires WellFormed(s.log) && Numbered(args) && Accepts(s, args)
    ensures HandleAppendEntries(s, args).1 == AppendEntriesReply(args.term, true)
    ensures Adopted(s.(currentTerm := args.term, role := Follower), args,
                    HandleAppendEntries(s, args).0)
  {
    AcceptedForm(s, args);
    MergeIs(s.log, args.prevLogIndex, args.entries);
    CommitAnswered(Merged(s, args), args.leaderCommit);
    AdoptedInTwo(s.(currentTerm := args.term, role := Follower), args, Merged(s, args),
                 Commit(Merged(s, args), args.leaderCommit));
  }

  lemma AdoptedInTwo(s: NodeState, args: AppendEntriesArgs, merged: NodeState, s': NodeState)
    requires merged == s.(log := merged.log)
    requires IsMerged(s.log, args.prevLogIndex, args.entries, merged.log)
    requires FollowsCommit(merged, args.leaderCommit, s')
    requires s' == merged.(commitIndex := s'.commitIndex, lastApplied := s'.lastApplied,
                           store := s'.store)
    ensures Adopted(s, args, s')
  {
  }

  lemma RefusalAnswered(s: NodeState, args: AppendEntriesArgs)
    requires WellFormed(s.log) && Numbered(args) && !Accepts(s, args)
    ensures HandleAppendEntries(s, args)
         == (if args.term < s.currentTerm then s
             else s.(currentTerm := args.term, role := Follower),
             AppendEntriesReply(s.currentTerm, false))
  {
  }

  lemma AppendAnswered(s: NodeState, args: AppendEntriesArgs)
    requires WellFormed(s.log) && Numbered(args)
    ensures AppendAnswer(s, args, HandleAppendEntries(s, args).0, HandleAppendEntries(s, args).1)
  {
    if Accepts(s, args) {
      AcceptAnswered(s, args);
    } else {
      RefusalAnswered(s, args);
    }
  }

  // ---------- commits ----------

  /** How many of the leader and its peers hold entry v, as far as the leader knows. */
  ghost function HeldBy(peers: seq<NodeId>, s: NodeState, v: nat): nat {
    (if v < |s.log| then 1 else 0) + |set p | p in peers && p in s.matchIndex && s.matchIndex[p] >= v|
  }

  /** v is the last entry that half of the cluster, rounded up, holds. */
  ghost predicate LastHeld(peers: seq<NodeId>, s: NodeState, v: nat) {
    && v < |s.log| && HeldBy(peers, s, v) >= |peers| / 2 + 1
    && HeldBy(peers, s, v + 1) < |peers| / 2 + 1
  }

  /** The commit index has gone from `before` to the last entry so held if that lies beyond it and is
      of the node's term, and has stayed otherwise. */
  ghost predicate CommitAnswer(peers: seq<NodeId>, s: NodeState, before: nat) {
    exists v: nat :: LastHeld(peers, s, v)
      && s.commitIndex == if v > before && s.log[v].term == s.currentTerm then v else before
  }

  lemma HeldCounted(peers: seq<NodeId>, s: NodeState, v: nat)
    requires Distinct(peers) && |s.log| > 0 && forall p :: p in peers ==> p in s.matchIndex
    ensures CountAtLeast(ReplicaIndices(peers, s), v) == HeldBy(peers, s, v)
  {
    var r := ReplicaIndices(peers, s);
    assert r[1..] == MatchValues(peers, s.matchIndex);
    MatchValuesCount(peers, s.matchIndex, v);
    assert ReachedBy(SeqSet(peers), s.matchIndex, v)
        == set p | p in peers && p in s.matchIndex && s.matchIndex[p] >= v;
  }

  lemma SameHeld(peers: seq<NodeId>, s: NodeState, s': NodeState, v: nat)
    requires s'.log == s.log && s'.matchIndex == s.matchIndex
    ensures LastHeld(peers, s', v) <==> LastHeld(peers, s, v)
  {
  }

  lemma CandidateIsLastHeld(peers: seq<NodeId>, s: NodeState)
    requires Distinct(peers) && |s.log| > 0
    requires forall p :: p in peers ==> p in s.matchIndex && s.matchIndex[p] < |s.log|
    ensures LastHeld(peers, s, CommitCandidate(ReplicaIndices(peers, s)))
  {
    var r := ReplicaIndices(peers, s);
    var k := CommitCandidate(r);
    ReplicaIndicesInRange(peers, s);
    CommitCandidateIsGreatest(r, k);
    CommitCandidateIsGreatest(r, k + 1);
    HeldCounted(peers, s, k);
    HeldCounted(peers, s, k + 1);
  }

  /** From s to s' the leader has committed what it could, and applied it. */
  ghost predicate Advanced(peers: seq<NodeId>, s: NodeState, s': NodeState) {
    && s' == s.(commitIndex := s'.commitIndex, lastApplied := s'.lastApplied, store := s'.store)
    && CommitAnswer(peers, s', s.commitIndex)
    && if s'.commitIndex != s.commitIndex then CatchesUp(s, s') else AppliesNothing(s, s')
  }

  lemma AdvanceAnswered(peers: seq<NodeId>, s: NodeState)
    requires Distinct(peers) && |s.log| > 0
    requires forall p :: p in peers ==> p in s.matchIndex && s.matchIndex[p] < |s.log|
    ensures Advanced(peers, s, AdvanceCommit(peers, s))
  {
    var k := CommitCandidate(ReplicaIndices(peers, s));
    CandidateIsLastHeld(peers, s);
    AdvanceTo(s, k);
    SameHeld(peers, s, AdvanceCommit(peers, s), k);
  }

  lemma AdvanceTo(s: NodeState, k: nat)
    requires k < |s.log|
    ensures var s' := Apply(s.(commitIndex := k));
            && s' == s.(commitIndex := k, lastApplied := s'.lastApplied, store := s'.store)
            && CatchesUp(s, s')
  {
  }

  // ---------- what a leader does with a reply ----------

  /** From `sv`, in the middle of a round, to `sv'` by what the call to the peer brought. */
  ghost predicate AckOutcome(peers: seq<NodeId>, sv: Server, peer: NodeId,
                             ack: Option<AppendEntriesReply>, sv': Server)
    requires sv.activity.Heartbeating?
  {
    var s, s', i := sv.node, sv'.node, sv.activity.next;
    && |s.log| > 0 && peer in s.nextIndex && peer in s.matchIndex
    && match ack
       case None => sv' == Server(s, Heartbeating(i + 1))
       case Some(reply) =>
         if reply.success then
           && sv'.activity == Heartbeating(i + 1)
           && Advanced(peers, s.(nextIndex := s.nextIndex[peer := |s.log|],
                                 matchIndex := s.matchIndex[peer := |s.log| - 1]), s')
         else if reply.term > s.currentTerm then
           sv' == Server(s.(currentTerm := reply.term, role := Follower, votedFor := ""), Idle)
         else
           && sv'.activity == Heartbeating(i + 1)
           && s' == s.(nextIndex := s.nextIndex[peer := if s.nextIndex[peer] > 1
                                                        then s.nextIndex[peer] - 1 else 1])
  }

  lemma SuccessTaken(peers: seq<NodeId>, s: NodeState, peer: NodeId)
    requires LocalOk(peers, s) && s.role == Leader && Distinct(peers) && peer in peers
    ensures peer in s.nextIndex && LeaderIndicesOk(peers, RecordSuccess(s, peer))
    ensures Advanced(peers, s.(nextIndex := s.nextIndex[peer := |s.log|],
                               matchIndex := s.matchIndex[peer := |s.log| - 1]),
                     AdvanceCommit(peers, RecordSuccess(s, peer)))
  {
    assert peer in SeqSet(peers);
    AdvanceAnswered(peers, RecordSuccess(s, peer));
  }

  lemma AckTaken(peers: seq<NodeId>, sv: Server, ack: Option<AppendEntriesReply>)
    requires sv.activity.Heartbeating? && sv.activity.next < |peers|
    requires LocalOk(peers, sv.node) && sv.node.role == Leader && Distinct(peers)
    ensures AckOutcome(peers, sv, peers[sv.activity.next], ack, TakeAppendReply(peers, sv, ack))
  {
    var s, peer := sv.node, peers[sv.activity.next];
    assert peer in SeqSet(peers);
    if ack.Some? && ack.value.success {
      SuccessTaken(peers, s, peer);
    } else if s.nextIndex[peer] == 1 {
      assert s.nextIndex[peer := 1] == s.nextIndex;
    }
  }
}
