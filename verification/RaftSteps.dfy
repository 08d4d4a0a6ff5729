/** What each atomic stretch of RaftNode.cpp does to a node, as functions on node states. */
module RaftSteps {
  import opened RaftTypes
  import opened LogMerge
  import opened CommitRule

  // ---------- what must hold of a node for its vector accesses to stay in range ----------

  ghost predicate LeaderIndicesOk(peers: seq<NodeId>, s: NodeState) {
    && s.matchIndex.Keys == SeqSet(peers)
    && forall p :: p in peers ==>
         && p in s.nextIndex && 1 <= s.nextIndex[p] <= |s.log|
         && p in s.matchIndex && s.matchIndex[p] < |s.log|
  }

  ghost predicate LocalOk(peers: seq<NodeId>, s: NodeState) {
    && WellFormed(s.log)
    && s.matchIndex.Keys <= SeqSet(peers)
    && (s.role == Leader ==> LeaderIndicesOk(peers, s))
  }

  /** The index fields of the entries continue from prevLogIndex. */
  ghost predicate Numbered(args: AppendEntriesArgs) {
    forall i :: 0 <= i < |args.entries| ==> args.entries[i].index == args.prevLogIndex + 1 + i
  }

  // ---------- shared pieces ----------

  function LastIndex(log: Log): nat
    requires |log| > 0
  {
    log[|log| - 1].index
  }

  function LastTerm(log: Log): nat
    requires |log| > 0
  {
    log[|log| - 1].term
  }

  /** A reply carried a higher term: adopt it and forget the vote. */
  function StepDown(s: NodeState, term: nat): NodeState {
    s.(currentTerm := term, role := Follower, votedFor := NO_VOTE)
  }

  /** Apply every committed entry that has not been applied yet. */
  function Apply(s: NodeState): NodeState
    requires s.lastApplied < s.commitIndex ==> s.commitIndex < |s.log|
  {
    if s.lastApplied < s.commitIndex then
      s.(store := FoldPuts(s.store, s.log[s.lastApplied + 1..s.commitIndex + 1]),
         lastApplied := s.commitIndex)
    else s
  }

  function Min(a: nat, b: nat): nat {
    if a <= b then a else b
  }

  // ---------- request handlers and client submission ----------

  predicate UpToDate(args: RequestVoteArgs, log: Log)
    requires |log| > 0
  {
    || args.lastLogTerm > LastTerm(log)
    || (args.lastLogTerm == LastTerm(log) && args.lastLogIndex >= LastIndex(log))
  }

  function HandleRequestVote(s: NodeState, args: RequestVoteArgs): (NodeState, RequestVoteReply)
    requires |s.log| > 0
  {
    if args.term < s.currentTerm then (s, RequestVoteReply(s.currentTerm, false))
    else
      var s1 := if args.term > s.currentTerm then StepDown(s, args.term) else s;
      if (s1.votedFor == NO_VOTE || s1.votedFor == args.candidateId) && UpToDate(args, s1.log)
      then (s1.(votedFor := args.candidateId), RequestVoteReply(s1.currentTerm, true))
      else (s1, RequestVoteReply(s1.currentTerm, false))
  }

  /** The term is adopted without clearing the vote, and a failed log check answers with the
      term the node had before the request. */
  function HandleAppendEntries(s: NodeState, args: AppendEntriesArgs)
    : (NodeState, AppendEntriesReply)
    requires WellFormed(s.log) && Numbered(args)
  {
    if args.term < s.currentTerm then (s, AppendEntriesReply(s.currentTerm, false))
    else
      var s1 := s.(role := Follower, currentTerm := args.term);
      if args.prevLogIndex >= |s.log| || s.log[args.prevLogIndex].term != args.prevLogTerm
      then (s1, AppendEntriesReply(s.currentTerm, false))
      else
        MergeWellFormed(s.log, args.prevLogIndex, args.entries);
        var s2 := s1.(log := Merge(s.log, args.prevLogIndex, args.entries));
        (Commit(s2, args.leaderCommit), AppendEntriesReply(args.term, true))
  }

  /** The follower's commit rule: bounded by its own last index. */
  function Commit(s: NodeState, leaderCommit: nat): NodeState
    requires WellFormed(s.log)
  {
    if leaderCommit > s.commitIndex
    then Apply(s.(commitIndex := Min(leaderCommit, LastIndex(s.log))))
    else s
  }

  function SubmitLog(s: NodeState, key: string, value: string): (NodeState, bool)
    requires |s.log| > 0
  {
    if s.role != Leader then (s, false)
    else (s.(log := s.log + [LogEntry(s.currentTerm, LastIndex(s.log) + 1, key, value)]), true)
  }

  // ---------- elections and heartbeats ----------

  /** Where a node's background thread is while it holds the node's lock: nowhere, waiting for
      the vote of peers[next] with `votes` counted, or replicating to peers[next]. */
  datatype Activity = Idle | Electing(next: nat, votes: nat) | Heartbeating(next: nat)

  datatype Server = Server(node: NodeState, activity: Activity)

  function BecomeCandidate(self: NodeId, s: NodeState): Server {
    Server(s.(role := Candidate, currentTerm := s.currentTerm + 1, votedFor := self),
           Electing(0, 1))
  }

  function VoteArgs(self: NodeId, s: NodeState): RequestVoteArgs
    requires |s.log| > 0
  {
    RequestVoteArgs(s.currentTerm, self, LastIndex(s.log), LastTerm(s.log))
  }

  /** The outcome of one vote request: None when the call failed or its reply was lost. */
  function TakeVoteReply(sv: Server, outcome: Option<RequestVoteReply>): Server
    requires sv.activity.Electing?
  {
    var Electing(next, votes) := sv.activity;
    match outcome
    case None => sv.(activity := Electing(next + 1, votes))
    case Some(reply) =>
      if reply.voteGranted then sv.(activity := Electing(next + 1, votes + 1))
      else if reply.term > sv.node.currentTerm then Server(StepDown(sv.node, reply.term), Idle)
      else sv.(activity := Electing(next + 1, votes))
  }

  function SetAll(m: map<NodeId, nat>, peers: seq<NodeId>, v: nat): map<NodeId, nat> {
    m + map p | p in peers :: v
  }

  function FinishElection(peers: seq<NodeId>, sv: Server): Server
    requires sv.activity.Electing?
  {
    var s := sv.node;
    if sv.activity.votes >= VoteQuorum(|peers| + 1)
    then Server(s.(role := Leader,
                   nextIndex := SetAll(s.nextIndex, peers, |s.log|),
                   matchIndex := SetAll(s.matchIndex, peers, 0)), Idle)
    else Server(s, Idle)
  }

  /** The request the leader builds for a peer: everything from nextIndex on. `sendsEntries`
      is false for the request as it is actually put on the wire: the collected entries are
      never stored in it. */
  function AppendArgs(sendsEntries: bool, self: NodeId, s: NodeState, peer: NodeId)
    : AppendEntriesArgs
    requires peer in s.nextIndex && 1 <= s.nextIndex[peer] <= |s.log|
  {
    var next := s.nextIndex[peer];
    AppendEntriesArgs(s.currentTerm, self, next - 1, s.log[next - 1].term,
                      if sendsEntries then s.log[next..] else [], s.commitIndex)
  }

  /** The leader's own last index, then the match index of every peer. */
  function ReplicaIndices(peers: seq<NodeId>, s: NodeState): (r: seq<nat>)
    requires |s.log| > 0 && forall p :: p in peers ==> p in s.matchIndex
    ensures |r| == |peers| + 1
  {
    [|s.log| - 1] + MatchValues(peers, s.matchIndex)
  }

  function MatchValues(peers: seq<NodeId>, m: map<NodeId, nat>): (r: seq<nat>)
    requires forall p :: p in peers ==> p in m
    ensures |r| == |peers|
  {
    if peers == [] then [] else [m[peers[0]]] + MatchValues(peers[1..], m)
  }

  ghost function ReachedBy(ps: set<NodeId>, m: map<NodeId, nat>, v: nat): set<NodeId> {
    set p | p in ps && p in m && m[p] >= v
  }

  lemma {:induction false} MatchValuesCount(peers: seq<NodeId>, m: map<NodeId, nat>, v: nat)
    requires Distinct(peers) && forall p :: p in peers ==> p in m
    ensures CountAtLeast(MatchValues(peers, m), v) == |ReachedBy(SeqSet(peers), m, v)|
  {
    if peers == [] {
      assert ReachedBy(SeqSet(peers), m, v) == {};
    } else {
      MatchValuesCount(peers[1..], m, v);
      var head := peers[0];
      assert head !in peers[1..];
      assert SeqSet(peers) == SeqSet(peers[1..]) + {head};
      ReachedByAdd(SeqSet(peers[1..]), m, head, v);
      assert MatchValues(peers, m)[1..] == MatchValues(peers[1..], m);
    }
  }

  lemma ReachedByAdd(ps: set<NodeId>, m: map<NodeId, nat>, p: NodeId, v: nat)
    requires p in m && p !in ps
    ensures |ReachedBy(ps + {p}, m, v)| == |ReachedBy(ps, m, v)| + if m[p] >= v then 1 else 0
  {
    assert ReachedBy(ps + {p}, m, v) == ReachedBy(ps, m, v) + if m[p] >= v then {p} else {};
  }

  lemma ReplicaIndicesInRange(peers: seq<NodeId>, s: NodeState)
    requires |s.log| > 0
    requires forall p :: p in peers ==> p in s.matchIndex && s.matchIndex[p] < |s.log|
    ensures CommitCandidate(ReplicaIndices(peers, s)) < |s.log|
  {
    var r := ReplicaIndices(peers, s);
    MatchValuesBelow(peers, s.matchIndex, |s.log|);
    CountNone(r, |s.log|);
    CommitCandidateIsGreatest(r, |s.log|);
  }

  lemma {:induction false} MatchValuesBelow(peers: seq<NodeId>, m: map<NodeId, nat>, bound: nat)
    requires forall p :: p in peers ==> p in m && m[p] < bound
    ensures forall i :: 0 <= i < |peers| ==> MatchValues(peers, m)[i] < bound
  {
    if peers != [] {
      MatchValuesBelow(peers[1..], m, bound);
    }
  }

  /** Commit the greatest index a commit quorum has reached, but only an entry of this term. */
  function AdvanceCommit(peers: seq<NodeId>, s: NodeState): NodeState
    requires |s.log| > 0
    requires forall p :: p in peers ==> p in s.matchIndex && s.matchIndex[p] < |s.log|
  {
    var k := CommitCandidate(ReplicaIndices(peers, s));
    ReplicaIndicesInRange(peers, s);
    if k > s.commitIndex && s.log[k].term == s.currentTerm
    then Apply(s.(commitIndex := k))
    else s
  }

  /** A successful replication to the peer: it now has the whole log. */
  function RecordSuccess(s: NodeState, peer: NodeId): NodeState
    requires |s.log| > 0 && peer in s.nextIndex && s.nextIndex[peer] <= |s.log|
  {
    var next := s.nextIndex[peer] + |s.log[s.nextIndex[peer]..]|;
    s.(nextIndex := s.nextIndex[peer := next], matchIndex := s.matchIndex[peer := next - 1])
  }

  function TakeAppendReply(peers: seq<NodeId>, sv: Server, outcome: Option<AppendEntriesReply>)
    : Server
    requires sv.activity.Heartbeating? && sv.activity.next < |peers|
    requires |sv.node.log| > 0 && LeaderIndicesOk(peers, sv.node)
  {
    var s := sv.node;
    var peer := peers[sv.activity.next];
    var rest := Heartbeating(sv.activity.next + 1);
    match outcome
    case None => Server(s, rest)
    case Some(reply) =>
      if reply.success then Server(AdvanceCommit(peers, RecordSuccess(s, peer)), rest)
      else if reply.term > s.currentTerm then Server(StepDown(s, reply.term), Idle)
      else if s.nextIndex[peer] > 1
      then Server(s.(nextIndex := s.nextIndex[peer := s.nextIndex[peer] - 1]), rest)
      else Server(s, rest)
  }

  // ---------- local obligations are kept by every step ----------

  lemma HandleAppendEntriesKeepsLocalOk(peers: seq<NodeId>, s: NodeState, args: AppendEntriesArgs)
    requires LocalOk(peers, s) && Numbered(args)
    ensures LocalOk(peers, HandleAppendEntries(s, args).0)
  {
    if args.prevLogIndex < |s.log| {
      MergeWellFormed(s.log, args.prevLogIndex, args.entries);
    }
  }

  lemma FinishElectionKeepsLocalOk(peers: seq<NodeId>, sv: Server)
    requires sv.activity.Electing? && sv.node.role == Candidate && LocalOk(peers, sv.node)
    ensures LocalOk(peers, FinishElection(peers, sv).node)
  {
  }

  lemma TakeAppendReplyKeepsLocalOk(peers: seq<NodeId>, sv: Server,
                                    outcome: Option<AppendEntriesReply>)
    requires sv.activity.Heartbeating? && sv.activity.next < |peers|
    requires LocalOk(peers, sv.node) && sv.node.role == Leader
    ensures LocalOk(peers, TakeAppendReply(peers, sv, outcome).node)
  {
    var peer := peers[sv.activity.next];
    assert peer in SeqSet(peers);
    if outcome.Some? && outcome.value.success {
      var s := RecordSuccess(sv.node, peer);
      assert LeaderIndicesOk(peers, s);
    }
  }
}
