/** Whole elections and heartbeat rounds as folds of the single steps of RaftSteps. */
module RaftRounds {
  import opened RaftTypes
  import opened RaftSteps

  /** Count the outcomes from peers[next] on until the peers are exhausted or a reply with a
      higher term ends the election. */
  function ElectionLoop(sv: Server, outcomes: seq<Option<RequestVoteReply>>): (r: Server)
    requires sv.activity.Electing? && sv.activity.next <= |outcomes|
    ensures r.activity.Idle? || r.activity.Electing?
    decreases |outcomes| - sv.activity.next
  {
    if sv.activity.next == |outcomes| then sv
    else
      var sv' := TakeVoteReply(sv, outcomes[sv.activity.next]);
      if sv'.activity.Idle? then sv' else ElectionLoop(sv', outcomes)
  }

  /** One election with what each call brings back. */
  function ElectionRound(self: NodeId, peers: seq<NodeId>, s: NodeState,
                         outcomes: seq<Option<RequestVoteReply>>): NodeState
    requires |outcomes| == |peers|
  {
    AfterLoop(peers, ElectionLoop(BecomeCandidate(self, s), outcomes))
  }

  // ---------- what decides an election ----------

  /** The call brought a refusal by a peer in a later term. */
  ghost predicate Deposes(outcome: Option<RequestVoteReply>, term: nat) {
    outcome.Some? && !outcome.value.voteGranted && outcome.value.term > term
  }

  /** The call to peers[i] is the first that brought such a refusal. */
  ghost predicate FirstDeposing(outcomes: seq<Option<RequestVoteReply>>, term: nat, i: nat) {
    && i < |outcomes| && Deposes(outcomes[i], term)
    && forall k :: 0 <= k < i ==> !Deposes(outcomes[k], term)
  }

  ghost predicate NoneDeposes(outcomes: seq<Option<RequestVoteReply>>, term: nat) {
    forall k :: 0 <= k < |outcomes| ==> !Deposes(outcomes[k], term)
  }

  /** The positions of the granted votes. */
  ghost function Grants(outcomes: seq<Option<RequestVoteReply>>): set<nat> {
    set i: nat | i < |outcomes| && outcomes[i].Some? && outcomes[i].value.voteGranted
  }

  lemma GrantsNext(outcomes: seq<Option<RequestVoteReply>>, i: nat)
    requires i < |outcomes|
    ensures |Grants(outcomes[..i + 1])| == |Grants(outcomes[..i])|
              + if outcomes[i].Some? && outcomes[i].value.voteGranted then 1 else 0
  {
    var before, after := Grants(outcomes[..i]), Grants(outcomes[..i + 1]);
    if outcomes[i].Some? && outcomes[i].value.voteGranted {
      assert after == before + {i};
    } else {
      assert after == before;
    }
  }

  /** The candidacy of a node that was in state s ends in state s'. */
  ghost predicate ElectionOutcome(self: NodeId, peers: seq<NodeId>, s: NodeState,
                                  outcomes: seq<Option<RequestVoteReply>>, s': NodeState)
  {
    var term := s.currentTerm + 1;
    && (forall i: nat :: FirstDeposing(outcomes, term, i) ==>
          s' == s.(currentTerm := outcomes[i].value.term, role := Follower, votedFor := ""))
    && (NoneDeposes(outcomes, term) ==>
          && (s'.role == Leader <==> 1 + |Grants(outcomes)| >= (|peers| + 1) / 2 + 1)
          && s'.role != Follower
          && s' == s.(currentTerm := term, votedFor := self, role := s'.role,
                      nextIndex := s'.nextIndex, matchIndex := s'.matchIndex)
          && IndicesFrom(peers, s, s'))
  }

  /** A new leader expects every peer to have its whole log and knows of no entry that one has; who
      is not elected touches no index. */
  ghost predicate IndicesFrom(peers: seq<NodeId>, s: NodeState, s': NodeState) {
    if s'.role == Leader then
      && (forall p :: p in peers ==>
            && p in s'.nextIndex && s'.nextIndex[p] == |s.log|
            && p in s'.matchIndex && s'.matchIndex[p] == 0)
      && s'.nextIndex.Keys == s.nextIndex.Keys + SeqSet(peers)
      && s'.matchIndex.Keys == s.matchIndex.Keys + SeqSet(peers)
    else s'.nextIndex == s.nextIndex && s'.matchIndex == s.matchIndex
  }

  /** The fold stops at the first such refusal and otherwise counts all grants. */
  lemma {:induction false} LoopDecides(sv: Server, outcomes: seq<Option<RequestVoteReply>>)
    requires sv.activity.Electing? && sv.activity.next <= |outcomes|
    requires sv.activity.votes == 1 + |Grants(outcomes[..sv.activity.next])|
    requires NoneDeposes(outcomes[..sv.activity.next], sv.node.currentTerm)
    ensures forall i: nat :: FirstDeposing(outcomes, sv.node.currentTerm, i) ==>
              ElectionLoop(sv, outcomes)
              == Server(sv.node.(currentTerm := outcomes[i].value.term, role := Follower,
                                 votedFor := ""), Idle)
    ensures NoneDeposes(outcomes, sv.node.currentTerm) ==>
              ElectionLoop(sv, outcomes)
              == Server(sv.node, Electing(|outcomes|, 1 + |Grants(outcomes)|))
    decreases |outcomes| - sv.activity.next
  {
    var next, term := sv.activity.next, sv.node.currentTerm;
    forall k | 0 <= k < next ensures !Deposes(outcomes[k], term) {
      assert outcomes[..next][k] == outcomes[k];
    }
    if next == |outcomes| {
      assert outcomes[..next] == outcomes;
    } else if !Deposes(outcomes[next], term) {
      GrantsNext(outcomes, next);
      LoopDecides(TakeVoteReply(sv, outcomes[next]), outcomes);
    }
  }

  /** What decides an election: if some peer refuses from a later term, the first such refusal makes
      the candidate a follower of that term without a vote; otherwise it leads the next term if
      and only if it has, with its own, the votes of a majority. */
  lemma ElectionDecides(self: NodeId, peers: seq<NodeId>, s: NodeState,
                        outcomes: seq<Option<RequestVoteReply>>)
    requires |outcomes| == |peers|
    ensures ElectionOutcome(self, peers, s, outcomes, ElectionRound(self, peers, s, outcomes))
  {
    assert outcomes[..0] == [] && Grants([]) == {};
    var sv := BecomeCandidate(self, s);
    LoopDecides(sv, outcomes);
    if NoneDeposes(outcomes, s.currentTerm + 1) {
      FinishIndices(peers, Server(sv.node, Electing(|outcomes|, 1 + |Grants(outcomes)|)));
    }
  }

  lemma FinishIndices(peers: seq<NodeId>, sv: Server)
    requires sv.activity.Electing? && sv.node.role == Candidate
    ensures IndicesFrom(peers, sv.node, FinishElection(peers, sv).node)
  {
  }

  function AfterLoop(peers: seq<NodeId>, sv: Server): NodeState {
    if sv.activity.Electing? then FinishElection(peers, sv).node else sv.node
  }

  /** The node after a heartbeat round and the requests it has sent. */
  datatype Round = Round(node: NodeState, sent: seq<(NodeId, AppendEntriesArgs)>)

  /** Replicate to peers[next] and so on until the peers are exhausted or a reply with a higher
      term ends the leadership. Each request is built from the state at its turn. */
  function HeartbeatLoop(sendsEntries: bool, self: NodeId, peers: seq<NodeId>, sv: Server,
                         outcomes: seq<Option<AppendEntriesReply>>,
                         sent: seq<(NodeId, AppendEntriesArgs)>): Round
    requires sv.activity.Heartbeating? && sv.activity.next <= |outcomes| == |peers|
    requires LocalOk(peers, sv.node) && sv.node.role == Leader
    decreases |peers| - sv.activity.next
  {
    if sv.activity.next == |peers| then Round(sv.node, sent)
    else
      TakeAppendReplyKeepsLocalOk(peers, sv, outcomes[sv.activity.next]);
      var peer := peers[sv.activity.next];
      var sv' := TakeAppendReply(peers, sv, outcomes[sv.activity.next]);
      var sent' := sent + [(peer, AppendArgs(sendsEntries, self, sv.node, peer))];
      if sv'.activity.Idle? then Round(sv'.node, sent')
      else HeartbeatLoop(sendsEntries, self, peers, sv', outcomes, sent')
  }

  /** One pass of the heartbeat thread: nothing happens unless the node leads. */
  function HeartbeatRound(sendsEntries: bool, self: NodeId, peers: seq<NodeId>, s: NodeState,
                          outcomes: seq<Option<AppendEntriesReply>>): Round
    requires |outcomes| == |peers| && LocalOk(peers, s)
  {
    if s.role == Leader
    then HeartbeatLoop(sendsEntries, self, peers, Server(s, Heartbeating(0)), outcomes, [])
    else Round(s, [])
  }
}
