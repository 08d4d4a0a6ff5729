/** The invariant through elections: standing, counting votes, winning, and granting a vote. */
module RaftElections {
  import opened RaftTypes
  import opened LogMerge
  import opened CommitRule
  import opened RaftSteps
  import opened RaftCluster
  import opened RaftHistory
  import opened RaftInvariant
  import opened RaftPreservation

  // ---------- standing for election ----------

  ghost function CandidacyHistory(h: History, n: NodeId, s: NodeState): History {
    var b := Ballot(n, s.currentTerm + 1);
    h.(votes := h.votes[b := n], candidacies := h.candidacies[b := s.log])
  }

  lemma CandidacyContinues(h: History, n: NodeId, s: NodeState)
    requires VotesOk(h, n, s) && OwnTermsOk(h, n, s)
    ensures ContinuesBy(h, CandidacyHistory(h, n, s), n)
  {
    var b := Ballot(n, s.currentTerm + 1);
    assert b !in h.votes && b !in h.candidacies;
  }

  lemma NotYetElector(members: set<NodeId>, h: History, n: NodeId, t: nat)
    requires t in h.reigns && ReignOk(members, h, t) && Ballot(n, t) !in h.votes
    ensures n !in h.reigns[t].electors
  {
    assert n in h.reigns[t].electors ==> VotedFor(h, n, t, h.reigns[t].leader);
  }

  /** A node's vote for itself: its own log keeps what it acknowledged. */
  lemma OwnVoteOk(members: set<NodeId>, h: History, n: NodeId, s: NodeState)
    requires n in members && VotesOk(h, n, s) && AcksOk(h, n, s)
    requires forall t {:trigger ReignOk(members, h, t)} :: t in h.reigns ==> ReignOk(members, h, t)
    requires Continues(h, CandidacyHistory(h, n, s))
    ensures VoteOk(members, CandidacyHistory(h, n, s), Ballot(n, s.currentTerm + 1))
  {
    var h' := CandidacyHistory(h, n, s);
    var term := s.currentTerm + 1;
    if term in h.reigns {
      NotYetElector(members, h, n, term);
    } else {
      forall t: nat, k: nat | t < term && Acked(h', n, t, k) && OwnEntry(h', t, k)
        ensures LeaderPrefix(h', t, k) <= s.log || Superseded(h', t, k, term)
      {
        assert Acked(h, n, t, k) && OwnEntry(h, t, k);
        if Superseded(h, t, k, term) {
          SupersededContinues(h, h', t, k, term, term);
        }
      }
    }
  }

  lemma CandidacyIsOk(members: set<NodeId>, h: History, n: NodeId, s: NodeState)
    requires n in members && Rooted(h, s.log) && TermsBelow(s.log, s.currentTerm + 1)
    requires Continues(h, CandidacyHistory(h, n, s))
    ensures CandidacyOk(members, CandidacyHistory(h, n, s), Ballot(n, s.currentTerm + 1))
  {
    RootedContinues(h, CandidacyHistory(h, n, s), s.log);
  }

  lemma BeginElectionHistory(members: set<NodeId>, h: History, n: NodeId, s: NodeState)
    requires n in members && HistoryOk(members, h)
    requires VotesOk(h, n, s) && OwnTermsOk(h, n, s) && AcksOk(h, n, s)
    requires Rooted(h, s.log) && TermsBelow(s.log, s.currentTerm + 1)
    ensures ContinuesBy(h, CandidacyHistory(h, n, s), n)
    ensures HistoryOk(members, CandidacyHistory(h, n, s))
  {
    CandidacyContinues(h, n, s);
    OwnVoteOk(members, h, n, s);
    CandidacyIsOk(members, h, n, s);
    HistoryContinues(members, h, CandidacyHistory(h, n, s));
  }

  lemma BeginElectionServer(members: set<NodeId>, peers: seq<NodeId>, h: History, n: NodeId,
                            sv: Server)
    requires Seat(members, n, peers) && ServerOk(peers, h, n, sv)
    requires ContinuesBy(h, CandidacyHistory(h, n, sv.node), n)
    ensures ServerOk(peers, CandidacyHistory(h, n, sv.node), n, BecomeCandidate(n, sv.node))
  {
    var s := sv.node;
    var h' := CandidacyHistory(h, n, s);
    var s' := BecomeCandidate(n, s).node;
    RootedContinues(h, h', s.log);
    AcksSurvive(h, h', n, s, s'.currentTerm);
    AppliedContinues(h, h', s, s');
    assert Voters(h', n, s'.currentTerm, peers[..0]) == {n};
  }

  lemma TakeVoteServer(members: set<NodeId>, peers: seq<NodeId>, h: History, n: NodeId, sv: Server,
                       outcome: Option<RequestVoteReply>)
    requires Seat(members, n, peers) && ServerOk(peers, h, n, sv)
    requires sv.activity.Electing? && sv.activity.next < |peers|
    requires outcome.Some? && outcome.value.voteGranted ==>
               VotedFor(h, peers[sv.activity.next], sv.node.currentTerm, n)
    ensures ServerOk(peers, h, n, TakeVoteReply(sv, outcome))
  {
    var Electing(next, votes) := sv.activity;
    var t := sv.node.currentTerm;
    var before, after := Voters(h, n, t, peers[..next]), Voters(h, n, t, peers[..next + 1]);
    assert peers[..next + 1] == peers[..next] + [peers[next]];
    if outcome.Some? && outcome.value.voteGranted {
      assert peers[next] in SeqSet(peers);
      assert peers[next] !in peers[..next];
      assert after == before + {peers[next]};
    } else {
      assert before <= after;
      SubsetSize(before, after);
      if outcome.Some? && outcome.value.term > t {
        RaiseTerm(peers, h, n, sv, outcome.value.term, NO_VOTE);
      }
    }
  }

  /** Two candidates that each have a vote quorum in a term are the same. */
  lemma SameTermSameLeader(members: set<NodeId>, h: History, t: nat, n: NodeId, voters: set<NodeId>)
    requires t in h.reigns && ReignOk(members, h, t)
    requires voters <= members && |voters| >= VoteQuorum(|members|)
    requires forall q :: q in voters ==> VotedFor(h, q, t, n)
    ensures h.reigns[t].leader == n
  {
    var q := VoteMeetsVote(members, voters, h.reigns[t].electors);
    assert VotedFor(h, q, t, n);
  }

  /** Election safety: a candidate with enough votes is the first leader of its term. */
  lemma WinnerIsFirst(members: set<NodeId>, peers: seq<NodeId>, h: History, n: NodeId, sv: Server)
    requires Seat(members, n, peers) && HistoryOk(members, h)
    requires OwnTermsOk(h, n, sv.node) && ActivityOk(h, n, peers, sv)
    requires sv.activity.Electing? && sv.activity.next == |peers|
    requires sv.activity.votes >= VoteQuorum(|peers| + 1)
    ensures sv.node.currentTerm !in h.reigns && Ballot(n, sv.node.currentTerm) !in h.acks
    ensures Voters(h, n, sv.node.currentTerm, peers) <= members
    ensures |Voters(h, n, sv.node.currentTerm, peers)| >= VoteQuorum(|members|)
  {
    var t := sv.node.currentTerm;
    var voters := Voters(h, n, t, peers);
    assert peers[..|peers|] == peers;
    DistinctSize(peers);
    assert members == {n} + SeqSet(peers);
    if t in h.reigns {
      SameTermSameLeader(members, h, t, n, voters);
      assert false;
    }
    assert Ballot(n, t) in h.acks ==> AckOk(members, h, Ballot(n, t));
  }

  ghost function VictoryHistory(h: History, n: NodeId, s: NodeState, peers: seq<NodeId>): History
    requires |s.log| > 0
  {
    var t := s.currentTerm;
    h.(reigns := h.reigns[t := Reign(n, Voters(h, n, t, peers), s.log, s.log)],
       acks := h.acks[Ballot(n, t) := |s.log| - 1])
  }

  lemma VictoryContinues(h: History, n: NodeId, s: NodeState, peers: seq<NodeId>)
    requires |s.log| > 0 && s.currentTerm !in h.reigns && Ballot(n, s.currentTerm) !in h.acks
    ensures ContinuesBy(h, VictoryHistory(h, n, s, peers), n)
  {
  }

  lemma VictoryReignOk(members: set<NodeId>, h: History, n: NodeId, s: NodeState,
                       peers: seq<NodeId>)
    requires n in members && |s.log| > 0 && Continues(h, VictoryHistory(h, n, s, peers))
    requires StoodWith(h, n, s.currentTerm, s.log)
    requires CandidacyOk(members, h, Ballot(n, s.currentTerm))
    requires Voters(h, n, s.currentTerm, peers) <= members
    requires |Voters(h, n, s.currentTerm, peers)| >= VoteQuorum(|members|)
    ensures ReignOk(members, VictoryHistory(h, n, s, peers), s.currentTerm)
  {
    var h' := VictoryHistory(h, n, s, peers);
    RootedContinues(h, h', s.log);
    assert s.log[0].term < s.currentTerm;
  }

  lemma EndElectionHistory(members: set<NodeId>, peers: seq<NodeId>, h: History, n: NodeId,
                           sv: Server)
    requires Seat(members, n, peers) && HistoryOk(members, h) && ServerOk(peers, h, n, sv)
    requires sv.activity.Electing? && sv.activity.next == |peers|
    requires sv.activity.votes >= VoteQuorum(|peers| + 1)
    ensures ContinuesBy(h, VictoryHistory(h, n, sv.node, peers), n)
    ensures HistoryOk(members, VictoryHistory(h, n, sv.node, peers))
  {
    var s := sv.node;
    var h' := VictoryHistory(h, n, s, peers);
    WinnerIsFirst(members, peers, h, n, sv);
    VictoryContinues(h, n, s, peers);
    assert CandidacyOk(members, h, Ballot(n, s.currentTerm));
    VictoryReignOk(members, h, n, s, peers);
    VictoryAcks(h, n, s, peers);
    HistoryContinues(members, h, h');
  }

  lemma VictoryAcks(h: History, n: NodeId, s: NodeState, peers: seq<NodeId>)
    requires |s.log| > 0 && VotesOk(h, n, s)
    ensures AcksFrozen(h, VictoryHistory(h, n, s, peers))
  {
  }

  lemma VictoryAcksOk(h: History, n: NodeId, s: NodeState, peers: seq<NodeId>, s': NodeState)
    requires |s.log| > 0 && AcksOk(h, n, s) && Continues(h, VictoryHistory(h, n, s, peers))
    requires forall b :: b in h.acks ==> b.term in h.reigns && h.acks[b] < |h.reigns[b.term].built|
    requires s'.log == s.log && s'.currentTerm == s.currentTerm
    ensures AcksOk(VictoryHistory(h, n, s, peers), n, s')
  {
    var h' := VictoryHistory(h, n, s, peers);
    var t := s.currentTerm;
    forall u: nat, k: nat | Acked(h', n, u, k) && u in h'.reigns && k < |h'.reigns[u].built|
      ensures LeaderPrefix(h', u, k) <= s.log || Superseded(h', u, k, t + 1)
    {
      if u != t {
        assert Acked(h, n, u, k);
        if Superseded(h, u, k, t + 1) {
          SupersededContinues(h, h', u, k, t + 1, t + 1);
        }
      }
    }
  }

  lemma EndElectionServer(members: set<NodeId>, peers: seq<NodeId>, h: History, n: NodeId,
                          sv: Server)
    requires Seat(members, n, peers) && HistoryOk(members, h) && ServerOk(peers, h, n, sv)
    requires sv.activity.Electing? && sv.activity.next == |peers|
    requires sv.activity.votes >= VoteQuorum(|peers| + 1)
    ensures ServerOk(peers, VictoryHistory(h, n, sv.node, peers), n, FinishElection(peers, sv))
  {
    WinnerIsFirst(members, peers, h, n, sv);
    VictoryContinues(h, n, sv.node, peers);
    assert forall b :: b in h.acks ==> AckOk(members, h, b);
    VictoryServer(peers, h, n, sv);
  }

  lemma VictoryServer(peers: seq<NodeId>, h: History, n: NodeId, sv: Server)
    requires ServerOk(peers, h, n, sv) && sv.activity.Electing?
    requires sv.activity.votes >= VoteQuorum(|peers| + 1)
    requires ContinuesBy(h, VictoryHistory(h, n, sv.node, peers), n)
    requires forall b :: b in h.acks ==> b.term in h.reigns && h.acks[b] < |h.reigns[b.term].built|
    ensures ServerOk(peers, VictoryHistory(h, n, sv.node, peers), n, FinishElection(peers, sv))
  {
    var s := sv.node;
    var h' := VictoryHistory(h, n, s, peers);
    var s' := FinishElection(peers, sv).node;
    FinishElectionKeepsLocalOk(peers, sv);
    RootedContinues(h, h', s.log);
    AppliedContinues(h, h', s, s');
    VictoryAcksOk(h, n, s, peers, s');
  }

  // ---------- granting a vote ----------

  ghost function GrantHistory(h: History, n: NodeId, args: RequestVoteArgs): History {
    h.(votes := h.votes[Ballot(n, args.term) := args.candidateId])
  }

  ghost predicate Granted(s: NodeState, args: RequestVoteArgs)
    requires |s.log| > 0
  {
    HandleRequestVote(s, args).1.voteGranted
  }

  /** A node never grants two candidates in one term, whatever stale vote it carries. */
  lemma GrantIsSingle(members: set<NodeId>, h: History, n: NodeId, s: NodeState,
                      args: RequestVoteArgs)
    requires NO_VOTE !in members && HistoryOk(members, h) && |s.log| > 0
    requires VotesOk(h, n, s) && Granted(s, args)
    ensures Ballot(n, args.term) in h.votes ==> h.votes[Ballot(n, args.term)] == args.candidateId
    ensures ContinuesBy(h, GrantHistory(h, n, args), n)
  {
    var b := Ballot(n, args.term);
    if b in h.votes {
      assert VoteOk(members, h, b);
      assert CandidacyOk(members, h, Ballot(h.votes[b], b.term));
    }
  }

  /** What the voter acknowledged of earlier leaders is in the candidate's log, or an earlier
      leader already lacked it. */
  lemma VoterPassesOn(members: set<NodeId>, h: History, n: NodeId, s: NodeState,
                      args: RequestVoteArgs, u: nat, k: nat)
    requires HistoryOk(members, h) && Rooted(h, s.log) && AcksOk(h, n, s) && Granted(s, args)
    requires MessageOk(h, VoteRequest(n, args)) && args.term !in h.reigns
    requires Acked(h, n, u, k) && OwnEntry(h, u, k)
    ensures var theirs := h.candidacies[Ballot(args.candidateId, args.term)];
            LeaderPrefix(h, u, k) <= theirs || Superseded(h, u, k, args.term)
  {
    var b := Ballot(args.candidateId, args.term);
    assert CandidacyOk(members, h, b);
    if Superseded(h, u, k, s.currentTerm + 1) {
      var v: nat :| u < v < s.currentTerm + 1 && v in h.reigns
                    && !(LeaderPrefix(h, u, k) <= h.reigns[v].elected);
      assert v < args.term;
    } else {
      UpToDateContains(members, h, s.log, h.candidacies[b], u, k, args.term);
    }
  }

  lemma GrantVoteOk(members: set<NodeId>, h: History, n: NodeId, s: NodeState,
                    args: RequestVoteArgs)
    requires n in members && HistoryOk(members, h) && Rooted(h, s.log) && AcksOk(h, n, s)
    requires MessageOk(h, VoteRequest(n, args)) && Granted(s, args)
    requires Ballot(n, args.term) !in h.votes
    ensures VoteOk(members, GrantHistory(h, n, args), Ballot(n, args.term))
  {
    var h' := GrantHistory(h, n, args);
    var b := Ballot(n, args.term);
    var theirs := h.candidacies[Ballot(args.candidateId, args.term)];
    if args.term in h.reigns {
      NotYetElector(members, h, n, args.term);
    } else {
      forall u: nat, k: nat | u < args.term && Acked(h', n, u, k) && OwnEntry(h', u, k)
        ensures LeaderPrefix(h', u, k) <= theirs || Superseded(h', u, k, args.term)
      {
        assert Acked(h, n, u, k) && OwnEntry(h, u, k);
        VoterPassesOn(members, h, n, s, args, u, k);
        assert LeaderPrefix(h', u, k) == LeaderPrefix(h, u, k);
        if Superseded(h, u, k, args.term) {
          var v: nat :| u < v < args.term && v in h.reigns
                        && !(LeaderPrefix(h, u, k) <= h.reigns[v].elected);
          assert v in h'.reigns && !(LeaderPrefix(h', u, k) <= h'.reigns[v].elected);
        }
      }
    }
  }

  lemma GrantHistoryOk(members: set<NodeId>, h: History, n: NodeId, s: NodeState,
                       args: RequestVoteArgs)
    requires n in members && NO_VOTE !in members && HistoryOk(members, h)
    requires Rooted(h, s.log) && AcksOk(h, n, s) && VotesOk(h, n, s)
    requires MessageOk(h, VoteRequest(n, args)) && Granted(s, args)
    ensures ContinuesBy(h, GrantHistory(h, n, args), n)
    ensures HistoryOk(members, GrantHistory(h, n, args))
  {
    GrantIsSingle(members, h, n, s, args);
    if Ballot(n, args.term) in h.votes {
      assert GrantHistory(h, n, args) == h;
    } else {
      GrantVoteOk(members, h, n, s, args);
      HistoryContinues(members, h, GrantHistory(h, n, args));
    }
  }

  lemma VoteServer(members: set<NodeId>, peers: seq<NodeId>, h: History, n: NodeId, sv: Server,
                   args: RequestVoteArgs)
    requires n in members && NO_VOTE !in members && HistoryOk(members, h)
    requires ServerOk(peers, h, n, sv) && sv.activity.Idle?
    requires Granted(sv.node, args) ==> ContinuesBy(h, GrantHistory(h, n, args), n)
    ensures var h' := if Granted(sv.node, args) then GrantHistory(h, n, args) else h;
            ServerOk(peers, h', n, sv.(node := HandleRequestVote(sv.node, args).0))
  {
    var s := sv.node;
    var raised := sv;
    if args.term > s.currentTerm {
      RaiseTerm(peers, h, n, sv, args.term, NO_VOTE);
      raised := Server(StepDown(s, args.term), Idle);
    }
    if Granted(s, args) {
      GrantServer(members, peers, h, n, raised, args);
    }
  }

  lemma GrantServer(members: set<NodeId>, peers: seq<NodeId>, h: History, n: NodeId, sv: Server,
                    args: RequestVoteArgs)
    requires ServerOk(peers, h, n, sv) && sv.activity.Idle? && sv.node.currentTerm == args.term
    requires ContinuesBy(h, GrantHistory(h, n, args), n)
    ensures ServerOk(peers, GrantHistory(h, n, args), n,
              sv.(node := sv.node.(votedFor := args.candidateId)))
  {
    var h' := GrantHistory(h, n, args);
    var s' := sv.node.(votedFor := args.candidateId);
    RootedContinues(h, h', s'.log);
    AcksSurvive(h, h', n, sv.node, s'.currentTerm);
    AppliedContinues(h, h', sv.node, s');
  }
}
