/** What a step has to show to keep the invariant, and what it gets for free. */
module RaftPreservation {
  import opened RaftTypes
  import opened LogMerge
  import opened CommitRule
  import opened RaftSteps
  import opened RaftCluster
  import opened RaftHistory
  import opened RaftInvariant

  ghost predicate Seat(members: set<NodeId>, n: NodeId, peers: seq<NodeId>) {
    && n in members && NO_VOTE !in members
    && Distinct(peers) && SeqSet(peers) == members - {n}
  }

  // ---------- the history part ----------

  /** No acknowledgement changes in a term in which the node has since voted past it. */
  ghost predicate AcksFrozen(h: History, h': History) {
    forall b, v: nat :: b in h'.acks && Ballot(b.node, v) in h.votes && b.term < v ==>
      b in h.acks && h'.acks[b] == h.acks[b]
  }

  lemma OldVoteOk(members: set<NodeId>, h: History, h': History, b: Ballot)
    requires HistoryOk(members, h) && Continues(h, h') && AcksFrozen(h, h') && b in h.votes
    ensures VoteOk(members, h', b)
  {
    assert VoteOk(members, h, b);
    if b.term in h.reigns {
      assert ReignContinues(h.reigns[b.term], h'.reigns[b.term]);
    }
    if b.term in h'.reigns ==> b.node in h'.reigns[b.term].electors {
      forall t: nat, k: nat | t < b.term && Acked(h', b.node, t, k) && OwnEntry(h', t, k)
        ensures LeaderPrefix(h', t, k) <= h'.candidacies[Ballot(h'.votes[b], b.term)]
             || Superseded(h', t, k, b.term)
      {
        assert Ballot(b.node, b.term) == b;
        assert AckOk(members, h, Ballot(b.node, t));
        assert ReignContinues(h.reigns[t], h'.reigns[t]);
        PrefixContinues(h, h', t, k);
        assert Acked(h, b.node, t, k) && OwnEntry(h, t, k);
        if Superseded(h, t, k, b.term) {
          SupersededContinues(h, h', t, k, b.term, b.term);
        }
      }
    }
  }

  lemma OldReignOk(members: set<NodeId>, h: History, h': History, t: nat)
    requires Continues(h, h') && t in h.reigns && ReignOk(members, h, t)
    requires h'.reigns[t] == h.reigns[t]
    ensures ReignOk(members, h', t)
  {
    RootedContinues(h, h', h.reigns[t].built);
  }

  lemma OldCommitOk(members: set<NodeId>, h: History, h': History, c: CommitPoint)
    requires Continues(h, h') && CommitOk(members, h, c)
    ensures CommitOk(members, h', c)
  {
    assert ReignContinues(h.reigns[c.term], h'.reigns[c.term]);
    assert Holders(members, h, c.term, c.index) <= Holders(members, h', c.term, c.index);
    SubsetSize(Holders(members, h, c.term, c.index), Holders(members, h', c.term, c.index));
  }

  /** Only what is new in the history has to be checked. */
  lemma HistoryContinues(members: set<NodeId>, h: History, h': History)
    requires HistoryOk(members, h) && Continues(h, h') && AcksFrozen(h, h')
    requires forall t {:trigger ReignOk(members, h', t)} ::
               t in h'.reigns && (t in h.reigns ==> h'.reigns[t] != h.reigns[t]) ==>
                 ReignOk(members, h', t)
    requires forall b {:trigger CandidacyOk(members, h', b)} ::
               b in h'.candidacies && b !in h.candidacies ==> CandidacyOk(members, h', b)
    requires forall b {:trigger VoteOk(members, h', b)} ::
               b in h'.votes && b !in h.votes ==> VoteOk(members, h', b)
    requires forall b {:trigger AckOk(members, h', b)} ::
               b in h'.acks && (b in h.acks ==> h'.acks[b] != h.acks[b]) ==> AckOk(members, h', b)
    requires forall c {:trigger CommitOk(members, h', c)} ::
               c in h'.commits && c !in h.commits ==> CommitOk(members, h', c)
    ensures HistoryOk(members, h')
  {
    forall t | t in h'.reigns ensures ReignOk(members, h', t) {
      if t in h.reigns && h'.reigns[t] == h.reigns[t] {
        OldReignOk(members, h, h', t);
      }
    }
    forall b | b in h'.candidacies ensures CandidacyOk(members, h', b) {
      if b in h.candidacies {
        assert CandidacyOk(members, h, b);
        RootedContinues(h, h', h.candidacies[b]);
      }
    }
    forall b | b in h'.votes ensures VoteOk(members, h', b) {
      if b in h.votes {
        OldVoteOk(members, h, h', b);
      }
    }
    forall b | b in h'.acks ensures AckOk(members, h', b) {
      if b in h.acks && h'.acks[b] == h.acks[b] {
        assert AckOk(members, h, b);
        assert ReignContinues(h.reigns[b.term], h'.reigns[b.term]);
      }
    }
    forall c | c in h'.commits ensures CommitOk(members, h', c) {
      if c in h.commits {
        OldCommitOk(members, h, h', c);
      }
    }
  }

  lemma OnlyAcksChanged(members: set<NodeId>, h: History, h': History, b: Ballot)
    requires HistoryOk(members, h) && Continues(h, h') && AcksFrozen(h, h')
    requires b in h'.acks && h' == h.(acks := h.acks[b := h'.acks[b]]) && AckOk(members, h', b)
    ensures HistoryOk(members, h')
  {
    HistoryContinues(members, h, h');
  }

  lemma OnlyCommitAdded(members: set<NodeId>, h: History, c: CommitPoint)
    requires HistoryOk(members, h)
    requires CommitOk(members, h.(commits := h.commits + {c}), c)
    ensures HistoryOk(members, h.(commits := h.commits + {c}))
  {
    HistoryContinues(members, h, h.(commits := h.commits + {c}));
  }

  // ---------- the server part ----------

  /** With the same acknowledgements and log, AcksOk carries over to a higher term. */
  lemma AcksSurvive(h: History, h': History, n: NodeId, s: NodeState, term: nat)
    requires AcksOk(h, n, s) && s.currentTerm <= term
    requires Continues(h, h') && h'.reigns == h.reigns && h'.acks == h.acks
    ensures forall s': NodeState :: s'.log == s.log && s'.currentTerm == term ==> AcksOk(h', n, s')
  {
    forall t: nat, k: nat | Acked(h', n, t, k) && t in h'.reigns && k < |h'.reigns[t].built|
      ensures LeaderPrefix(h', t, k) <= s.log || Superseded(h', t, k, term + 1)
    {
      assert Acked(h, n, t, k);
      if Superseded(h, t, k, s.currentTerm + 1) {
        SupersededContinues(h, h', t, k, s.currentTerm + 1, term + 1);
      }
    }
  }

  lemma AppliedContinues(h: History, h': History, s: NodeState, s': NodeState)
    requires AppliedOk(h, s) && Continues(h, h')
    requires s'.log == s.log && s'.commitIndex == s.commitIndex && s'.store == s.store
    requires s'.lastApplied == s.lastApplied && s'.currentTerm >= s.currentTerm
    ensures AppliedOk(h', s')
  {
    CertifiedContinues(h, h', s.log[..s.commitIndex + 1], s.currentTerm, s'.currentTerm);
  }

  /** Adopting a higher term, whatever happens to the vote. */
  lemma RaiseTerm(peers: seq<NodeId>, h: History, n: NodeId, sv: Server, term: nat, vote: NodeId)
    requires ServerOk(peers, h, n, sv) && term > sv.node.currentTerm
    ensures ServerOk(peers, h, n,
              Server(sv.node.(currentTerm := term, role := Follower, votedFor := vote), Idle))
  {
    var s := sv.node;
    AcksSurvive(h, h, n, s, term);
    AppliedContinues(h, h, s, s.(currentTerm := term, role := Follower, votedFor := vote));
  }
}
