/** Who elects: a server becomes leader only by the votes of a majority whose logs were no more recent
    than its own when they voted. */
module RaftElectors {
  import opened RaftTypes
  import opened CommitRule
  import opened RaftSteps
  import opened RaftAnswers
  import opened RaftCluster
  import opened RaftRuns
  import opened RaftSafety
  import opened RaftReplies

  /** The log of the one state is at least as recent as that of the other. */
  ghost predicate AtLeastAsRecentAs(s: NodeState, f: NodeState) {
    && |s.log| > 0 && |f.log| > 0
    && AtLeastAsRecent(s.log[|s.log| - 1].term, |s.log| - 1, f.log)
  }

  ghost predicate HasGrant(net: set<Message>, p: NodeId, args: RequestVoteArgs) {
    exists vote :: VoteReply(p, args, vote) in net && vote.voteGranted
  }

  ghost function Granters(net: set<Message>, peers: seq<NodeId>, args: RequestVoteArgs): set<NodeId> {
    set p | p in peers && HasGrant(net, p, args)
  }

  /** The votes counted so far are at most the grants of the peers called. */
  ghost predicate Counted(cfg: Config, c: Cluster, n: NodeId)
    requires n in c.servers && n in cfg.peers
  {
    var sv, peers := c.servers[n], cfg.peers[n];
    sv.activity.Electing? && sv.activity.next <= |peers| && |sv.node.log| > 0 ==>
      sv.activity.votes
      <= 1 + |Granters(c.net, peers[..sv.activity.next], VoteArgs(n, sv.node))|
  }

  lemma GrantersGrow(net: set<Message>, net': set<Message>, peers: seq<NodeId>, next: nat,
                     args: RequestVoteArgs)
    requires Distinct(peers) && next < |peers| && net <= net'
    ensures |Granters(net, peers[..next], args)|
              + (if HasGrant(net', peers[next], args) then 1 else 0)
         <= |Granters(net', peers[..next + 1], args)|
  {
    var p := peers[next];
    assert peers[..next + 1] == peers[..next] + [p] && p !in peers[..next];
    var before, after := Granters(net, peers[..next], args), Granters(net', peers[..next + 1], args);
    forall q | q in before ensures HasGrant(net', q, args) {
      var vote :| VoteReply(q, args, vote) in net && vote.voteGranted;
      assert VoteReply(q, args, vote) in net';
    }
    SubsetSize(before + (if HasGrant(net', p, args) then {p} else {}), after);
  }

  lemma GrantersStay(net: set<Message>, net': set<Message>, peers: seq<NodeId>,
                     args: RequestVoteArgs)
    requires net <= net'
    ensures |Granters(net, peers, args)| <= |Granters(net', peers, args)|
  {
    forall q | q in Granters(net, peers, args) ensures HasGrant(net', q, args) {
      var vote :| VoteReply(q, args, vote) in net && vote.voteGranted;
      assert VoteReply(q, args, vote) in net';
    }
    SubsetSize(Granters(net, peers, args), Granters(net', peers, args));
  }

  lemma CountedStep(cfg: Config, c: Cluster, c': Cluster, m: NodeId, action: Action, n: NodeId)
    requires ValidConfig(cfg) && cfg.matchesReplies && n in c.servers && n in cfg.peers
    requires Enabled(cfg, c, m, action) && Safe(cfg, c, m, action)
    requires c' == Perform(cfg, c, m, action) && Counted(cfg, c, n)
    ensures n in c'.servers && Counted(cfg, c', n)
  {
    var sv, peers := c.servers[n], cfg.peers[n];
    if sv.activity.Electing? && sv.activity.next <= |peers| && |sv.node.log| > 0 {
      var args := VoteArgs(n, sv.node);
      if m == n && action.TakeVote? {
        GrantersGrow(c.net, c'.net, peers, sv.activity.next, args);
        if action.vote.Some? && action.vote.value.voteGranted {
          assert VoteReply(peers[sv.activity.next], args, action.vote.value) in c'.net;
        }
      } else {
        GrantersStay(c.net, c'.net, peers[..sv.activity.next], args);
      }
    }
  }

  lemma {:induction false} VotesWereCounted(cfg: Config, run: seq<Cluster>, i: nat, n: NodeId)
    requires Running(cfg, run) && Present(run, i, n) && n in cfg.peers
    ensures Counted(cfg, run[i], n)
    decreases i
  {
    if i > 0 {
      var m, action := StepOf(cfg, run, i - 1);
      VotesWereCounted(cfg, run, i - 1, n);
      CountedStep(cfg, run[i - 1], run[i], m, action, n);
    }
  }

  /** At position j server q was not ahead of the term and its log no more recent than the given one;
      its next step was to vote for n in that term. */
  ghost predicate Voted(run: seq<Cluster>, j: nat, q: NodeId, n: NodeId, s: NodeState) {
    && Present(run, j, q) && Present(run, j + 1, q)
    && NodeAt(run, j, q).currentTerm <= s.currentTerm
    && AtLeastAsRecentAs(s, NodeAt(run, j, q))
    && NodeAt(run, j + 1, q).currentTerm == s.currentTerm && NodeAt(run, j + 1, q).votedFor == n
  }

  ghost predicate VotedEarlier(run: seq<Cluster>, i: nat, q: NodeId, n: NodeId, s: NodeState) {
    exists j :: 0 <= j < i && Voted(run, j, q, n, s)
  }

  lemma ElectionEnds(cfg: Config, run: seq<Cluster>, i: nat, n: NodeId)
    requires Running(cfg, run) && Present(run, i, n) && !LeadsAt(run, i, n) && LeadsAt(run, i + 1, n)
    ensures n in cfg.peers && WellFormed(NodeAt(run, i, n).log)
    ensures var sv, s' := run[i].servers[n], NodeAt(run, i + 1, n);
            && sv.activity.Electing? && sv.activity.next == |cfg.peers[n]|
            && sv.activity.votes >= (|cfg.peers[n]| + 1) / 2 + 1
            && s'.log == sv.node.log && s'.currentTerm == sv.node.currentTerm
  {
    LogMatching(cfg, run, i, n, i, n);
    var m, action := StepOf(cfg, run, i);
    if m == n && !action.EndElection? {
      NobodyElseElects(cfg, run[i], n, action);
    }
  }

  lemma NobodyElseElects(cfg: Config, c: Cluster, n: NodeId, action: Action)
    requires Enabled(cfg, c, n, action) && Safe(cfg, c, n, action) && !action.EndElection?
    requires c.servers[n].node.role != Leader
    ensures Effect(cfg, c, n, action).0.node.role != Leader
  {
    match action
    case ReceiveAppendRequest(args) => AppendAnswered(c.servers[n].node, args);
    case ReceiveVoteRequest(args) => VoteAnswered(c.servers[n].node, args);
    case _ =>
  }

  /** A server that has just become leader has, with voters, a majority; and each of them has voted
      for it in its term when its log was at least as recent as theirs. */
  lemma ElectedByMajority(cfg: Config, run: seq<Cluster>, i: nat, n: NodeId)
    returns (voters: set<NodeId>)
    requires Running(cfg, run) && Present(run, i, n) && !LeadsAt(run, i, n) && LeadsAt(run, i + 1, n)
    ensures voters <= cfg.peers.Keys - {n} && 1 + |voters| >= |cfg.peers| / 2 + 1
    ensures forall q :: q in voters ==> VotedEarlier(run, i, q, n, NodeAt(run, i + 1, n))
  {
    ElectionEnds(cfg, run, i, n);
    var sv, peers := run[i].servers[n], cfg.peers[n];
    var args := VoteArgs(n, sv.node);
    VotesWereCounted(cfg, run, i, n);
    SeatOf(cfg, n);
    DistinctSize(peers);
    assert cfg.peers.Keys == SeqSet(peers) + {n} && peers[..|peers|] == peers;
    voters := Granters(run[i].net, peers, args);
    forall q | q in voters ensures VotedEarlier(run, i, q, n, NodeAt(run, i + 1, n)) {
      assert q in SeqSet(peers);
      GrantWasVoted(cfg, run, i, q, n, sv.node, NodeAt(run, i + 1, n));
    }
  }

  lemma GrantWasVoted(cfg: Config, run: seq<Cluster>, i: nat, q: NodeId, n: NodeId, s: NodeState,
                      s': NodeState)
    requires Running(cfg, run) && i < |run| && WellFormed(s.log)
    requires HasGrant(run[i].net, q, VoteArgs(n, s))
    requires s'.log == s.log && s'.currentTerm == s.currentTerm
    ensures VotedEarlier(run, i, q, n, s')
  {
    var args := VoteArgs(n, s);
    var vote :| VoteReply(q, args, vote) in run[i].net && vote.voteGranted;
    VotesWereRight(cfg, run, i, q, args, vote);
    var j :| 0 <= j < i && VotedAt(run, j, q, args, vote);
    assert Voted(run, j, q, n, s');
  }
}
