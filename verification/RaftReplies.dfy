/** What the replies on the wire say about the node that sent them, over whole runs, and what they do
    to the node that takes them. */
module RaftReplies {
  import opened RaftTypes
  import opened RaftSteps
  import opened RaftAnswers
  import opened RaftCluster
  import opened RaftRuns
  import opened RaftSafety

  // ---------- votes ----------

  ghost predicate VotedAt(run: seq<Cluster>, j: nat, p: NodeId, args: RequestVoteArgs,
                          vote: RequestVoteReply) {
    && Present(run, j, p) && Present(run, j + 1, p) && |NodeAt(run, j, p).log| > 0
    && VoteAnswer(NodeAt(run, j, p), args, NodeAt(run, j + 1, p), vote)
  }

  ghost predicate VotedBefore(run: seq<Cluster>, i: nat, p: NodeId, args: RequestVoteArgs,
                              vote: RequestVoteReply) {
    exists j :: 0 <= j < i && VotedAt(run, j, p, args, vote)
  }

  /** Every vote on the wire was granted or refused rightly: granted if and only if the request's
      term was not older than the voter's, the voter had not voted for another candidate in it,
      and the candidate's log was at least as recent as the voter's. */
  lemma {:induction false} VotesWereRight(cfg: Config, run: seq<Cluster>, i: nat, p: NodeId,
                                          args: RequestVoteArgs, vote: RequestVoteReply)
    requires Running(cfg, run) && i < |run| && VoteReply(p, args, vote) in run[i].net
    ensures VotedBefore(run, i, p, args, vote)
    decreases i
  {
    if i > 0 {
      if VoteReply(p, args, vote) in run[i - 1].net {
        VotesWereRight(cfg, run, i - 1, p, args, vote);
        var j :| 0 <= j < i - 1 && VotedAt(run, j, p, args, vote);
      } else {
        var m, action := StepOf(cfg, run, i - 1);
        assert m == p && action == ReceiveVoteRequest(args);
        VoteAnswered(NodeAt(run, i - 1, p), args);
        assert VotedAt(run, i - 1, p, args, vote);
      }
    }
  }

  // ---------- answers to AppendEntries ----------

  ghost predicate AnsweredAt(run: seq<Cluster>, j: nat, p: NodeId, args: AppendEntriesArgs,
                             ack: AppendEntriesReply) {
    && Present(run, j, p) && Present(run, j + 1, p)
    && AppendAnswer(NodeAt(run, j, p), args, NodeAt(run, j + 1, p), ack)
  }

  ghost predicate AnsweredBefore(run: seq<Cluster>, i: nat, p: NodeId, args: AppendEntriesArgs,
                                 ack: AppendEntriesReply) {
    exists j :: 0 <= j < i && AnsweredAt(run, j, p, args, ack)
  }

  /** Every AppendEntries reply on the wire was right: it succeeded if and only if the request's term
      was not older and the log check passed, a refusal carries the term its sender had before,
      and a refused request changed no log, a request of an older term nothing at all. */
  lemma {:induction false} AcksWereRight(cfg: Config, run: seq<Cluster>, i: nat, p: NodeId,
                                         args: AppendEntriesArgs, ack: AppendEntriesReply)
    requires Running(cfg, run) && i < |run| && AppendReply(p, args, ack) in run[i].net
    ensures AnsweredBefore(run, i, p, args, ack)
    decreases i
  {
    if i > 0 {
      if AppendReply(p, args, ack) in run[i - 1].net {
        AcksWereRight(cfg, run, i - 1, p, args, ack);
        var j :| 0 <= j < i - 1 && AnsweredAt(run, j, p, args, ack);
      } else {
        var m, action := StepOf(cfg, run, i - 1);
        assert m == p && action == ReceiveAppendRequest(args);
        AppendAnswered(NodeAt(run, i - 1, p), args);
        assert AnsweredAt(run, i - 1, p, args, ack);
      }
    }
  }

  // ---------- what a leader does with a reply ----------

  /** Step k is the one in which leader n takes what its current call has brought. */
  ghost predicate TakesAck(cfg: Config, run: seq<Cluster>, k: nat, n: NodeId,
                           ack: Option<AppendEntriesReply>) {
    k + 1 < |run| && StepBy(cfg, run[k], run[k + 1], n, TakeAck(ack))
  }

  lemma AckStep(cfg: Config, run: seq<Cluster>, k: nat, n: NodeId,
                ack: Option<AppendEntriesReply>)
    requires Running(cfg, run) && TakesAck(cfg, run, k, n, ack)
    ensures LeadsAt(run, k, n) && Present(run, k + 1, n) && n in cfg.peers
    ensures var sv := run[k].servers[n];
            && sv.activity.Heartbeating? && sv.activity.next < |cfg.peers[n]|
            && LocalOk(cfg.peers[n], sv.node)
            && run[k + 1] == Perform(cfg, run[k], n, TakeAck(ack))
            && AckOutcome(cfg.peers[n], sv, cfg.peers[n][sv.activity.next], ack,
                          run[k + 1].servers[n])
  {
    AccessesStayInRange(cfg, run, k, n, TakeAck(ack));
    SeatOf(cfg, n);
    AckTaken(cfg.peers[n], run[k].servers[n], ack);
  }

  /** The peer that answered n's current request in step k had handled it earlier, at position j. */
  ghost predicate Asked(run: seq<Cluster>, j: nat, k: nat, n: NodeId, p: NodeId,
                        ack: AppendEntriesReply) {
    exists args :: AnsweredAt(run, j, p, args, ack)
      && LeadsAt(run, k, n) && args.term == NodeAt(run, k, n).currentTerm && args.leaderId == n
  }

  /** A leader loses its office by a reply if and only if the peer was in a later term when it
      handled the leader's request. Then the leader is a follower of exactly that term, without
      a vote, and its round is over; otherwise it goes on leading its term. */
  lemma DeposedIff(cfg: Config, run: seq<Cluster>, k: nat, n: NodeId, ack: AppendEntriesReply)
    returns (j: nat, p: NodeId)
    requires Running(cfg, run) && TakesAck(cfg, run, k, n, Some(ack))
    ensures j < k && Asked(run, j, k, n, p, ack) && Present(run, j, p)
    ensures LeadsAt(run, k, n) && Present(run, k + 1, n)
    ensures var t, t', s' := NodeAt(run, k, n).currentTerm, NodeAt(run, j, p).currentTerm,
                             NodeAt(run, k + 1, n);
            && (LeadsAt(run, k + 1, n) <==> t' <= t)
            && s'.currentTerm == Higher(t, t')
            && (t' > t ==> s'.role == Follower && s'.votedFor == ""
                           && run[k + 1].servers[n].activity.Idle?
                           && s'.log == NodeAt(run, k, n).log)
  {
    AckStep(cfg, run, k, n, Some(ack));
    var sv := run[k].servers[n];
    p := cfg.peers[n][sv.activity.next];
    var args :| AppendReply(p, args, ack) in run[k].net
             && IsAppendArgs(cfg.sendsEntries, n, sv.node, p, args);
    AcksWereRight(cfg, run, k, p, args, ack);
    j :| 0 <= j < k && AnsweredAt(run, j, p, args, ack);
  }
}
