/** What a leader may conclude from its match indices, also about peers that have moved on to later
    terms since they answered. */
module RaftMatchIndex {
  import opened RaftTypes
  import opened LogMerge
  import opened RaftSteps
  import opened RaftCluster
  import opened RaftRedelivery
  import opened RaftRuns
  import opened RaftSafety

  // ---------- every successful reply was true when it was sent ----------

  /** At position j node p is in the term of the request and has all that it asked for. */
  ghost predicate HasRequest(run: seq<Cluster>, j: nat, p: NodeId, args: AppendEntriesArgs) {
    Present(run, j, p) && Satisfies(NodeAt(run, j, p), args)
  }

  ghost predicate Satisfies(s: NodeState, args: AppendEntriesArgs) {
    var prev, last := args.prevLogIndex, args.prevLogIndex + |args.entries|;
    && s.currentTerm == args.term && last < |s.log|
    && s.log[prev].term == args.prevLogTerm
    && s.log[prev + 1..last + 1] == args.entries
  }

  ghost predicate HadRequest(run: seq<Cluster>, i: nat, p: NodeId, args: AppendEntriesArgs) {
    exists j :: 0 <= j <= i && HasRequest(run, j, p, args)
  }

  lemma {:induction false} RepliesWereTrue(cfg: Config, run: seq<Cluster>, i: nat, p: NodeId,
                                           args: AppendEntriesArgs, ack: AppendEntriesReply)
    requires RunningFully(cfg, run) && i < |run|
    requires AppendReply(p, args, ack) in run[i].net && ack.success
    ensures HadRequest(run, i, p, args)
    decreases i
  {
    if i > 0 {
      if AppendReply(p, args, ack) in run[i - 1].net {
        RepliesWereTrue(cfg, run, i - 1, p, args, ack);
        var j :| 0 <= j <= i - 1 && HasRequest(run, j, p, args);
      } else {
        var m, action := StepOf(cfg, run, i - 1);
        assert m == p && action == ReceiveAppendRequest(args);
        FollowerCommitsOnlyChecked(cfg, run, i - 1, p, args);
        AcceptedSatisfies(NodeAt(run, i - 1, p), args);
        assert HasRequest(run, i, p, args);
      }
    }
  }

  lemma AcceptedSatisfies(s: NodeState, args: AppendEntriesArgs)
    requires WellFormed(s.log) && Numbered(args)
    requires var (s', reply) := HandleAppendEntries(s, args);
             && reply.success && args.prevLogIndex + |args.entries| < |s'.log|
             && s'.log[args.prevLogIndex + 1..args.prevLogIndex + 1 + |args.entries|]
                == args.entries
    ensures Satisfies(HandleAppendEntries(s, args).0, args)
  {
    AcceptedForm(s, args);
    MergeKeepsStart(s.log, args.prevLogIndex, args.entries);
    CommitTwice(Merged(s, args), args.leaderCommit);
  }

  // ---------- match indices only come from such replies ----------

  ghost predicate HoldsAt(run: seq<Cluster>, j: nat, p: NodeId, term: nat, prefix: Log) {
    Present(run, j, p) && NodeAt(run, j, p).currentTerm == term && prefix <= NodeAt(run, j, p).log
  }

  ghost predicate HeldBefore(run: seq<Cluster>, i: nat, p: NodeId, term: nat, prefix: Log) {
    exists j :: 0 <= j <= i && HoldsAt(run, j, p, term, prefix)
  }

  /** The peer did hold the leader's log through its match index, in the leader's term. */
  ghost predicate WasHeld(run: seq<Cluster>, i: nat, n: NodeId, p: NodeId)
    requires Present(run, i, n)
  {
    var s := NodeAt(run, i, n);
    p in s.matchIndex && s.matchIndex[p] > 0 ==>
      && s.matchIndex[p] < |s.log|
      && HeldBefore(run, i, p, s.currentTerm, s.log[..s.matchIndex[p] + 1])
  }

  lemma {:induction false} MatchIndexWasHeld(cfg: Config, run: seq<Cluster>, i: nat, n: NodeId,
                                             p: NodeId)
    requires RunningFully(cfg, run) && LeadsAt(run, i, n) && n in cfg.peers && p in cfg.peers[n]
    ensures WasHeld(run, i, n, p)
    decreases i, 1
  {
    if i > 0 {
      var m, action := StepOf(cfg, run, i - 1);
      if m == n && action.EndElection? {
        WinnerStartsAtZero(cfg, run, i, n, p);
      } else if m == n && action.TakeAck? {
        TakeAckHeld(cfg, run, i, n, p, action.ack);
      } else {
        if m == n {
          OtherActions(cfg, run[i - 1], n, action);
        }
        MatchIndexWasHeld(cfg, run, i - 1, n, p);
        StaysHeld(run, i, n, p);
      }
    }
  }

  /** Other actions keep a leadership going as it was. */
  lemma OtherActions(cfg: Config, c: Cluster, n: NodeId, action: Action)
    requires Enabled(cfg, c, n, action) && Safe(cfg, c, n, action)
    requires !action.EndElection? && !action.TakeAck?
    requires Effect(cfg, c, n, action).0.node.role == Leader
    ensures var s, s' := c.servers[n].node, Effect(cfg, c, n, action).0.node;
            && s.role == Leader && s'.currentTerm == s.currentTerm && s.log <= s'.log
            && s'.matchIndex == s.matchIndex
  {
    match action
    case ReceiveAppendRequest(args) => OnlyRejectionKeepsLeading(c.servers[n].node, args);
    case ReceiveVoteRequest(_) =>
    case _ =>
  }

  lemma OnlyRejectionKeepsLeading(s: NodeState, args: AppendEntriesArgs)
    requires WellFormed(s.log) && Numbered(args) && HandleAppendEntries(s, args).0.role == Leader
    ensures HandleAppendEntries(s, args).0 == s
  {
  }

  lemma WinnerStartsAtZero(cfg: Config, run: seq<Cluster>, i: nat, n: NodeId, p: NodeId)
    requires Running(cfg, run) && 0 < i < |run| && LeadsAt(run, i, n)
    requires n in cfg.peers && p in cfg.peers[n]
    requires Enabled(cfg, run[i - 1], n, EndElection) && Safe(cfg, run[i - 1], n, EndElection)
    requires run[i] == Perform(cfg, run[i - 1], n, EndElection)
    ensures WasHeld(run, i, n, p)
  {
    var hs := RunHistory(cfg, run);
    FactsAt(cfg, run, hs, i - 1, n);
    assert p in SeqSet(cfg.peers[n]);
  }

  lemma StaysHeld(run: seq<Cluster>, i: nat, n: NodeId, p: NodeId)
    requires i > 0 && Present(run, i - 1, n) && Present(run, i, n) && WasHeld(run, i - 1, n, p)
    requires var s, s' := NodeAt(run, i - 1, n), NodeAt(run, i, n);
             && s.currentTerm == s'.currentTerm && s.log <= s'.log
             && (p in s'.matchIndex ==> p in s.matchIndex && s'.matchIndex[p] == s.matchIndex[p])
    ensures WasHeld(run, i, n, p)
  {
    var s, s' := NodeAt(run, i - 1, n), NodeAt(run, i, n);
    if p in s'.matchIndex && s'.matchIndex[p] > 0 {
      var k := s.matchIndex[p];
      assert s'.log[..k + 1] == s.log[..k + 1];
      var j :| 0 <= j <= i - 1 && HoldsAt(run, j, p, s.currentTerm, s.log[..k + 1]);
      assert HoldsAt(run, j, p, s'.currentTerm, s'.log[..k + 1]);
    }
  }

  lemma TakeAckHeld(cfg: Config, run: seq<Cluster>, i: nat, n: NodeId, p: NodeId,
                    ack: Option<AppendEntriesReply>)
    requires RunningFully(cfg, run) && 0 < i < |run| && LeadsAt(run, i, n)
    requires n in cfg.peers && p in cfg.peers[n]
    requires Enabled(cfg, run[i - 1], n, TakeAck(ack)) && Safe(cfg, run[i - 1], n, TakeAck(ack))
    requires run[i] == Perform(cfg, run[i - 1], n, TakeAck(ack))
    ensures WasHeld(run, i, n, p)
    decreases i, 0
  {
    var sv := run[i - 1].servers[n];
    var peer := cfg.peers[n][sv.activity.next];
    AckEffect(cfg.peers[n], sv, ack, p);
    MatchIndexWasHeld(cfg, run, i - 1, n, p);
    if ack.Some? && ack.value.success && peer == p {
      var args :| AppendReply(p, args, ack.value) in run[i - 1].net
               && IsAppendArgs(cfg.sendsEntries, n, sv.node, p, args);
      AckedAll(cfg, run, i - 1, n, p, args, ack.value);
      var j :| 0 <= j <= i - 1 && HoldsAt(run, j, p, sv.node.currentTerm, sv.node.log);
      assert sv.node.log[..|sv.node.log| - 1 + 1] == sv.node.log;
    } else {
      StaysHeld(run, i, n, p);
    }
  }

  /** A successful reply to the leader's current request: the peer has had its whole log. */
  lemma AckedAll(cfg: Config, run: seq<Cluster>, i: nat, n: NodeId, p: NodeId,
                 args: AppendEntriesArgs, ack: AppendEntriesReply)
    requires RunningFully(cfg, run) && Present(run, i, n)
    requires AppendReply(p, args, ack) in run[i].net && ack.success
    requires IsAppendArgs(true, n, NodeAt(run, i, n), p, args)
    ensures HeldBefore(run, i, p, NodeAt(run, i, n).currentTerm, NodeAt(run, i, n).log)
  {
    var s := NodeAt(run, i, n);
    RepliesWereTrue(cfg, run, i, p, args, ack);
    var j :| 0 <= j <= i && HasRequest(run, j, p, args);
    LogMatching(cfg, run, i, n, j, p);
    RequestCoversLog(n, s, NodeAt(run, j, p), p, args);
    assert HoldsAt(run, j, p, s.currentTerm, s.log);
  }

  /** A reply changes at most the match index of the peer that sent it. */
  lemma AckEffect(peers: seq<NodeId>, sv: Server, ack: Option<AppendEntriesReply>, p: NodeId)
    requires LocalOk(peers, sv.node) && sv.node.role == Leader
    requires sv.activity.Heartbeating? && sv.activity.next < |peers|
    ensures var s, s' := sv.node, TakeAppendReply(peers, sv, ack).node;
            && s'.log == s.log && |s.log| > 0
            && (s'.role == Leader ==> s'.currentTerm == s.currentTerm)
            && if ack.Some? && ack.value.success && peers[sv.activity.next] == p
               then p in s'.matchIndex && s'.matchIndex[p] == |s.log| - 1
               else p in s'.matchIndex ==> p in s.matchIndex && s'.matchIndex[p] == s.matchIndex[p]
  {
    assert peers[sv.activity.next] in SeqSet(peers);
  }

  /** A log that matches the leader's and has all that the request asked for has its whole log. */
  lemma RequestCoversLog(n: NodeId, s: NodeState, f: NodeState, p: NodeId, args: AppendEntriesArgs)
    requires IsAppendArgs(true, n, s, p, args) && Satisfies(f, args) && Matching(s.log, f.log)
    ensures s.log <= f.log
  {
    var prev := args.prevLogIndex;
    assert MatchAt(s.log, f.log, prev);
    forall k | 0 <= k < |s.log| ensures s.log[k] == f.log[k] {
      if k <= prev {
        assert s.log[k] == s.log[..prev + 1][k] == f.log[..prev + 1][k];
      } else {
        assert s.log[k] == args.entries[k - prev - 1]
            == f.log[prev + 1..prev + |args.entries| + 1][k - prev - 1];
      }
    }
  }

  // ---------- soundness ----------

  /** matchIndex is sound: each peer did hold the leader's log through it in the leader's term,
      and keeps it as long as its term is the leader's, also in the future; nextIndex always
      points into or just past the log. */
  lemma MatchIndexSound(cfg: Config, run: seq<Cluster>, i: nat, n: NodeId, p: NodeId)
    requires RunningFully(cfg, run) && LeadsAt(run, i, n) && n in cfg.peers && p in cfg.peers[n]
    ensures var s := NodeAt(run, i, n);
            && p in s.nextIndex && 1 <= s.nextIndex[p] <= |s.log|
            && p in s.matchIndex && s.matchIndex[p] < |s.log|
            && (s.matchIndex[p] > 0 ==>
                  HeldBefore(run, i, p, s.currentTerm, s.log[..s.matchIndex[p] + 1]))
            && forall j :: i <= j && Present(run, j, p)
                           && NodeAt(run, j, p).currentTerm == s.currentTerm ==>
                 HoldsAt(run, j, p, s.currentTerm, s.log[..s.matchIndex[p] + 1])
  {
    MatchIndexWasHeld(cfg, run, i, n, p);
    IndicesInRange(cfg, run, i, n, p);
    forall j | i <= j && Present(run, j, p)
               && NodeAt(run, j, p).currentTerm == NodeAt(run, i, n).currentTerm
      ensures HoldsAt(run, j, p, NodeAt(run, i, n).currentTerm,
                      NodeAt(run, i, n).log[..NodeAt(run, i, n).matchIndex[p] + 1])
    {
      MatchIndexKept(cfg, run, i, n, j, p);
    }
  }

  lemma IndicesInRange(cfg: Config, run: seq<Cluster>, i: nat, n: NodeId, p: NodeId)
    requires Running(cfg, run) && LeadsAt(run, i, n) && n in cfg.peers && p in cfg.peers[n]
    ensures var s := NodeAt(run, i, n);
            && p in s.nextIndex && 1 <= s.nextIndex[p] <= |s.log|
            && p in s.matchIndex && s.matchIndex[p] < |s.log|
  {
    var hs := RunHistory(cfg, run);
    FactsAt(cfg, run, hs, i, n);
  }
}
