/** The invariant through replication: submitting, following a leader, and committing. */
module RaftReplication {
  import opened RaftTypes
  import opened LogMerge
  import opened CommitRule
  import opened RaftSteps
  import opened RaftCluster
  import opened RaftHistory
  import opened RaftInvariant
  import opened RaftPreservation

  lemma RootedPrefix(h: History, log: Log, n: nat)
    requires Rooted(h, log) && 1 <= n <= |log|
    ensures Rooted(h, log[..n])
  {
    forall i | 1 <= i < n ensures FromReign(h, log[..n], i) {
      assert FromReign(h, log, i);
      assert log[..n][..i + 1] == log[..i + 1];
    }
  }

  // ---------- submitting an entry ----------

  ghost function SubmitHistory(h: History, n: NodeId, t: nat, entry: LogEntry): History
    requires t in h.reigns
  {
    var r := h.reigns[t];
    h.(reigns := h.reigns[t := r.(built := r.built + [entry])],
       acks := h.acks[Ballot(n, t) := |r.built|])
  }

  lemma SubmitContinues(members: set<NodeId>, h: History, n: NodeId, t: nat, entry: LogEntry)
    requires t in h.reigns && h.reigns[t].leader == n
    requires forall b {:trigger AckOk(members, h, b)} :: b in h.acks ==> AckOk(members, h, b)
    ensures ContinuesBy(h, SubmitHistory(h, n, t, entry), n)
  {
    assert Ballot(n, t) in h.acks ==> AckOk(members, h, Ballot(n, t));
  }

  lemma SubmitReignOk(members: set<NodeId>, h: History, n: NodeId, t: nat, entry: LogEntry)
    requires t in h.reigns && ReignOk(members, h, t)
    requires entry.term == t && entry.index == |h.reigns[t].built|
    requires Continues(h, SubmitHistory(h, n, t, entry))
    ensures ReignOk(members, SubmitHistory(h, n, t, entry), t)
  {
    var h' := SubmitHistory(h, n, t, entry);
    var built := h.reigns[t].built;
    var built' := built + [entry];
    RootedContinues(h, h', built);
    forall i | 1 <= i < |built'| ensures FromReign(h', built', i) {
      if i < |built| {
        assert FromReign(h', built, i);
        assert built'[..i + 1] == built[..i + 1];
      }
    }
  }

  lemma SubmitHistoryOk(members: set<NodeId>, h: History, n: NodeId, s: NodeState, entry: LogEntry)
    requires n in members && HistoryOk(members, h) && VotesOk(h, n, s)
    requires s.currentTerm in h.reigns && h.reigns[s.currentTerm].leader == n
    requires entry.term == s.currentTerm && entry.index == |h.reigns[s.currentTerm].built|
    ensures ContinuesBy(h, SubmitHistory(h, n, s.currentTerm, entry), n)
    ensures HistoryOk(members, SubmitHistory(h, n, s.currentTerm, entry))
    ensures Rooted(SubmitHistory(h, n, s.currentTerm, entry),
                   h.reigns[s.currentTerm].built + [entry])
  {
    SubmitContinues(members, h, n, s.currentTerm, entry);
    SubmitReignOk(members, h, n, s.currentTerm, entry);
    HistoryContinues(members, h, SubmitHistory(h, n, s.currentTerm, entry));
  }

  lemma SubmitAcksOk(members: set<NodeId>, h: History, n: NodeId, s: NodeState, entry: LogEntry,
                     s': NodeState)
    requires s.currentTerm in h.reigns && h.reigns[s.currentTerm].built == s.log
    requires AcksOk(h, n, s) && Continues(h, SubmitHistory(h, n, s.currentTerm, entry))
    requires forall b {:trigger AckOk(members, h, b)} :: b in h.acks ==> AckOk(members, h, b)
    requires s'.log == s.log + [entry] && s'.currentTerm == s.currentTerm
    ensures AcksOk(SubmitHistory(h, n, s.currentTerm, entry), n, s')
  {
    var t := s.currentTerm;
    var h' := SubmitHistory(h, n, t, entry);
    forall u: nat, k: nat | Acked(h', n, u, k) && u in h'.reigns && k < |h'.reigns[u].built|
      ensures LeaderPrefix(h', u, k) <= s'.log || Superseded(h', u, k, t + 1)
    {
      if u != t {
        assert Acked(h, n, u, k) && AckOk(members, h, Ballot(n, u));
        PrefixContinues(h, h', u, k);
        if Superseded(h, u, k, t + 1) {
          SupersededContinues(h, h', u, k, t + 1, t + 1);
        } else {
          PrefixTransitive(LeaderPrefix(h, u, k), s.log, s'.log);
        }
      }
    }
  }

  lemma SubmitServer(members: set<NodeId>, peers: seq<NodeId>, h: History, n: NodeId, sv: Server,
                     entry: LogEntry)
    requires ServerOk(peers, h, n, sv) && sv.node.role == Leader
    requires forall b {:trigger AckOk(members, h, b)} :: b in h.acks ==> AckOk(members, h, b)
    requires entry.term == sv.node.currentTerm && entry.index == |sv.node.log|
    requires ContinuesBy(h, SubmitHistory(h, n, sv.node.currentTerm, entry), n)
    requires Rooted(SubmitHistory(h, n, sv.node.currentTerm, entry), sv.node.log + [entry])
    requires sv.activity.Idle?
    ensures ServerOk(peers, SubmitHistory(h, n, sv.node.currentTerm, entry), n,
              sv.(node := sv.node.(log := sv.node.log + [entry])))
  {
    var s := sv.node;
    var h' := SubmitHistory(h, n, s.currentTerm, entry);
    var s' := s.(log := s.log + [entry]);
    SubmitAcksOk(members, h, n, s, entry, s');
    assert s'.log[..s'.commitIndex + 1] == s.log[..s.commitIndex + 1];
    assert s'.log[1..s'.commitIndex + 1] == s.log[1..s.commitIndex + 1];
    CertifiedContinues(h, h', s.log[..s.commitIndex + 1], s.currentTerm, s.currentTerm);
  }

  /** Submitting: the new history and the leader's part of the invariant. */
  lemma SubmitAt(members: set<NodeId>, peers: seq<NodeId>, h: History, n: NodeId, sv: Server,
                 entry: LogEntry)
    requires n in members && HistoryOk(members, h) && ServerOk(peers, h, n, sv)
    requires sv.node.role == Leader && sv.activity.Idle?
    requires entry.term == sv.node.currentTerm && entry.index == |sv.node.log|
    ensures sv.node.currentTerm in h.reigns
    ensures var h' := SubmitHistory(h, n, sv.node.currentTerm, entry);
            && ContinuesBy(h, h', n) && HistoryOk(members, h')
            && ServerOk(peers, h', n, sv.(node := sv.node.(log := sv.node.log + [entry])))
  {
    SubmitHistoryOk(members, h, n, sv.node, entry);
    SubmitServer(members, peers, h, n, sv, entry);
  }

  // ---------- following a leader ----------

  ghost function FollowHistory(h: History, n: NodeId, t: nat, last: nat): History {
    var b := Ballot(n, t);
    var upTo := if b in h.acks && h.acks[b] > last then h.acks[b] else last;
    h.(acks := h.acks[b := upTo])
  }

  lemma FollowContinues(h: History, n: NodeId, s: NodeState, t: nat, last: nat)
    requires VotesOk(h, n, s) && s.currentTerm <= t
    ensures ContinuesBy(h, FollowHistory(h, n, t, last), n)
    ensures AcksFrozen(h, FollowHistory(h, n, t, last))
  {
  }

  lemma FollowHistoryOk(members: set<NodeId>, h: History, n: NodeId, s: NodeState, t: nat,
                        last: nat)
    requires n in members && HistoryOk(members, h) && VotesOk(h, n, s)
    requires s.currentTerm <= t && t in h.reigns && last < |h.reigns[t].built|
    ensures ContinuesBy(h, FollowHistory(h, n, t, last), n)
    ensures HistoryOk(members, FollowHistory(h, n, t, last))
  {
    FollowContinues(h, n, s, t, last);
    assert Ballot(n, t) in h.acks ==> AckOk(members, h, Ballot(n, t));
    OnlyAcksChanged(members, h, FollowHistory(h, n, t, last), Ballot(n, t));
  }

  /** Becoming a follower in the term of another node's leadership. */
  lemma FollowTerm(peers: seq<NodeId>, h: History, n: NodeId, sv: Server, t: nat)
    requires ServerOk(peers, h, n, sv) && t >= sv.node.currentTerm
    requires t in h.reigns && h.reigns[t].leader != n
    ensures ServerOk(peers, h, n, Server(sv.node.(role := Follower, currentTerm := t), Idle))
  {
    var s := sv.node;
    var s' := s.(role := Follower, currentTerm := t);
    if t > s.currentTerm {
      RaiseTerm(peers, h, n, sv, t, s.votedFor);
    } else {
      AppliedContinues(h, h, s, s');
      AcksSurvive(h, h, n, s, t);
    }
  }

  /** The request slices the leader's log, so the merge follows it. */
  lemma RequestIsSlice(h: History, n: NodeId, log: Log, args: AppendEntriesArgs)
    requires Rooted(h, log) && AppendArgsOk(h, n, args) && Rooted(h, h.reigns[args.term].built)
    requires args.prevLogIndex < |log| && log[args.prevLogIndex].term == args.prevLogTerm
    ensures SliceOf(log, h.reigns[args.term].built, args.prevLogIndex, args.entries)
    ensures Numbered(args)
  {
    RootedLogsMatch(h, log, h.reigns[args.term].built);
    RequestNumbered(h, n, args);
  }

  lemma RequestNumbered(h: History, n: NodeId, args: AppendEntriesArgs)
    requires AppendArgsOk(h, n, args) && WellFormed(h.reigns[args.term].built)
    ensures Numbered(args)
  {
    var built := h.reigns[args.term].built;
    forall i | 0 <= i < |args.entries|
      ensures args.entries[i].index == args.prevLogIndex + 1 + i
    {
      assert args.entries[i] == built[args.prevLogIndex + 1 + i];
    }
  }

  lemma MergedLogRooted(h: History, log: Log, leader: Log, prev: nat, entries: seq<LogEntry>)
    requires Rooted(h, log) && Rooted(h, leader) && SliceOf(log, leader, prev, entries)
    ensures Rooted(h, Merge(log, prev, entries))
  {
    MergeFollowsLeader(log, leader, prev, entries);
    RootedPrefix(h, leader, prev + 1 + |entries|);
  }

  lemma MergedTermsBelow(members: set<NodeId>, h: History, n: NodeId, log: Log,
                         args: AppendEntriesArgs, bound: nat)
    requires HistoryOk(members, h) && AppendArgsOk(h, n, args)
    requires SliceOf(log, h.reigns[args.term].built, args.prevLogIndex, args.entries)
    requires TermsBelow(log, bound) && bound <= args.term + 1
    ensures TermsBelow(Merge(log, args.prevLogIndex, args.entries), args.term + 1)
  {
    var built := h.reigns[args.term].built;
    MergeFollowsLeader(log, built, args.prevLogIndex, args.entries);
    forall i | 0 <= i < |built| ensures built[i].term < args.term + 1 {
      ReignTerms(members, h, args.term, i);
    }
  }

  /** Following a leader loses nothing that was acknowledged, except to that leader. */
  lemma FollowAcksOk(members: set<NodeId>, h: History, n: NodeId, s: NodeState,
                     args: AppendEntriesArgs, s': NodeState)
    requires HistoryOk(members, h) && AcksOk(h, n, s) && AppendArgsOk(h, n, args)
    requires SliceOf(s.log, h.reigns[args.term].built, args.prevLogIndex, args.entries)
    requires s.currentTerm <= args.term == s'.currentTerm
    requires s'.log == Merge(s.log, args.prevLogIndex, args.entries)
    ensures AcksOk(FollowHistory(h, n, args.term, args.prevLogIndex + |args.entries|), n, s')
  {
    var h' := FollowHistory(h, n, args.term, args.prevLogIndex + |args.entries|);
    forall u: nat, k: nat | Acked(h', n, u, k) && u in h'.reigns && k < |h'.reigns[u].built|
      ensures LeaderPrefix(h', u, k) <= s'.log || Superseded(h', u, k, s'.currentTerm + 1)
    {
      FollowedOrAcked(members, h, n, s, args, u, k);
      assert LeaderPrefix(h', u, k) == LeaderPrefix(h, u, k);
      assert Superseded(h, u, k, args.term + 1) ==> Superseded(h', u, k, args.term + 1);
    }
  }

  lemma FollowedOrAcked(members: set<NodeId>, h: History, n: NodeId, s: NodeState,
                        args: AppendEntriesArgs, u: nat, k: nat)
    requires HistoryOk(members, h) && AcksOk(h, n, s) && AppendArgsOk(h, n, args)
    requires SliceOf(s.log, h.reigns[args.term].built, args.prevLogIndex, args.entries)
    requires s.currentTerm <= args.term && u in h.reigns && k < |h.reigns[u].built|
    requires Acked(FollowHistory(h, n, args.term, args.prevLogIndex + |args.entries|), n, u, k)
    ensures LeaderPrefix(h, u, k) <= Merge(s.log, args.prevLogIndex, args.entries)
         || Superseded(h, u, k, args.term + 1)
  {
    var last := args.prevLogIndex + |args.entries|;
    if u == args.term && k <= last {
      var built := h.reigns[u].built;
      MergeFollowsLeader(s.log, built, args.prevLogIndex, args.entries);
      PrefixTransitive(LeaderPrefix(h, u, k), built[..last + 1],
                       Merge(s.log, args.prevLogIndex, args.entries));
    } else {
      assert Acked(h, n, u, k);
      AckedSurvivesMerge(members, h, n, s, args, u, k);
    }
  }

  lemma AckedSurvivesMerge(members: set<NodeId>, h: History, n: NodeId, s: NodeState,
                           args: AppendEntriesArgs, u: nat, k: nat)
    requires HistoryOk(members, h) && AcksOk(h, n, s) && AppendArgsOk(h, n, args)
    requires SliceOf(s.log, h.reigns[args.term].built, args.prevLogIndex, args.entries)
    requires s.currentTerm <= args.term
    requires Acked(h, n, u, k)
    ensures u in h.reigns && k < |h.reigns[u].built|
    ensures LeaderPrefix(h, u, k) <= Merge(s.log, args.prevLogIndex, args.entries)
         || Superseded(h, u, k, args.term + 1)
  {
    var T := args.term;
    assert AckOk(members, h, Ballot(n, u));
    var P := LeaderPrefix(h, u, k);
    if Superseded(h, u, k, s.currentTerm + 1) {
      SupersededContinues(h, h, u, k, s.currentTerm + 1, T + 1);
    } else if u == T || P <= h.reigns[T].elected {
      if u != T {
        assert ReignOk(members, h, T);
        PrefixTransitive(P, h.reigns[T].elected, h.reigns[T].built);
      }
      MergeKeepsCommonPrefix(s.log, h.reigns[T].built, args.prevLogIndex, args.entries, P);
    } else {
      assert u < T < T + 1 && T in h.reigns;
    }
  }

  /** No request makes a node drop an entry at or below its commit index. */
  lemma FollowKeepsCommitted(members: set<NodeId>, h: History, n: NodeId, s: NodeState,
                             args: AppendEntriesArgs)
    requires HistoryOk(members, h) && WellFormed(s.log) && AppliedOk(h, s)
    requires AppendArgsOk(h, n, args) && s.currentTerm <= args.term
    requires SliceOf(s.log, h.reigns[args.term].built, args.prevLogIndex, args.entries)
    ensures s.log[..s.commitIndex + 1] <= Merge(s.log, args.prevLogIndex, args.entries)
  {
    var committed := s.log[..s.commitIndex + 1];
    if h.carries {
      CertifiedInLaterLeader(members, h, committed, s.currentTerm, args.term);
      MergeKeepsCommonPrefix(s.log, h.reigns[args.term].built, args.prevLogIndex, args.entries,
                             committed);
    } else {
      MergeUnchanged(s.log, args.prevLogIndex, args.entries);
    }
  }

  lemma SlicesOfPrefix(a: Log, b: Log, n: nat)
    requires 1 <= n <= |a| && a[..n] <= b
    ensures b[..n] == a[..n] && b[1..n] == a[1..n]
  {
    assert b[1..n] == b[..n][1..] == a[..n][1..];
  }

  /** The follower's commit rule: the bound by its own last index never bites, what it commits is
      exactly the leader's log through leaderCommit, and a leader of that term or an earlier one
      has committed it. */
  lemma FollowerCommitRule(h: History, n: NodeId, s: NodeState, args: AppendEntriesArgs)
    requires h.carries && WellFormed(s.log) && AppendArgsOk(h, n, args)
    requires h.reigns[args.term].built[..args.prevLogIndex + |args.entries| + 1] <= s.log
    ensures Min(args.leaderCommit, LastIndex(s.log)) == args.leaderCommit < |s.log|
    ensures s.log[..args.leaderCommit + 1]
         == h.reigns[args.term].built[..args.leaderCommit + 1]
    ensures Certified(h, s.log[..args.leaderCommit + 1], args.term)
  {
    var last := args.prevLogIndex + |args.entries|;
    var prefix := h.reigns[args.term].built[..last + 1];
    assert s.log[..args.leaderCommit + 1] == prefix[..args.leaderCommit + 1];
  }

  lemma CommitAppliedOk(h: History, n: NodeId, s: NodeState, args: AppendEntriesArgs)
    requires WellFormed(s.log) && AppliedOk(h, s) && AppendArgsOk(h, n, args)
    requires s.currentTerm == args.term
    requires h.reigns[args.term].built[..args.prevLogIndex + |args.entries| + 1] <= s.log
    ensures AppliedOk(h, Commit(s, args.leaderCommit))
  {
    if args.leaderCommit > s.commitIndex {
      var k := Min(args.leaderCommit, LastIndex(s.log));
      if h.carries {
        FollowerCommitRule(h, n, s, args);
      }
      if k > s.commitIndex {
        ApplyFolds(s, k);
      }
    }
  }

  lemma ApplyFolds(s: NodeState, k: nat)
    requires s.lastApplied == s.commitIndex < k < |s.log|
    requires s.store == FoldPuts(map[], s.log[1..s.commitIndex + 1])
    ensures var s' := Apply(s.(commitIndex := k));
            && s'.lastApplied == s'.commitIndex == k
            && s'.store == FoldPuts(map[], s.log[1..k + 1])
  {
    FoldPutsConcat(map[], s.log[1..s.commitIndex + 1], s.log[s.commitIndex + 1..k + 1]);
    assert s.log[1..k + 1] == s.log[1..s.commitIndex + 1] + s.log[s.commitIndex + 1..k + 1];
  }

  lemma AppliedOkKept(h: History, s: NodeState, log: Log)
    requires AppliedOk(h, s) && s.log[..s.commitIndex + 1] <= log
    ensures AppliedOk(h, s.(log := log))
  {
    SlicesOfPrefix(s.log, log, s.commitIndex + 1);
  }

  lemma FollowApplied(members: set<NodeId>, h: History, n: NodeId, s: NodeState,
                      args: AppendEntriesArgs)
    requires HistoryOk(members, h) && WellFormed(s.log) && AppliedOk(h, s)
    requires AppendArgsOk(h, n, args) && s.currentTerm == args.term
    requires SliceOf(s.log, h.reigns[args.term].built, args.prevLogIndex, args.entries)
    requires WellFormed(Merge(s.log, args.prevLogIndex, args.entries))
    ensures AppliedOk(h, Commit(s.(log := Merge(s.log, args.prevLogIndex, args.entries)),
                                args.leaderCommit))
  {
    var merged := Merge(s.log, args.prevLogIndex, args.entries);
    MergeFollowsLeader(s.log, h.reigns[args.term].built, args.prevLogIndex, args.entries);
    FollowKeepsCommitted(members, h, n, s, args);
    AppliedOkKept(h, s, merged);
    CommitAppliedOk(h, n, s.(log := merged), args);
  }

  lemma FollowFacts(members: set<NodeId>, h: History, n: NodeId, s: NodeState,
                    args: AppendEntriesArgs, s': NodeState)
    requires HistoryOk(members, h) && Rooted(h, s.log) && TermsBelow(s.log, s.currentTerm + 1)
    requires AcksOk(h, n, s) && AppliedOk(h, s)
    requires AppendArgsOk(h, n, args) && s.currentTerm == args.term
    requires SliceOf(s.log, h.reigns[args.term].built, args.prevLogIndex, args.entries)
    requires WellFormed(Merge(s.log, args.prevLogIndex, args.entries))
    requires s' == Commit(s.(log := Merge(s.log, args.prevLogIndex, args.entries)),
                          args.leaderCommit)
    ensures Rooted(h, s'.log) && TermsBelow(s'.log, s'.currentTerm + 1) && AppliedOk(h, s')
    ensures AcksOk(FollowHistory(h, n, args.term, args.prevLogIndex + |args.entries|), n, s')
  {
    assert ReignOk(members, h, args.term);
    MergedLogRooted(h, s.log, h.reigns[args.term].built, args.prevLogIndex, args.entries);
    MergedTermsBelow(members, h, n, s.log, args, s.currentTerm + 1);
    FollowApplied(members, h, n, s, args);
    FollowAcksOk(members, h, n, s, args, s');
  }

  lemma FollowServer(members: set<NodeId>, peers: seq<NodeId>, h: History, n: NodeId, sv: Server,
                     args: AppendEntriesArgs)
    requires HistoryOk(members, h) && ServerOk(peers, h, n, sv) && sv.activity.Idle?
    requires sv.node.role == Follower && sv.node.currentTerm == args.term
    requires AppendArgsOk(h, n, args)
    requires SliceOf(sv.node.log, h.reigns[args.term].built, args.prevLogIndex, args.entries)
    requires Numbered(args)
    ensures WellFormed(Merge(sv.node.log, args.prevLogIndex, args.entries))
    ensures ServerOk(peers, FollowHistory(h, n, args.term, args.prevLogIndex + |args.entries|), n,
              sv.(node := Commit(sv.node.(log := Merge(sv.node.log, args.prevLogIndex,
                                                       args.entries)), args.leaderCommit)))
  {
    var s := sv.node;
    MergeWellFormed(s.log, args.prevLogIndex, args.entries);
    var s' := Commit(s.(log := Merge(s.log, args.prevLogIndex, args.entries)), args.leaderCommit);
    FollowFacts(members, h, n, s, args, s');
    FollowRest(peers, h, FollowHistory(h, n, args.term, args.prevLogIndex + |args.entries|), n, sv,
               s');
  }

  lemma FollowRest(peers: seq<NodeId>, h: History, h': History, n: NodeId, sv: Server,
                   s': NodeState)
    requires ServerOk(peers, h, n, sv) && sv.activity.Idle? && sv.node.role == Follower
    requires h' == h.(acks := h'.acks)
    requires s' == sv.node.(log := s'.log, commitIndex := s'.commitIndex,
                            lastApplied := s'.lastApplied, store := s'.store)
    requires Rooted(h, s'.log) && TermsBelow(s'.log, s'.currentTerm + 1) && AppliedOk(h, s')
    requires AcksOk(h', n, s')
    ensures ServerOk(peers, h', n, sv.(node := s'))
  {
    assert Rooted(h', s'.log) by {
      forall i | 1 <= i < |s'.log| ensures FromReign(h', s'.log, i) {
        assert FromReign(h, s'.log, i);
      }
    }
    if h.carries && |s'.log[..s'.commitIndex + 1]| > 1 {
      var c :| c in h.commits && CertifiedBy(h, s'.log[..s'.commitIndex + 1], s'.currentTerm, c);
      assert CertifiedBy(h', s'.log[..s'.commitIndex + 1], s'.currentTerm, c);
    }
  }

  lemma RequestSlices(members: set<NodeId>, h: History, n: NodeId, log: Log,
                      args: AppendEntriesArgs)
    requires HistoryOk(members, h) && Rooted(h, log) && AppendArgsOk(h, n, args)
    requires args.prevLogIndex < |log| && log[args.prevLogIndex].term == args.prevLogTerm
    ensures SliceOf(log, h.reigns[args.term].built, args.prevLogIndex, args.entries)
  {
    assert ReignOk(members, h, args.term);
    RequestIsSlice(h, n, log, args);
  }

  /** Accepting a request keeps the follower's part of the invariant. */
  lemma Accept(members: set<NodeId>, peers: seq<NodeId>, h: History, n: NodeId, sv: Server,
               args: AppendEntriesArgs)
    requires n in members && HistoryOk(members, h) && ServerOk(peers, h, n, sv)
    requires sv.activity.Idle? && sv.node.role == Follower && sv.node.currentTerm == args.term
    requires AppendArgsOk(h, n, args) && Numbered(args)
    requires args.prevLogIndex < |sv.node.log|
    requires sv.node.log[args.prevLogIndex].term == args.prevLogTerm
    ensures WellFormed(Merge(sv.node.log, args.prevLogIndex, args.entries))
    ensures var h' := FollowHistory(h, n, args.term, args.prevLogIndex + |args.entries|);
            var merged := sv.node.(log := Merge(sv.node.log, args.prevLogIndex, args.entries));
            ServerOk(peers, h', n, sv.(node := Commit(merged, args.leaderCommit)))
  {
    AcceptedRequestSlices(members, peers, h, n, sv, args);
    FollowServer(members, peers, h, n, sv, args);
  }

  lemma AcceptedRequestSlices(members: set<NodeId>, peers: seq<NodeId>, h: History, n: NodeId,
                              sv: Server, args: AppendEntriesArgs)
    requires HistoryOk(members, h) && ServerOk(peers, h, n, sv) && AppendArgsOk(h, n, args)
    requires args.prevLogIndex < |sv.node.log|
    requires sv.node.log[args.prevLogIndex].term == args.prevLogTerm
    ensures SliceOf(sv.node.log, h.reigns[args.term].built, args.prevLogIndex, args.entries)
  {
    RequestSlices(members, h, n, sv.node.log, args);
  }

  // ---------- counting acknowledgements and committing ----------

  ghost function CommitHistory(h: History, t: nat, k: nat): History {
    if !h.carries then h else h.(commits := h.commits + {CommitPoint(t, k)})
  }

  /** The chosen index has really been acknowledged by a commit quorum. */
  lemma CandidateIsHeld(members: set<NodeId>, peers: seq<NodeId>, h: History, n: NodeId,
                        s: NodeState, k: nat)
    requires h.carries && Seat(members, n, peers)
    requires LeaderOk(h, n, peers, s) && LeaderIndicesOk(peers, s)
    requires k == CommitCandidate(ReplicaIndices(peers, s)) && k > 0
    ensures |Holders(members, h, s.currentTerm, k)| >= CommitQuorum(|members|)
  {
    var t := s.currentTerm;
    var r := ReplicaIndices(peers, s);
    var reached := ReachedBy(SeqSet(peers), s.matchIndex, k);
    ReplicaIndicesInRange(peers, s);
    CommitCandidateIsGreatest(r, k);
    MatchValuesCount(peers, s.matchIndex, k);
    assert r[1..] == MatchValues(peers, s.matchIndex);
    DistinctSize(peers);
    assert members == {n} + SeqSet(peers);
    forall q | q in {n} + reached ensures q in Holders(members, h, t, k) {
    }
    SubsetSize({n} + reached, Holders(members, h, t, k));
  }

  lemma CommitIsOk(members: set<NodeId>, h: History, t: nat, k: nat)
    requires h.carries && members != {} && OwnEntry(h, t, k)
    requires |Holders(members, h, t, k)| >= CommitQuorum(|members|)
    ensures CommitOk(members, CommitHistory(h, t, k), CommitPoint(t, k))
  {
    assert Holders(members, CommitHistory(h, t, k), t, k) == Holders(members, h, t, k);
  }

  lemma CommitContinues(h: History, n: NodeId, t: nat, k: nat)
    ensures ContinuesBy(h, CommitHistory(h, t, k), n)
  {
  }

  lemma CommitHistoryOk(members: set<NodeId>, h: History, n: NodeId, t: nat, k: nat)
    requires HistoryOk(members, h) && members != {} && OwnEntry(h, t, k)
    requires h.carries ==> |Holders(members, h, t, k)| >= CommitQuorum(|members|)
    ensures ContinuesBy(h, CommitHistory(h, t, k), n)
    ensures HistoryOk(members, CommitHistory(h, t, k))
  {
    CommitContinues(h, n, t, k);
    if h.carries {
      CommitIsOk(members, h, t, k);
      OnlyCommitAdded(members, h, CommitPoint(t, k));
    }
  }

  lemma CommitCertified(h: History, s: NodeState, k: nat)
    requires AppliedOk(h, s) && s.commitIndex < k < |s.log|
    requires s.currentTerm in h.reigns && h.reigns[s.currentTerm].built == s.log
    ensures AppliedOk(CommitHistory(h, s.currentTerm, k), Apply(s.(commitIndex := k)))
  {
    ApplyFolds(s, k);
    if h.carries {
      assert CertifiedBy(CommitHistory(h, s.currentTerm, k), s.log[..k + 1], s.currentTerm,
                         CommitPoint(s.currentTerm, k));
    }
  }

  lemma CommitServer(peers: seq<NodeId>, h: History, n: NodeId, sv: Server, k: nat)
    requires ServerOk(peers, h, n, sv) && sv.node.role == Leader && !sv.activity.Electing?
    requires sv.node.commitIndex < k < |sv.node.log|
    ensures ServerOk(peers, CommitHistory(h, sv.node.currentTerm, k), n,
              sv.(node := Apply(sv.node.(commitIndex := k))))
  {
    var s := sv.node;
    var h' := CommitHistory(h, s.currentTerm, k);
    CommitContinues(h, n, s.currentTerm, k);
    RootedContinues(h, h', s.log);
    AcksSurvive(h, h', n, s, s.currentTerm);
    CommitCertified(h, s, k);
  }

  /** A successful reply to the request just built: the peer follows the whole log. */
  lemma SuccessServer(peers: seq<NodeId>, h: History, n: NodeId, sv: Server)
    requires ServerOk(peers, h, n, sv) && sv.activity.Heartbeating?
    requires sv.activity.next < |peers|
    requires h.carries ==>
               Acked(h, peers[sv.activity.next], sv.node.currentTerm, |sv.node.log| - 1)
    ensures ServerOk(peers, h, n,
              Server(RecordSuccess(sv.node, peers[sv.activity.next]),
                     Heartbeating(sv.activity.next + 1)))
  {
    var s := sv.node;
    var peer := peers[sv.activity.next];
    var s' := RecordSuccess(s, peer);
    assert peer in SeqSet(peers);
    AcksSurvive(h, h, n, s, s.currentTerm);
    AppliedContinues(h, h, s, s');
  }

  lemma BackOffServer(peers: seq<NodeId>, h: History, n: NodeId, sv: Server)
    requires ServerOk(peers, h, n, sv) && sv.activity.Heartbeating?
    requires sv.activity.next < |peers|
    requires peers[sv.activity.next] in sv.node.nextIndex
    requires sv.node.nextIndex[peers[sv.activity.next]] > 1
    ensures var peer := peers[sv.activity.next];
            var s := sv.node;
            ServerOk(peers, h, n,
              Server(s.(nextIndex := s.nextIndex[peer := s.nextIndex[peer] - 1]),
                     Heartbeating(sv.activity.next + 1)))
  {
    var s := sv.node;
    var peer := peers[sv.activity.next];
    var s' := s.(nextIndex := s.nextIndex[peer := s.nextIndex[peer] - 1]);
    AcksSurvive(h, h, n, s, s.currentTerm);
    AppliedContinues(h, h, s, s');
  }
}
