/** Runs of the cluster as written that break state machine safety: with the entries left out of the
    requests, any cluster of at least three servers can have two leaders that apply different
    entries at index 1. */
module RaftViolation {
  import opened RaftTypes
  import opened LogMerge
  import opened CommitRule
  import opened RaftSteps
  import opened RaftCluster
  import opened RaftPaths

  ghost predicate Seated(cfg: Config, n: NodeId, peers: seq<NodeId>) {
    && n in cfg.peers && cfg.peers[n] == peers && Distinct(peers)
    && forall i :: 0 <= i < |peers| ==> peers[i] in cfg.peers && peers[i] != n
  }

  lemma HasSeat(cfg: Config, n: NodeId) returns (peers: seq<NodeId>)
    requires ValidConfig(cfg) && n in cfg.peers
    ensures Seated(cfg, n, peers) && |peers| + 1 == |cfg.peers|
    ensures forall p :: p in cfg.peers && p != n ==> p in peers
  {
    peers := cfg.peers[n];
    DistinctSize(peers);
    assert |cfg.peers.Keys| == |cfg.peers.Keys - {n}| + 1;
    forall p | p in cfg.peers && p != n ensures p in peers {
      assert p in SeqSet(peers);
    }
    forall i | 0 <= i < |peers| ensures peers[i] in cfg.peers && peers[i] != n {
      assert peers[i] in SeqSet(peers);
    }
  }

  // ---------- servers that know nothing ----------

  /** Neither entries nor commits, and never a leader. */
  ghost predicate Empty(s: NodeState) {
    && s.log == [DUMMY] && s.matchIndex == map[] && s.role != Leader
    && s.commitIndex == 0 && s.lastApplied == 0 && s.store == map[]
  }

  lemma EmptyIsOk(peers: seq<NodeId>, s: NodeState)
    requires Empty(s)
    ensures LocalOk(peers, s)
  {
  }

  /** An idle follower of the given term that is empty. */
  ghost predicate Blank(c: Cluster, p: NodeId, term: nat) {
    && p in c.servers && c.servers[p].activity.Idle?
    && Empty(c.servers[p].node) && c.servers[p].node.role == Follower
    && c.servers[p].node.currentTerm == term
  }

  /** The peers at positions from..to are blank, except the excluded one. */
  ghost predicate PeersBlank(c: Cluster, peers: seq<NodeId>, excluded: NodeId, from: nat, to: nat,
                             term: nat)
    requires to <= |peers|
  {
    forall i :: from <= i < to && peers[i] != excluded ==> Blank(c, peers[i], term)
  }

  ghost predicate Untouched(c: Cluster, c': Cluster, p: NodeId) {
    p in c.servers ==> p in c'.servers && c'.servers[p] == c.servers[p]
  }

  ghost predicate OnlyTouched(c: Cluster, c': Cluster, n: NodeId, p: NodeId) {
    c'.servers.Keys == c.servers.Keys && forall q :: q != n && q != p ==> Untouched(c, c', q)
  }

  /** Changing n and the peer at position `at` leaves the peers at other positions blank. */
  lemma StillBlank(c: Cluster, c': Cluster, n: NodeId, peers: seq<NodeId>, excluded: NodeId,
                   at: nat, from: nat, to: nat, term: nat)
    requires Distinct(peers) && n !in peers && to <= |peers| && at < |peers|
    requires PeersBlank(c, peers, excluded, from, to, term) && !(from <= at < to)
    requires OnlyTouched(c, c', n, peers[at])
    ensures PeersBlank(c', peers, excluded, from, to, term)
  {
    forall i | from <= i < to && peers[i] != excluded ensures Blank(c', peers[i], term) {
      assert Blank(c, peers[i], term) && Untouched(c, c', peers[i]);
    }
  }

  /** Changing n alone leaves all peers blank. */
  lemma AllStillBlank(c: Cluster, c': Cluster, n: NodeId, peers: seq<NodeId>, excluded: NodeId,
                      term: nat)
    requires n !in peers && PeersBlank(c, peers, excluded, 0, |peers|, term)
    requires OnlyTouched(c, c', n, n)
    ensures PeersBlank(c', peers, excluded, 0, |peers|, term)
  {
    forall i | 0 <= i < |peers| && peers[i] != excluded ensures Blank(c', peers[i], term) {
      assert Blank(c, peers[i], term) && Untouched(c, c', peers[i]);
    }
  }

  /** How many of the first k peers are not excluded. */
  ghost function Reached(peers: seq<NodeId>, k: nat, excluded: NodeId): nat
    requires k <= |peers|
  {
    if k == 0 then 0
    else Reached(peers, k - 1, excluded) + if peers[k - 1] == excluded then 0 else 1
  }

  lemma {:induction false} ReachedAll(peers: seq<NodeId>, k: nat, excluded: NodeId)
    requires Distinct(peers) && k <= |peers|
    ensures Reached(peers, k, excluded) >= if excluded in peers[..k] then k - 1 else k
  {
    if k > 0 {
      ReachedAll(peers, k - 1, excluded);
      assert peers[..k] == peers[..k - 1] + [peers[k - 1]];
    }
  }

  // ---------- an election that all but the excluded server support ----------

  /** Candidate n has polled its first peers; the others are still in the term before. */
  ghost predicate Polling(c: Cluster, n: NodeId, peers: seq<NodeId>, excluded: NodeId,
                          s: NodeState) {
    && n in c.servers && n !in peers && c.servers[n].node == s && c.servers[n].activity.Electing?
    && Empty(s) && s.role == Candidate && s.currentTerm > 0
    && var next := c.servers[n].activity.next;
    && next <= |peers|
    && c.servers[n].activity.votes >= 1 + Reached(peers, next, excluded)
    && PeersBlank(c, peers, excluded, 0, next, s.currentTerm)
    && PeersBlank(c, peers, excluded, next, |peers|, s.currentTerm - 1)
  }

  lemma Granted(s: NodeState, args: RequestVoteArgs)
    requires s.log == [DUMMY] && args.term == s.currentTerm + 1
    requires args.lastLogTerm == 0 && args.lastLogIndex == 0
    ensures HandleRequestVote(s, args)
         == (StepDown(s, args.term).(votedFor := args.candidateId),
             RequestVoteReply(args.term, true))
  {
  }

  lemma PollOne(cfg: Config, c0: Cluster, run: seq<Cluster>, c: Cluster, n: NodeId,
                peers: seq<NodeId>, excluded: NodeId, s: NodeState)
    returns (run': seq<Cluster>, c': Cluster)
    requires Seated(cfg, n, peers) && PathFrom(cfg, run, c0, c)
    requires Polling(c, n, peers, excluded, s) && c.servers[n].activity.next < |peers|
    ensures PathFrom(cfg, run', c0, c')
    ensures Polling(c', n, peers, excluded, s)
    ensures c'.servers[n].activity.next == c.servers[n].activity.next + 1
    ensures c'.servers.Keys == c.servers.Keys && (n != excluded ==> Untouched(c, c', excluded))
  {
    var p := peers[c.servers[n].activity.next];
    EmptyIsOk(peers, s);
    if p == excluded {
      run', c' := MissVote(cfg, c0, run, c, n);
    } else {
      run', c' := GetVote(cfg, c0, run, c, n, peers, p, s);
    }
    PolledOne(c, c', n, peers, excluded, s);
  }

  /** A blank peer of the term before votes for the candidate. */
  lemma GetVote(cfg: Config, c0: Cluster, run: seq<Cluster>, c: Cluster, n: NodeId,
                peers: seq<NodeId>, p: NodeId, s: NodeState)
    returns (run': seq<Cluster>, c': Cluster)
    requires Seated(cfg, n, peers) && PathFrom(cfg, run, c0, c)
    requires n in c.servers && c.servers[n].node == s && c.servers[n].activity.Electing?
    requires Empty(s) && s.currentTerm > 0
    requires c.servers[n].activity.next < |peers| && peers[c.servers[n].activity.next] == p
    requires Blank(c, p, s.currentTerm - 1)
    ensures PathFrom(cfg, run', c0, c') && OnlyTouched(c, c', n, p)
    ensures n in c'.servers && Blank(c', p, s.currentTerm)
    ensures c'.servers[n] == Server(s, Electing(c.servers[n].activity.next + 1,
                                                c.servers[n].activity.votes + 1))
  {
    EmptyIsOk(peers, s);
    EmptyIsOk(cfg.peers[p], c.servers[p].node);
    Granted(c.servers[p].node, VoteArgs(n, s));
    run', c' := DeliverVote(cfg, c0, run, c, n, p);
  }

  lemma PolledOne(c: Cluster, c': Cluster, n: NodeId, peers: seq<NodeId>, excluded: NodeId,
                  s: NodeState)
    requires Distinct(peers) && Polling(c, n, peers, excluded, s)
    requires c.servers[n].activity.next < |peers|
    requires OnlyTouched(c, c', n, peers[c.servers[n].activity.next])
    requires n in c'.servers && c'.servers[n].node == s && c'.servers[n].activity.Electing?
    requires c'.servers[n].activity.next == c.servers[n].activity.next + 1
    requires var p := peers[c.servers[n].activity.next];
             if p == excluded then c'.servers[n].activity.votes == c.servers[n].activity.votes
             else Blank(c', p, s.currentTerm)
                  && c'.servers[n].activity.votes == c.servers[n].activity.votes + 1
    ensures Polling(c', n, peers, excluded, s)
  {
    var next := c.servers[n].activity.next;
    StillBlank(c, c', n, peers, excluded, next, 0, next, s.currentTerm);
    StillBlank(c, c', n, peers, excluded, next, next + 1, |peers|, s.currentTerm - 1);
    OneMoreBlank(c', peers, excluded, next, s.currentTerm);
  }

  lemma OneMoreBlank(c: Cluster, peers: seq<NodeId>, excluded: NodeId, next: nat, term: nat)
    requires next < |peers| && PeersBlank(c, peers, excluded, 0, next, term)
    requires peers[next] == excluded || Blank(c, peers[next], term)
    ensures PeersBlank(c, peers, excluded, 0, next + 1, term)
  {
  }

  lemma {:induction false} PollAll(cfg: Config, c0: Cluster, run: seq<Cluster>, c: Cluster,
                                   n: NodeId, peers: seq<NodeId>, excluded: NodeId, s: NodeState)
    returns (run': seq<Cluster>, c': Cluster)
    requires Seated(cfg, n, peers) && PathFrom(cfg, run, c0, c) && n != excluded
    requires Polling(c, n, peers, excluded, s)
    ensures PathFrom(cfg, run', c0, c')
    ensures Polling(c', n, peers, excluded, s) && c'.servers[n].activity.next == |peers|
    ensures c'.servers.Keys == c.servers.Keys && Untouched(c, c', excluded)
    decreases |peers| - c.servers[n].activity.next
  {
    run', c' := run, c;
    if c.servers[n].activity.next < |peers| {
      run', c' := PollOne(cfg, c0, run, c, n, peers, excluded, s);
      run', c' := PollAll(cfg, c0, run', c', n, peers, excluded, s);
    }
  }

  ghost predicate FreshLeader(peers: seq<NodeId>, s: NodeState) {
    && LocalOk(peers, s) && s.role == Leader && s.log == [DUMMY]
    && s.commitIndex == 0 && s.lastApplied == 0 && s.store == map[]
    && forall p :: p in peers ==> p in s.nextIndex && s.nextIndex[p] == 1
  }

  /** n is idle and its peers are blank in its term, except the excluded one. */
  ghost predicate Supported(c: Cluster, n: NodeId, peers: seq<NodeId>, excluded: NodeId, term: nat)
  {
    && n in c.servers && n !in peers && c.servers[n].activity.Idle?
    && c.servers[n].node.currentTerm == term
    && PeersBlank(c, peers, excluded, 0, |peers|, term)
  }

  /** Of at least three servers, all but one are enough to elect a leader. */
  lemma Elect(cfg: Config, c0: Cluster, run: seq<Cluster>, c: Cluster, n: NodeId,
              peers: seq<NodeId>, excluded: NodeId, term: nat)
    returns (run': seq<Cluster>, c': Cluster)
    requires Seated(cfg, n, peers) && PathFrom(cfg, run, c0, c) && |peers| >= 2 && n != excluded
    requires Supported(c, n, peers, excluded, term) && Blank(c, n, term)
    ensures PathFrom(cfg, run', c0, c') && Supported(c', n, peers, excluded, term + 1)
    ensures FreshLeader(peers, c'.servers[n].node)
    ensures c'.servers.Keys == c.servers.Keys && Untouched(c, c', excluded)
  {
    EmptyIsOk(peers, c.servers[n].node);
    var run1, c1 := Extend(cfg, c0, run, c, n, BeginElection);
    var s := c1.servers[n].node;
    PollingBegins(c, c1, n, peers, excluded);
    var run2, c2 := PollAll(cfg, c0, run1, c1, n, peers, excluded, s);
    run', c' := WinElection(cfg, c0, run2, c2, n, peers, excluded, s);
  }

  lemma PollingBegins(c: Cluster, c1: Cluster, n: NodeId, peers: seq<NodeId>, excluded: NodeId)
    requires n in c.servers && Blank(c, n, c.servers[n].node.currentTerm)
    requires Supported(c, n, peers, excluded, c.servers[n].node.currentTerm)
    requires c1.servers == c.servers[n := BecomeCandidate(n, c.servers[n].node)]
    ensures Polling(c1, n, peers, excluded, c1.servers[n].node)
  {
    AllStillBlank(c, c1, n, peers, excluded, c.servers[n].node.currentTerm);
  }

  lemma WinElection(cfg: Config, c0: Cluster, run: seq<Cluster>, c: Cluster, n: NodeId,
                    peers: seq<NodeId>, excluded: NodeId, s: NodeState)
    returns (run': seq<Cluster>, c': Cluster)
    requires Seated(cfg, n, peers) && PathFrom(cfg, run, c0, c) && |peers| >= 2 && n != excluded
    requires Polling(c, n, peers, excluded, s) && c.servers[n].activity.next == |peers|
    ensures PathFrom(cfg, run', c0, c') && Supported(c', n, peers, excluded, s.currentTerm)
    ensures FreshLeader(peers, c'.servers[n].node)
    ensures c'.servers.Keys == c.servers.Keys && Untouched(c, c', excluded)
  {
    ReachedAll(peers, |peers|, excluded);
    EmptyIsOk(peers, s);
    WinnerIsFresh(peers, c.servers[n]);
    run', c' := Extend(cfg, c0, run, c, n, EndElection);
    AllStillBlank(c, c', n, peers, excluded, s.currentTerm);
  }

  lemma WinnerIsFresh(peers: seq<NodeId>, sv: Server)
    requires sv.activity.Electing? && sv.activity.votes >= VoteQuorum(|peers| + 1)
    requires Empty(sv.node)
    ensures FreshLeader(peers, FinishElection(peers, sv).node)
    ensures FinishElection(peers, sv).node.currentTerm == sv.node.currentTerm
  {
  }

  // ---------- a commit on acknowledgements of empty requests ----------

  /** The store of a server with one entry, before and after it is applied. */
  ghost function StoreAfter(log: Log, applied: nat): Store
    requires |log| == 2
  {
    if applied == 0 then map[] else map[log[1].key := log[1].value]
  }

  ghost predicate AtOne(m: map<NodeId, nat>, p: NodeId) {
    p in m && m[p] == 1
  }

  /** Enough peers have answered, and at least one has. */
  ghost predicate HaveQuorum(peers: seq<NodeId>, answered: nat) {
    answered >= 1 && 1 + answered >= CommitQuorum(|peers| + 1)
  }

  /** A leader with one entry, in the middle of a round: the peers it has reached have answered the
      empty request, and it has applied the entry as soon as a commit quorum has. */
  ghost predicate Leading(peers: seq<NodeId>, s: NodeState, next: nat, excluded: NodeId, log: Log)
  {
    && LocalOk(peers, s) && s.role == Leader && s.log == log
    && |log| == 2 && log[1].term == s.currentTerm
    && s.lastApplied == s.commitIndex <= 1 && s.store == StoreAfter(log, s.lastApplied)
    && Counting(peers, s, next, excluded)
    && (HaveQuorum(peers, Reached(peers, next, excluded)) ==> s.lastApplied == 1)
  }

  ghost predicate Counting(peers: seq<NodeId>, s: NodeState, next: nat, excluded: NodeId) {
    && next <= |peers|
    && (forall i :: 0 <= i < next && peers[i] != excluded ==> AtOne(s.matchIndex, peers[i]))
    && forall i :: next <= i < |peers| ==> AtOne(s.nextIndex, peers[i])
  }

  lemma EmptyRequestAccepted(s: NodeState, args: AppendEntriesArgs)
    requires Empty(s) && s.role == Follower && s.currentTerm == args.term
    requires args.prevLogIndex == 0 && args.prevLogTerm == 0 && args.entries == []
    ensures HandleAppendEntries(s, args) == (s, AppendEntriesReply(args.term, true))
  {
  }

  lemma MissKeepsLeading(peers: seq<NodeId>, s: NodeState, next: nat, excluded: NodeId, log: Log)
    requires Distinct(peers) && Leading(peers, s, next, excluded, log)
    requires next < |peers| && peers[next] == excluded
    ensures Leading(peers, s, next + 1, excluded, log)
  {
  }

  /** The leader records the acknowledgement, and commits once there is a quorum of them. */
  lemma AckCounts(peers: seq<NodeId>, s: NodeState, next: nat, excluded: NodeId, log: Log)
    returns (s': NodeState)
    requires Distinct(peers) && Leading(peers, s, next, excluded, log)
    requires next < |peers| && peers[next] != excluded
    ensures LeaderIndicesOk(peers, s)
    ensures TakeAppendReply(peers, Server(s, Heartbeating(next)),
                            Some(AppendEntriesReply(s.currentTerm, true)))
         == Server(s', Heartbeating(next + 1))
    ensures s'.currentTerm == s.currentTerm && Leading(peers, s', next + 1, excluded, log)
  {
    var s1 := Recorded(peers, s, next, excluded);
    s' := AdvanceCommit(peers, s1);
    CommitsWithQuorum(peers, s1, next + 1, excluded);
  }

  lemma Recorded(peers: seq<NodeId>, s: NodeState, next: nat, excluded: NodeId)
    returns (s1: NodeState)
    requires Distinct(peers) && LeaderIndicesOk(peers, s) && |s.log| == 2
    requires next < |peers| && Counting(peers, s, next, excluded)
    ensures s1 == s.(nextIndex := s1.nextIndex, matchIndex := s1.matchIndex)
    ensures LeaderIndicesOk(peers, s1) && Counting(peers, s1, next + 1, excluded)
    ensures TakeAppendReply(peers, Server(s, Heartbeating(next)),
                            Some(AppendEntriesReply(s.currentTerm, true)))
         == Server(AdvanceCommit(peers, s1), Heartbeating(next + 1))
  {
    var p := peers[next];
    assert AtOne(s.nextIndex, p) && p in SeqSet(peers);
    s1 := s.(nextIndex := s.nextIndex[p := 2], matchIndex := s.matchIndex[p := 1]);
    assert RecordSuccess(s, p) == s1;
    RecordedIndices(peers, s, s1, p);
  }

  lemma RecordedIndices(peers: seq<NodeId>, s: NodeState, s1: NodeState, p: NodeId)
    requires LeaderIndicesOk(peers, s) && |s.log| == 2 && p in SeqSet(peers)
    requires s1 == s.(nextIndex := s.nextIndex[p := 2], matchIndex := s.matchIndex[p := 1])
    ensures LeaderIndicesOk(peers, s1)
  {
  }

  lemma CommitsWithQuorum(peers: seq<NodeId>, s: NodeState, k: nat, excluded: NodeId)
    requires Distinct(peers) && LeaderIndicesOk(peers, s) && |s.log| == 2
    requires s.log[1].term == s.currentTerm && s.lastApplied == s.commitIndex <= 1
    requires s.store == StoreAfter(s.log, s.lastApplied) && Counting(peers, s, k, excluded)
    ensures var s' := AdvanceCommit(peers, s);
            && s' == s.(commitIndex := s'.commitIndex, lastApplied := s'.lastApplied,
                        store := s'.store)
            && s'.lastApplied == s'.commitIndex <= 1
            && s'.store == StoreAfter(s.log, s'.lastApplied)
            && (1 + Reached(peers, k, excluded) >= CommitQuorum(|peers| + 1) ==>
                  s'.lastApplied == 1)
  {
    ReachedAreHolders(peers, s.matchIndex, k, excluded);
    CandidateWithQuorum(peers, s, k, Reached(peers, k, excluded));
    if s.lastApplied == 0 {
      ApplyFirst(s);
    }
  }

  lemma ApplyFirst(s: NodeState)
    requires |s.log| == 2 && s.lastApplied == 0 && s.store == map[]
    ensures Apply(s.(commitIndex := 1))
         == s.(commitIndex := 1, lastApplied := 1, store := StoreAfter(s.log, 1))
  {
    var entries := s.log[1..2];
    assert entries[..|entries| - 1] == [];
    assert FoldPuts(s.store, []) == map[];
    assert entries[0] == s.log[1];
  }

  lemma {:induction false} ReachedAreHolders(peers: seq<NodeId>, m: map<NodeId, nat>, k: nat,
                                             excluded: NodeId)
    requires Distinct(peers) && k <= |peers|
    requires forall i :: 0 <= i < k && peers[i] != excluded ==> AtOne(m, peers[i])
    ensures Reached(peers, k, excluded) <= |ReachedBy(SeqSet(peers[..k]), m, 1)|
  {
    if k > 0 {
      var p, before := peers[k - 1], SeqSet(peers[..k - 1]);
      ReachedAreHolders(peers, m, k - 1, excluded);
      assert peers[..k] == peers[..k - 1] + [p];
      assert SeqSet(peers[..k]) == before + {p};
      assert p !in before;
      if p in m {
        ReachedByAdd(before, m, p, 1);
      } else {
        assert ReachedBy(before + {p}, m, 1) == ReachedBy(before, m, 1);
      }
      assert p != excluded ==> AtOne(m, p);
    }
  }

  lemma CandidateWithQuorum(peers: seq<NodeId>, s: NodeState, k: nat, reached: nat)
    requires Distinct(peers) && LeaderIndicesOk(peers, s) && |s.log| == 2 && k <= |peers|
    requires reached <= |ReachedBy(SeqSet(peers[..k]), s.matchIndex, 1)|
    ensures var c := CommitCandidate(ReplicaIndices(peers, s));
            c <= 1 && (1 + reached >= CommitQuorum(|peers| + 1) ==> c == 1)
  {
    var r := ReplicaIndices(peers, s);
    ReplicaIndicesInRange(peers, s);
    MatchValuesCount(peers, s.matchIndex, 1);
    assert r[1..] == MatchValues(peers, s.matchIndex);
    SubsetSize(ReachedBy(SeqSet(peers[..k]), s.matchIndex, 1),
               ReachedBy(SeqSet(peers), s.matchIndex, 1));
    CommitCandidateIsGreatest(r, 1);
  }

  /** n is in a heartbeat round with one entry, and its peers are blank in its term. */
  ghost predicate Beating(c: Cluster, n: NodeId, peers: seq<NodeId>, excluded: NodeId, log: Log,
                          term: nat) {
    && n in c.servers && n !in peers && c.servers[n].activity.Heartbeating?
    && c.servers[n].node.currentTerm == term
    && Leading(peers, c.servers[n].node, c.servers[n].activity.next, excluded, log)
    && PeersBlank(c, peers, excluded, 0, |peers|, term)
  }

  lemma StillBeating(c: Cluster, c': Cluster, n: NodeId, peers: seq<NodeId>, excluded: NodeId,
                     log: Log, term: nat, s': NodeState, next': nat)
    requires n !in peers && PeersBlank(c, peers, excluded, 0, |peers|, term)
    requires OnlyTouched(c, c', n, n)
    requires n in c'.servers && c'.servers[n] == Server(s', Heartbeating(next'))
    requires s'.currentTerm == term && Leading(peers, s', next', excluded, log)
    ensures Beating(c', n, peers, excluded, log, term)
  {
    AllStillBlank(c, c', n, peers, excluded, term);
  }

  /** A blank peer answers the empty request and stays as it is. */
  lemma EmptyCall(cfg: Config, c0: Cluster, run: seq<Cluster>, c: Cluster, n: NodeId,
                  peers: seq<NodeId>, p: NodeId)
    returns (run': seq<Cluster>, c': Cluster)
    requires !cfg.sendsEntries && Seated(cfg, n, peers) && Ready(cfg, c0, run, c, n)
    requires c.servers[n].activity.Heartbeating? && c.servers[n].node.role == Leader
    requires c.servers[n].activity.next < |peers| && peers[c.servers[n].activity.next] == p
    requires Blank(c, p, c.servers[n].node.currentTerm)
    requires p in c.servers[n].node.nextIndex && c.servers[n].node.nextIndex[p] == 1
    ensures PathFrom(cfg, run', c0, c')
    ensures LeaderIndicesOk(peers, c.servers[n].node)
    ensures c'.servers
         == c.servers[n := TakeAppendReply(peers, c.servers[n],
                             Some(AppendEntriesReply(c.servers[n].node.currentTerm, true)))]
  {
    var args := AppendArgs(false, n, c.servers[n].node, p);
    EmptyIsOk(cfg.peers[p], c.servers[p].node);
    EmptyRequestAccepted(c.servers[p].node, args);
    run', c' := DeliverAppend(cfg, c0, run, c, n, p, args);
  }

  lemma BeatMiss(cfg: Config, c0: Cluster, run: seq<Cluster>, c: Cluster, n: NodeId,
                 peers: seq<NodeId>, excluded: NodeId, log: Log, term: nat)
    returns (run': seq<Cluster>, c': Cluster)
    requires Seated(cfg, n, peers) && PathFrom(cfg, run, c0, c)
    requires Beating(c, n, peers, excluded, log, term) && c.servers[n].activity.next < |peers|
    requires peers[c.servers[n].activity.next] == excluded
    ensures PathFrom(cfg, run', c0, c') && Beating(c', n, peers, excluded, log, term)
    ensures c'.servers[n].activity.next == c.servers[n].activity.next + 1
    ensures OnlyTouched(c, c', n, n)
  {
    var s, next := c.servers[n].node, c.servers[n].activity.next;
    MissKeepsLeading(peers, s, next, excluded, log);
    run', c' := MissAck(cfg, c0, run, c, n);
    StillBeating(c, c', n, peers, excluded, log, term, s, next + 1);
  }

  lemma BeatAck(cfg: Config, c0: Cluster, run: seq<Cluster>, c: Cluster, n: NodeId,
                peers: seq<NodeId>, excluded: NodeId, log: Log, term: nat)
    returns (run': seq<Cluster>, c': Cluster)
    requires !cfg.sendsEntries && Seated(cfg, n, peers) && PathFrom(cfg, run, c0, c)
    requires Beating(c, n, peers, excluded, log, term) && c.servers[n].activity.next < |peers|
    requires peers[c.servers[n].activity.next] != excluded
    ensures PathFrom(cfg, run', c0, c') && Beating(c', n, peers, excluded, log, term)
    ensures c'.servers[n].activity.next == c.servers[n].activity.next + 1
    ensures OnlyTouched(c, c', n, n)
  {
    var s, next := c.servers[n].node, c.servers[n].activity.next;
    assert Blank(c, peers[next], term) && AtOne(s.nextIndex, peers[next]);
    var s' := AckCounts(peers, s, next, excluded, log);
    run', c' := EmptyCall(cfg, c0, run, c, n, peers, peers[next]);
    StillBeating(c, c', n, peers, excluded, log, term, s', next + 1);
  }

  lemma {:induction false} BeatAll(cfg: Config, c0: Cluster, run: seq<Cluster>, c: Cluster,
                                   n: NodeId, peers: seq<NodeId>, excluded: NodeId, log: Log,
                                   term: nat)
    returns (run': seq<Cluster>, c': Cluster)
    requires !cfg.sendsEntries && Seated(cfg, n, peers) && PathFrom(cfg, run, c0, c)
    requires Beating(c, n, peers, excluded, log, term)
    ensures PathFrom(cfg, run', c0, c') && Beating(c', n, peers, excluded, log, term)
    ensures c'.servers[n].activity.next == |peers| && OnlyTouched(c, c', n, n)
    decreases |peers| - c.servers[n].activity.next
  {
    run', c' := run, c;
    if c.servers[n].activity.next < |peers| {
      if peers[c.servers[n].activity.next] == excluded {
        run', c' := BeatMiss(cfg, c0, run, c, n, peers, excluded, log, term);
      } else {
        run', c' := BeatAck(cfg, c0, run, c, n, peers, excluded, log, term);
      }
      var c1 := c';
      run', c' := BeatAll(cfg, c0, run', c', n, peers, excluded, log, term);
      TouchedTwice(c, c1, c', n);
    }
  }

  lemma TouchedTwice(c: Cluster, c1: Cluster, c2: Cluster, n: NodeId)
    requires OnlyTouched(c, c1, n, n) && OnlyTouched(c1, c2, n, n)
    ensures OnlyTouched(c, c2, n, n)
  {
    forall q | q != n ensures Untouched(c, c2, q) {
      assert Untouched(c, c1, q) && Untouched(c1, c2, q);
    }
  }

  /** The server has this one entry and has applied it. */
  ghost predicate AppliedOne(s: NodeState, entry: LogEntry) {
    && s.log == [DUMMY, entry] && s.commitIndex == 1 && s.lastApplied == 1
    && s.store == map[entry.key := entry.value]
  }

  /** A fresh leader takes one entry, has empty requests acknowledged, and applies the entry. */
  lemma CommitAlone(cfg: Config, c0: Cluster, run: seq<Cluster>, c: Cluster, n: NodeId,
                    peers: seq<NodeId>, excluded: NodeId, term: nat, key: string, value: string)
    returns (run': seq<Cluster>, c': Cluster)
    requires !cfg.sendsEntries && Seated(cfg, n, peers) && PathFrom(cfg, run, c0, c)
    requires |peers| >= 2 && n != excluded && Supported(c, n, peers, excluded, term)
    requires FreshLeader(peers, c.servers[n].node)
    ensures PathFrom(cfg, run', c0, c') && Supported(c', n, peers, excluded, term)
    ensures AppliedOne(c'.servers[n].node, LogEntry(term, 1, key, value))
    ensures c'.servers.Keys == c.servers.Keys && Untouched(c, c', excluded)
  {
    var log := [DUMMY, LogEntry(term, 1, key, value)];
    var run1, c1 := SubmitAndBeat(cfg, c0, run, c, n, peers, excluded, term, key, value);
    var run2, c2 := BeatAll(cfg, c0, run1, c1, n, peers, excluded, log, term);
    assert Untouched(c, c1, excluded) && Untouched(c1, c2, excluded);
    run', c' := EndBeating(cfg, c0, run2, c2, n, peers, excluded, log, term);
  }

  lemma SubmitAndBeat(cfg: Config, c0: Cluster, run: seq<Cluster>, c: Cluster, n: NodeId,
                      peers: seq<NodeId>, excluded: NodeId, term: nat, key: string,
                      value: string)
    returns (run': seq<Cluster>, c': Cluster)
    requires Seated(cfg, n, peers) && PathFrom(cfg, run, c0, c)
    requires |peers| >= 2 && Supported(c, n, peers, excluded, term)
    requires FreshLeader(peers, c.servers[n].node)
    ensures PathFrom(cfg, run', c0, c')
    ensures Beating(c', n, peers, excluded, [DUMMY, LogEntry(term, 1, key, value)], term)
    ensures OnlyTouched(c, c', n, n)
  {
    SubmittedLeads(peers, c.servers[n].node, excluded, key, value);
    var run1, c1 := Extend(cfg, c0, run, c, n, Submit(key, value));
    run', c' := Extend(cfg, c0, run1, c1, n, BeginHeartbeat);
    AllStillBlank(c, c', n, peers, excluded, term);
  }

  lemma SubmittedLeads(peers: seq<NodeId>, s: NodeState, excluded: NodeId, key: string,
                       value: string)
    requires FreshLeader(peers, s) && |peers| >= 1
    ensures var s' := SubmitLog(s, key, value).0;
            && s'.currentTerm == s.currentTerm
            && Leading(peers, s', 0, excluded, [DUMMY, LogEntry(s.currentTerm, 1, key, value)])
  {
  }

  lemma EndBeating(cfg: Config, c0: Cluster, run: seq<Cluster>, c: Cluster, n: NodeId,
                   peers: seq<NodeId>, excluded: NodeId, log: Log, term: nat)
    returns (run': seq<Cluster>, c': Cluster)
    requires Seated(cfg, n, peers) && PathFrom(cfg, run, c0, c) && |peers| >= 2 && n != excluded
    requires Beating(c, n, peers, excluded, log, term) && c.servers[n].activity.next == |peers|
    ensures PathFrom(cfg, run', c0, c') && Supported(c', n, peers, excluded, term)
    ensures AppliedOne(c'.servers[n].node, log[1])
    ensures c'.servers.Keys == c.servers.Keys && Untouched(c, c', excluded)
  {
    ReachedAll(peers, |peers|, excluded);
    run', c' := Extend(cfg, c0, run, c, n, EndHeartbeat);
    AllStillBlank(c, c', n, peers, excluded, term);
  }

  // ---------- two reigns ----------

  /** One server is elected by all others that are blank, and applies an entry of its own. */
  lemma Reign(cfg: Config, c0: Cluster, run: seq<Cluster>, c: Cluster, n: NodeId,
              peers: seq<NodeId>, excluded: NodeId, term: nat, key: string, value: string)
    returns (run': seq<Cluster>, c': Cluster)
    requires !cfg.sendsEntries && Seated(cfg, n, peers) && PathFrom(cfg, run, c0, c)
    requires |peers| >= 2 && n != excluded
    requires Supported(c, n, peers, excluded, term) && Blank(c, n, term)
    ensures PathFrom(cfg, run', c0, c') && Supported(c', n, peers, excluded, term + 1)
    ensures AppliedOne(c'.servers[n].node, LogEntry(term + 1, 1, key, value))
    ensures c'.servers.Keys == c.servers.Keys && Untouched(c, c', excluded)
  {
    run', c' := Elect(cfg, c0, run, c, n, peers, excluded, term);
    run', c' := CommitAlone(cfg, c0, run', c', n, peers, excluded, term + 1, key, value);
  }

  /** Support for one server without exception is support for another one without the first. */
  lemma SupportMoves(c: Cluster, a: NodeId, peersA: seq<NodeId>, b: NodeId, peersB: seq<NodeId>,
                     nobody: NodeId, term: nat)
    requires Supported(c, a, peersA, nobody, term) && nobody !in peersA
    requires b in peersA && b !in peersB && forall p :: p in peersB && p != a ==> p in peersA
    ensures Supported(c, b, peersB, a, term) && Blank(c, b, term)
  {
    forall p | p in peersA ensures Blank(c, p, term) {
      var i :| 0 <= i < |peersA| && peersA[i] == p;
    }
  }

  /** State machine safety fails as written, for any two servers of every cluster of at least three:
      everybody supports a, which applies an entry; then all but a support b, which never
      received it. Both have applied an entry at index 1, and for different values their stores
      differ. No other server has an entry. */
  lemma AsWrittenViolatesStateMachineSafety(cfg: Config, a: NodeId, b: NodeId, key: string,
                                            valueA: string, valueB: string)
    returns (run: seq<Cluster>)
    requires ValidConfig(cfg) && !cfg.sendsEntries && |cfg.peers| >= 3
    requires a in cfg.peers && b in cfg.peers && a != b
    ensures IsRun(cfg, run)
    ensures var last := run[|run| - 1];
            && last.servers.Keys == cfg.peers.Keys
            && AppliedOne(last.servers[a].node, LogEntry(1, 1, key, valueA))
            && AppliedOne(last.servers[b].node, LogEntry(2, 1, key, valueB))
            && forall p :: p in cfg.peers && p != a && p != b ==>
                 last.servers[p].node.log == [DUMMY]
  {
    var peersA := HasSeat(cfg, a);
    var peersB := HasSeat(cfg, b);
    var c0 := Cluster(map n | n in cfg.peers :: INITIAL, {});
    var c;
    run, c := TwoReigns(cfg, c0, a, peersA, b, peersB, key, valueA, valueB);
    forall p | p in cfg.peers && p != a && p != b ensures c.servers[p].node.log == [DUMMY] {
      var i :| 0 <= i < |peersB| && peersB[i] == p;
      assert Blank(c, peersB[i], 2);
    }
  }

  lemma TwoReigns(cfg: Config, c0: Cluster, a: NodeId, peersA: seq<NodeId>, b: NodeId,
                  peersB: seq<NodeId>, key: string, valueA: string, valueB: string)
    returns (run: seq<Cluster>, c: Cluster)
    requires !cfg.sendsEntries && Init(cfg, c0) && NO_VOTE !in cfg.peers
    requires Seated(cfg, a, peersA) && Seated(cfg, b, peersB) && b in peersA
    requires |peersA| >= 2 && |peersB| >= 2
    requires forall p :: p in peersB && p != a ==> p in peersA
    ensures PathFrom(cfg, run, c0, c) && c.servers.Keys == cfg.peers.Keys
    ensures AppliedOne(c.servers[a].node, LogEntry(1, 1, key, valueA))
    ensures AppliedOne(c.servers[b].node, LogEntry(2, 1, key, valueB))
    ensures PeersBlank(c, peersB, a, 0, |peersB|, 2)
  {
    assert PathFrom(cfg, [c0], c0, c0);
    assert forall p :: p in cfg.peers ==> Blank(c0, p, 0);
    var run1, c1 := Reign(cfg, c0, [c0], c0, a, peersA, NO_VOTE, 0, key, valueA);
    SupportMoves(c1, a, peersA, b, peersB, NO_VOTE, 1);
    run, c := Reign(cfg, c0, run1, c1, b, peersB, a, 1, key, valueB);
  }

  const THREE_SERVERS: Config :=
    Config(map["a" := ["b", "c"], "b" := ["c", "a"], "c" := ["a", "b"]], false, true)

  /** A cluster this applies to. */
  lemma ThreeServersAreValid()
    ensures ValidConfig(THREE_SERVERS) && !THREE_SERVERS.sendsEntries
    ensures |THREE_SERVERS.peers| == 3
  {
    assert SeqSet(["b", "c"]) == {"b", "c"} && SeqSet(["c", "a"]) == {"c", "a"}
        && SeqSet(["a", "b"]) == {"a", "b"};
    assert THREE_SERVERS.peers.Keys == {"a", "b", "c"};
  }
}
