/** What becomes of Raft when a call also takes replies that were left unread on a pooled connection:
    votes granted in one term elect a leader in a later one. Two leaders of one term then apply
    different entries at index 1, whether or not requests carry their entries. */
module RaftUnmatched {
  import opened RaftTypes
  import opened LogMerge
  import opened CommitRule
  import opened RaftSteps
  import opened RaftCluster
  import opened RaftPaths
  import opened RaftViolation

  // ---------- votes that are granted but not read ----------

  /** An idle server of the term that is empty. */
  ghost predicate Free(c: Cluster, p: NodeId, term: nat) {
    && p in c.servers && c.servers[p].activity.Idle?
    && Empty(c.servers[p].node) && c.servers[p].node.currentTerm == term
  }

  /** The peer has granted some vote request of n, and the reply is on the wire. */
  ghost predicate Granting(net: set<Message>, p: NodeId, n: NodeId) {
    exists args, vote :: GrantIn(net, p, n, args, vote)
  }

  ghost predicate GrantIn(net: set<Message>, p: NodeId, n: NodeId, args: RequestVoteArgs,
                          vote: RequestVoteReply) {
    VoteReply(p, args, vote) in net && args.candidateId == n && vote.voteGranted
  }

  ghost predicate AllGranting(net: set<Message>, peers: seq<NodeId>, upTo: nat, n: NodeId)
    requires upTo <= |peers|
  {
    forall i :: 0 <= i < upTo ==> Granting(net, peers[i], n)
  }

  lemma StillGranting(net: set<Message>, net': set<Message>, peers: seq<NodeId>, upTo: nat,
                      n: NodeId)
    requires upTo <= |peers| && AllGranting(net, peers, upTo, n) && net <= net'
    ensures AllGranting(net', peers, upTo, n)
  {
    forall i | 0 <= i < upTo ensures Granting(net', peers[i], n) {
      assert Granting(net, peers[i], n);
      var args, vote :| GrantIn(net, peers[i], n, args, vote);
      assert GrantIn(net', peers[i], n, args, vote);
    }
  }

  /** Candidate n of term t has asked its first peers; the others are in the term before. */
  ghost predicate Asking(c: Cluster, n: NodeId, peers: seq<NodeId>, t: nat, votes: nat) {
    && n in c.servers && n !in peers && c.servers[n].activity.Electing?
    && c.servers[n].activity.votes == votes
    && Empty(c.servers[n].node) && c.servers[n].node.currentTerm == t && t > 0
    && var next := c.servers[n].activity.next;
    && next <= |peers|
    && (forall i :: 0 <= i < next ==> Free(c, peers[i], t))
    && (forall i :: next <= i < |peers| ==> Free(c, peers[i], t - 1))
    && AllGranting(c.net, peers, next, n)
  }

  lemma GrantedFreely(s: NodeState, args: RequestVoteArgs)
    requires s.log == [DUMMY] && args.term > s.currentTerm
    requires args.lastLogTerm == 0 && args.lastLogIndex == 0
    ensures HandleRequestVote(s, args)
         == (StepDown(s, args.term).(votedFor := args.candidateId),
             RequestVoteReply(args.term, true))
  {
  }

  /** The next peer grants its vote, but the call returns without the reply. */
  lemma AskOne(cfg: Config, c0: Cluster, run: seq<Cluster>, c: Cluster, n: NodeId,
               peers: seq<NodeId>, t: nat, votes: nat)
    returns (run': seq<Cluster>, c': Cluster)
    requires Seated(cfg, n, peers) && PathFrom(cfg, run, c0, c) && Asking(c, n, peers, t, votes)
    requires c.servers[n].activity.next < |peers|
    ensures PathFrom(cfg, run', c0, c') && Asking(c', n, peers, t, votes)
    ensures c'.servers[n].activity.next == c.servers[n].activity.next + 1
    ensures c'.servers.Keys == c.servers.Keys && c.net <= c'.net
  {
    var next, s := c.servers[n].activity.next, c.servers[n].node;
    var p := peers[next];
    assert Free(c, p, t - 1);
    var args := VoteArgs(n, s);
    run', c' := GrantUnread(cfg, c0, run, c, n, peers, p, args);
    assert OnlyTouched(c, c', n, p);
    StillGranting(c.net, c'.net, peers, next, n);
    assert GrantIn(c'.net, p, n, args, RequestVoteReply(t, true));
    StillFree(c, c', n, peers, next, t);
  }

  lemma GrantUnread(cfg: Config, c0: Cluster, run: seq<Cluster>, c: Cluster, n: NodeId,
                    peers: seq<NodeId>, p: NodeId, args: RequestVoteArgs)
    returns (run': seq<Cluster>, c': Cluster)
    requires Seated(cfg, n, peers) && PathFrom(cfg, run, c0, c)
    requires n in c.servers && c.servers[n].activity.Electing? && Empty(c.servers[n].node)
    requires c.servers[n].activity.next < |peers| && peers[c.servers[n].activity.next] == p
    requires args == VoteArgs(n, c.servers[n].node) && args.term > 0 && Free(c, p, args.term - 1)
    ensures PathFrom(cfg, run', c0, c') && OnlyTouched(c, c', n, p) && c.net <= c'.net
    ensures n in c'.servers && Free(c', p, args.term)
    ensures c'.servers[n] == Server(c.servers[n].node, Electing(c.servers[n].activity.next + 1,
                                                               c.servers[n].activity.votes))
    ensures VoteReply(p, args, RequestVoteReply(args.term, true)) in c'.net
  {
    EmptyIsOk(peers, c.servers[n].node);
    EmptyIsOk(cfg.peers[p], c.servers[p].node);
    GrantedFreely(c.servers[p].node, args);
    var run1, c1 := Extend(cfg, c0, run, c, n, SendVoteRequest);
    var run2, c2 := Extend(cfg, c0, run1, c1, p, ReceiveVoteRequest(args));
    run', c' := Extend(cfg, c0, run2, c2, n, TakeVote(None));
  }

  lemma StillFree(c: Cluster, c': Cluster, n: NodeId, peers: seq<NodeId>, next: nat, t: nat)
    requires Distinct(peers) && n !in peers && next < |peers| && t > 0
    requires OnlyTouched(c, c', n, peers[next]) && Free(c', peers[next], t)
    requires forall i :: 0 <= i < next ==> Free(c, peers[i], t)
    requires forall i :: next <= i < |peers| ==> Free(c, peers[i], t - 1)
    ensures forall i :: 0 <= i < next + 1 ==> Free(c', peers[i], t)
    ensures forall i :: next + 1 <= i < |peers| ==> Free(c', peers[i], t - 1)
  {
    forall i | 0 <= i < |peers| && i != next
      ensures Free(c', peers[i], if i < next then t else t - 1)
    {
      assert Untouched(c, c', peers[i]);
      assert Free(c, peers[i], if i < next then t else t - 1);
    }
  }

  lemma {:induction false} AskAll(cfg: Config, c0: Cluster, run: seq<Cluster>, c: Cluster,
                                  n: NodeId, peers: seq<NodeId>, t: nat, votes: nat)
    returns (run': seq<Cluster>, c': Cluster)
    requires Seated(cfg, n, peers) && PathFrom(cfg, run, c0, c) && Asking(c, n, peers, t, votes)
    ensures PathFrom(cfg, run', c0, c') && Asking(c', n, peers, t, votes)
    ensures c'.servers[n].activity.next == |peers|
    ensures c'.servers.Keys == c.servers.Keys && c.net <= c'.net
    decreases |peers| - c.servers[n].activity.next
  {
    run', c' := run, c;
    if c.servers[n].activity.next < |peers| {
      run', c' := AskOne(cfg, c0, run, c, n, peers, t, votes);
      run', c' := AskAll(cfg, c0, run', c', n, peers, t, votes);
    }
  }

  /** n and its peers are free for the term. */
  ghost predicate AllFree(c: Cluster, n: NodeId, peers: seq<NodeId>, t: nat) {
    && n !in peers && Free(c, n, t)
    && forall i :: 0 <= i < |peers| ==> Free(c, peers[i], t)
  }

  lemma FreeUnder(c: Cluster, c': Cluster, n: NodeId, peers: seq<NodeId>, t: nat)
    requires n !in peers && OnlyTouched(c, c', n, n)
    requires forall i :: 0 <= i < |peers| ==> Free(c, peers[i], t)
    ensures forall i :: 0 <= i < |peers| ==> Free(c', peers[i], t)
  {
    forall i | 0 <= i < |peers| ensures Free(c', peers[i], t) {
      assert Untouched(c, c', peers[i]);
    }
  }

  /** n stands in the next term, everybody grants, no reply is read, and the election fails. */
  lemma StandUnread(cfg: Config, c0: Cluster, run: seq<Cluster>, c: Cluster, n: NodeId,
                    peers: seq<NodeId>, t: nat)
    returns (run': seq<Cluster>, c': Cluster)
    requires Seated(cfg, n, peers) && PathFrom(cfg, run, c0, c) && |peers| >= 1
    requires AllFree(c, n, peers, t)
    ensures PathFrom(cfg, run', c0, c') && AllFree(c', n, peers, t + 1)
    ensures AllGranting(c'.net, peers, |peers|, n)
    ensures c'.servers.Keys == c.servers.Keys && c.net <= c'.net
  {
    EmptyIsOk(peers, c.servers[n].node);
    var run1, c1 := Extend(cfg, c0, run, c, n, BeginElection);
    FreeUnder(c, c1, n, peers, t);
    var run2, c2 := AskAll(cfg, c0, run1, c1, n, peers, t + 1, 1);
    EmptyIsOk(peers, c2.servers[n].node);
    run', c' := Extend(cfg, c0, run2, c2, n, EndElection);
    FreeUnder(c2, c', n, peers, t + 1);
    StillGranting(c2.net, c'.net, peers, |peers|, n);
  }

  // ---------- an election on those votes ----------

  /** Candidate n has read a grant of each of its first peers. */
  ghost predicate Reading(c: Cluster, n: NodeId, peers: seq<NodeId>, s: NodeState) {
    && n in c.servers && Empty(s) && c.servers[n].node == s && c.servers[n].activity.Electing?
    && c.servers[n].activity.next <= |peers|
    && c.servers[n].activity.votes == 1 + c.servers[n].activity.next
    && AllGranting(c.net, peers, |peers|, n)
  }

  /** The new request is sent, but what is read is the old grant. */
  lemma ReadOne(cfg: Config, c0: Cluster, run: seq<Cluster>, c: Cluster, n: NodeId,
                peers: seq<NodeId>, s: NodeState)
    returns (run': seq<Cluster>, c': Cluster)
    requires !cfg.matchesReplies && Seated(cfg, n, peers) && PathFrom(cfg, run, c0, c)
    requires Reading(c, n, peers, s) && c.servers[n].activity.next < |peers|
    ensures PathFrom(cfg, run', c0, c') && Reading(c', n, peers, s) && OnlyTouched(c, c', n, n)
    ensures c'.servers[n].activity.next == c.servers[n].activity.next + 1 && c.net <= c'.net
  {
    var p := peers[c.servers[n].activity.next];
    EmptyIsOk(peers, s);
    assert Granting(c.net, p, n);
    var args, vote :| GrantIn(c.net, p, n, args, vote);
    var run1, c1 := Extend(cfg, c0, run, c, n, SendVoteRequest);
    assert VoteReply(p, args, vote) in c1.net;
    assert UnreadVote(c1.net, p, n, vote);
    run', c' := Extend(cfg, c0, run1, c1, n, TakeVote(Some(vote)));
    StillGranting(c.net, c'.net, peers, |peers|, n);
  }

  lemma {:induction false} ReadAll(cfg: Config, c0: Cluster, run: seq<Cluster>, c: Cluster,
                                   n: NodeId, peers: seq<NodeId>, s: NodeState)
    returns (run': seq<Cluster>, c': Cluster)
    requires !cfg.matchesReplies && Seated(cfg, n, peers) && PathFrom(cfg, run, c0, c)
    requires Reading(c, n, peers, s)
    ensures PathFrom(cfg, run', c0, c') && Reading(c', n, peers, s) && OnlyTouched(c, c', n, n)
    ensures c'.servers[n].activity.next == |peers| && c.net <= c'.net
    decreases |peers| - c.servers[n].activity.next
  {
    run', c' := run, c;
    if c.servers[n].activity.next < |peers| {
      run', c' := ReadOne(cfg, c0, run, c, n, peers, s);
      var c1 := c';
      run', c' := ReadAll(cfg, c0, run', c', n, peers, s);
      TouchedTwice(c, c1, c', n);
    }
  }

  /** n is elected in the next term by grants of an earlier one; nobody else takes part. */
  lemma ElectedByUnread(cfg: Config, c0: Cluster, run: seq<Cluster>, c: Cluster, n: NodeId,
                        peers: seq<NodeId>)
    returns (run': seq<Cluster>, c': Cluster)
    requires !cfg.matchesReplies && Seated(cfg, n, peers) && PathFrom(cfg, run, c0, c)
    requires n in c.servers && c.servers[n].activity.Idle? && Empty(c.servers[n].node)
    requires AllGranting(c.net, peers, |peers|, n)
    ensures PathFrom(cfg, run', c0, c') && OnlyTouched(c, c', n, n) && c.net <= c'.net
    ensures n in c'.servers && c'.servers[n].activity.Idle?
    ensures FreshLeader(peers, c'.servers[n].node)
    ensures c'.servers[n].node.currentTerm == c.servers[n].node.currentTerm + 1
  {
    EmptyIsOk(peers, c.servers[n].node);
    var run1, c1 := Extend(cfg, c0, run, c, n, BeginElection);
    var s := c1.servers[n].node;
    StillGranting(c.net, c1.net, peers, |peers|, n);
    var run2, c2 := ReadAll(cfg, c0, run1, c1, n, peers, s);
    EmptyIsOk(peers, s);
    WinnerIsFresh(peers, c2.servers[n]);
    run', c' := Extend(cfg, c0, run2, c2, n, EndElection);
    TouchedTwice(c, c1, c2, n);
    TouchedTwice(c, c2, c', n);
  }

  // ---------- two leaders of one term ----------

  ghost predicate Couple(cfg: Config, a: NodeId, peersA: seq<NodeId>, b: NodeId,
                         peersB: seq<NodeId>) {
    && Seated(cfg, a, peersA) && Seated(cfg, b, peersB) && a != b && b in peersA && a in peersB
    && (forall p :: p in peersA && p != b ==> p in peersB)
    && (forall p :: p in peersB && p != a ==> p in peersA)
    && NO_VOTE !in cfg.peers
  }

  /** Both are idle leaders of the term without entries; everybody else is free, in the term before. */
  ghost predicate TwoLead(c: Cluster, a: NodeId, peersA: seq<NodeId>, b: NodeId,
                          peersB: seq<NodeId>, t: nat) {
    && t > 0 && a in c.servers && b in c.servers
    && c.servers[a].activity.Idle? && FreshLeader(peersA, c.servers[a].node)
    && c.servers[b].activity.Idle? && FreshLeader(peersB, c.servers[b].node)
    && c.servers[a].node.currentTerm == t && c.servers[b].node.currentTerm == t
    && forall p :: p in peersA && p != b ==> Free(c, p, t - 1)
  }

  lemma FreeForOther(c: Cluster, a: NodeId, peersA: seq<NodeId>, b: NodeId, peersB: seq<NodeId>,
                     t: nat)
    requires AllFree(c, a, peersA, t) && b in peersA && b !in peersB
    requires forall p :: p in peersB && p != a ==> p in peersA
    ensures AllFree(c, b, peersB, t)
  {
    forall p | p in peersA ensures Free(c, p, t) {
      var i :| 0 <= i < |peersA| && peersA[i] == p;
    }
  }

  /** Everybody votes for a in term 1 and for b in term 2; both are elected in term 3. */
  lemma TwoLeaders(cfg: Config, c0: Cluster, a: NodeId, peersA: seq<NodeId>, b: NodeId,
                   peersB: seq<NodeId>)
    returns (run: seq<Cluster>, c: Cluster)
    requires !cfg.matchesReplies && Init(cfg, c0) && Couple(cfg, a, peersA, b, peersB)
    ensures PathFrom(cfg, run, c0, c) && c.servers.Keys == cfg.peers.Keys
    ensures TwoLead(c, a, peersA, b, peersB, 3)
  {
    assert PathFrom(cfg, [c0], c0, c0);
    assert forall p :: p in cfg.peers ==> Free(c0, p, 0);
    var run1, c1 := StandUnread(cfg, c0, [c0], c0, a, peersA, 0);
    FreeForOther(c1, a, peersA, b, peersB, 1);
    var run2, c2 := StandUnread(cfg, c0, run1, c1, b, peersB, 1);
    StillGranting(c1.net, c2.net, peersA, |peersA|, a);
    FreeForOther(c2, b, peersB, a, peersA, 2);
    run, c := BothElected(cfg, c0, run2, c2, a, peersA, b, peersB);
  }

  lemma BothElected(cfg: Config, c0: Cluster, run: seq<Cluster>, c: Cluster, a: NodeId,
                    peersA: seq<NodeId>, b: NodeId, peersB: seq<NodeId>)
    returns (run': seq<Cluster>, c': Cluster)
    requires !cfg.matchesReplies && Couple(cfg, a, peersA, b, peersB) && PathFrom(cfg, run, c0, c)
    requires AllFree(c, a, peersA, 2)
    requires AllGranting(c.net, peersA, |peersA|, a) && AllGranting(c.net, peersB, |peersB|, b)
    ensures PathFrom(cfg, run', c0, c') && c'.servers.Keys == c.servers.Keys
    ensures TwoLead(c', a, peersA, b, peersB, 3)
  {
    var i :| 0 <= i < |peersA| && peersA[i] == b;
    assert Free(c, b, 2);
    var run1, c1 := ElectedByUnread(cfg, c0, run, c, a, peersA);
    assert Untouched(c, c1, b);
    StillGranting(c.net, c1.net, peersB, |peersB|, b);
    run', c' := ElectedByUnread(cfg, c0, run1, c1, b, peersB);
    assert Untouched(c1, c', a);
    forall p | p in peersA && p != b ensures Free(c', p, 2) {
      var j :| 0 <= j < |peersA| && peersA[j] == p;
      assert Free(c, peersA[j], 2) && Untouched(c, c1, p) && Untouched(c1, c', p);
    }
  }

  // ---------- both apply their own entry ----------

  /** A server of the term with one own entry, applied or not. */
  ghost predicate Rival(peers: seq<NodeId>, s: NodeState, log: Log, term: nat) {
    && LocalOk(peers, s) && s.log == log && |log| == 2 && log[1].term == term
    && s.currentTerm == term
    && s.lastApplied == s.commitIndex <= 1 && s.store == StoreAfter(log, s.lastApplied)
  }

  /** A request of another leader of the same term about a log that differs in that entry only. */
  ghost predicate RivalRequest(args: AppendEntriesArgs, log: Log, term: nat)
    requires |log| == 2
  {
    && Numbered(args) && args.term == term && args.leaderCommit <= 1
    && args.prevLogIndex + |args.entries| <= 1
    && args.prevLogTerm == log[args.prevLogIndex].term
    && forall i :: 0 <= i < |args.entries| ==> args.entries[i].term == term
  }

  /** The terms agree, so the entry counts as the other leader's; once that one has committed its
      entry, this one is committed in its place. */
  lemma RivalCall(peers: seq<NodeId>, s: NodeState, args: AppendEntriesArgs, log: Log, term: nat)
    requires Rival(peers, s, log, term) && RivalRequest(args, log, term)
    ensures var (s', reply) := HandleAppendEntries(s, args);
            && reply == AppendEntriesReply(term, true)
            && Rival(peers, s', log, term)
            && (args.leaderCommit == 1 ==> s'.lastApplied == 1)
  {
    MergeUnchanged(log, args.prevLogIndex, args.entries);
    HandleAppendEntriesKeepsLocalOk(peers, s, args);
    if s.lastApplied == 0 {
      ApplyFirst(s);
      ApplyFirst(s.(role := Follower));
    }
  }

  lemma FreshCall(s: NodeState, args: AppendEntriesArgs)
    requires Empty(s) && s.currentTerm <= args.term && Numbered(args)
    requires args.prevLogIndex == 0 && args.prevLogTerm == 0
    ensures HandleAppendEntries(s, args).1 == AppendEntriesReply(args.term, true)
  {
  }

  /** Leader a is in a round; rival b has its own entry; the peers not yet called are free. */
  ghost predicate Replicating(cfg: Config, c: Cluster, a: NodeId, peersA: seq<NodeId>, b: NodeId,
                              logA: Log, logB: Log, t: nat) {
    && a in c.servers && c.servers[a].activity.Heartbeating? && c.servers[a].node.currentTerm == t
    && Leading(peersA, c.servers[a].node, c.servers[a].activity.next, NO_VOTE, logA)
    && b in cfg.peers && b in c.servers && c.servers[b].activity.Idle?
    && Rival(cfg.peers[b], c.servers[b].node, logB, t)
    && t > 0 && RestFree(c, peersA, c.servers[a].activity.next, b, t - 1)
  }

  ghost predicate RestFree(c: Cluster, peers: seq<NodeId>, from: nat, b: NodeId, t: nat) {
    forall i :: from <= i < |peers| && peers[i] != b ==> Free(c, peers[i], t)
  }

  lemma StillRestFree(c: Cluster, c': Cluster, a: NodeId, peers: seq<NodeId>, next: nat, b: NodeId,
                      t: nat)
    requires Distinct(peers) && a !in peers && next < |peers|
    requires RestFree(c, peers, next, b, t) && OnlyTouched(c, c', a, peers[next])
    ensures RestFree(c', peers, next + 1, b, t)
  {
    forall i | next + 1 <= i < |peers| && peers[i] != b ensures Free(c', peers[i], t) {
      assert Free(c, peers[i], t) && Untouched(c, c', peers[i]);
    }
  }

  /** The request a leader builds about its one entry. */
  lemma RequestOfOne(sendsEntries: bool, a: NodeId, s: NodeState, p: NodeId, peers: seq<NodeId>,
                     logB: Log)
    returns (args: AppendEntriesArgs)
    requires LocalOk(peers, s) && s.role == Leader && p in peers && |s.log| == 2
    requires s.log[1].term == s.currentTerm && s.commitIndex <= 1
    requires |logB| == 2 && logB[0] == DUMMY && logB[1].term == s.currentTerm
    ensures IsAppendArgs(sendsEntries, a, s, p, args) && Numbered(args)
    ensures RivalRequest(args, logB, s.currentTerm) && args.leaderCommit == s.commitIndex
    ensures s.nextIndex[p] == 1 ==> args.prevLogIndex == 0 && args.prevLogTerm == 0
  {
    assert p in SeqSet(peers);
    args := AppendArgs(sendsEntries, a, s, p);
  }

  lemma CallRival(cfg: Config, c0: Cluster, run: seq<Cluster>, c: Cluster, a: NodeId,
                  peersA: seq<NodeId>, b: NodeId, logA: Log, logB: Log, t: nat)
    returns (run': seq<Cluster>, c': Cluster)
    requires Seated(cfg, a, peersA) && PathFrom(cfg, run, c0, c) && NO_VOTE !in cfg.peers
    requires Replicating(cfg, c, a, peersA, b, logA, logB, t)
    requires c.servers[a].activity.next < |peersA| && peersA[c.servers[a].activity.next] == b
    ensures PathFrom(cfg, run', c0, c') && Replicating(cfg, c', a, peersA, b, logA, logB, t)
    ensures c'.servers[a].activity.next == c.servers[a].activity.next + 1
    ensures c'.servers.Keys == c.servers.Keys
  {
    var s, f, next := c.servers[a].node, c.servers[b].node, c.servers[a].activity.next;
    var args := RequestOfOne(cfg.sendsEntries, a, s, b, peersA, logB);
    RivalCall(cfg.peers[b], f, args, logB, t);
    var s' := AckCounts(peersA, s, next, NO_VOTE, logA);
    run', c' := DeliverAppend(cfg, c0, run, c, a, b, args);
    StillReplicating(cfg, c, c', a, peersA, b, logA, logB, t, next, s');
  }

  lemma StillReplicating(cfg: Config, c: Cluster, c': Cluster, a: NodeId, peersA: seq<NodeId>,
                         b: NodeId, logA: Log, logB: Log, t: nat, next: nat, s': NodeState)
    requires Distinct(peersA) && a !in peersA && next < |peersA| && t > 0
    requires RestFree(c, peersA, next, b, t - 1) && OnlyTouched(c, c', a, peersA[next])
    requires a in c'.servers && c'.servers[a] == Server(s', Heartbeating(next + 1))
    requires s'.currentTerm == t && Leading(peersA, s', next + 1, NO_VOTE, logA)
    requires b in cfg.peers && b in c'.servers && c'.servers[b].activity.Idle?
    requires Rival(cfg.peers[b], c'.servers[b].node, logB, t)
    ensures Replicating(cfg, c', a, peersA, b, logA, logB, t)
  {
    StillRestFree(c, c', a, peersA, next, b, t - 1);
  }

  lemma CallFree(cfg: Config, c0: Cluster, run: seq<Cluster>, c: Cluster, a: NodeId,
                 peersA: seq<NodeId>, b: NodeId, logA: Log, logB: Log, t: nat)
    returns (run': seq<Cluster>, c': Cluster)
    requires Seated(cfg, a, peersA) && PathFrom(cfg, run, c0, c) && NO_VOTE !in cfg.peers
    requires Replicating(cfg, c, a, peersA, b, logA, logB, t) && a != b
    requires c.servers[a].activity.next < |peersA| && peersA[c.servers[a].activity.next] != b
    ensures PathFrom(cfg, run', c0, c') && Replicating(cfg, c', a, peersA, b, logA, logB, t)
    ensures c'.servers[a].activity.next == c.servers[a].activity.next + 1
    ensures c'.servers.Keys == c.servers.Keys
  {
    var s, next := c.servers[a].node, c.servers[a].activity.next;
    var p := peersA[next];
    assert Free(c, p, t - 1) && AtOne(s.nextIndex, p);
    var args := RequestOfOne(cfg.sendsEntries, a, s, p, peersA, logA);
    EmptyIsOk(cfg.peers[p], c.servers[p].node);
    FreshCall(c.servers[p].node, args);
    var s' := AckCounts(peersA, s, next, NO_VOTE, logA);
    run', c' := DeliverAppend(cfg, c0, run, c, a, p, args);
    StillReplicating(cfg, c, c', a, peersA, b, logA, logB, t, next, s');
  }

  lemma {:induction false} CallAll(cfg: Config, c0: Cluster, run: seq<Cluster>, c: Cluster,
                                   a: NodeId, peersA: seq<NodeId>, b: NodeId, logA: Log,
                                   logB: Log, t: nat)
    returns (run': seq<Cluster>, c': Cluster)
    requires Seated(cfg, a, peersA) && PathFrom(cfg, run, c0, c) && NO_VOTE !in cfg.peers
    requires Replicating(cfg, c, a, peersA, b, logA, logB, t) && a != b
    ensures PathFrom(cfg, run', c0, c') && Replicating(cfg, c', a, peersA, b, logA, logB, t)
    ensures c'.servers[a].activity.next == |peersA| && c'.servers.Keys == c.servers.Keys
    decreases |peersA| - c.servers[a].activity.next
  {
    run', c' := run, c;
    if c.servers[a].activity.next < |peersA| {
      if peersA[c.servers[a].activity.next] == b {
        run', c' := CallRival(cfg, c0, run, c, a, peersA, b, logA, logB, t);
      } else {
        run', c' := CallFree(cfg, c0, run, c, a, peersA, b, logA, logB, t);
      }
      run', c' := CallAll(cfg, c0, run', c', a, peersA, b, logA, logB, t);
    }
  }

  /** Both leaders take one entry, and a begins a round. */
  lemma BothSubmit(cfg: Config, c0: Cluster, run: seq<Cluster>, c: Cluster, a: NodeId,
                   peersA: seq<NodeId>, b: NodeId, peersB: seq<NodeId>, t: nat, key: string,
                   valueA: string, valueB: string)
    returns (run': seq<Cluster>, c': Cluster)
    requires Couple(cfg, a, peersA, b, peersB) && PathFrom(cfg, run, c0, c)
    requires TwoLead(c, a, peersA, b, peersB, t)
    ensures PathFrom(cfg, run', c0, c') && c'.servers.Keys == c.servers.Keys
    ensures Replicating(cfg, c', a, peersA, b, [DUMMY, LogEntry(t, 1, key, valueA)],
                        [DUMMY, LogEntry(t, 1, key, valueB)], t)
  {
    SubmittedLeads(peersA, c.servers[a].node, NO_VOTE, key, valueA);
    SubmittedLeads(peersB, c.servers[b].node, NO_VOTE, key, valueB);
    var run1, c1 := Extend(cfg, c0, run, c, a, Submit(key, valueA));
    var run2, c2 := Extend(cfg, c0, run1, c1, b, Submit(key, valueB));
    run', c' := Extend(cfg, c0, run2, c2, a, BeginHeartbeat);
    forall i | 0 <= i < |peersA| && peersA[i] != b ensures Free(c', peersA[i], t - 1) {
      assert peersA[i] in peersA && Free(c, peersA[i], t - 1);
    }
  }

  /** In the next round a tells b that index 1 is committed. */
  lemma TellRival(cfg: Config, c0: Cluster, run: seq<Cluster>, c: Cluster, a: NodeId,
                  peersA: seq<NodeId>, b: NodeId, logA: Log, logB: Log, t: nat)
    returns (run': seq<Cluster>, c': Cluster)
    requires Seated(cfg, a, peersA) && PathFrom(cfg, run, c0, c) && b in peersA && a != b
    requires Replicating(cfg, c, a, peersA, b, logA, logB, t)
    requires c.servers[a].activity.next == |peersA| && c.servers[a].node.lastApplied == 1
    ensures PathFrom(cfg, run', c0, c') && c'.servers.Keys == c.servers.Keys
    ensures a in c'.servers && c'.servers[a].node == c.servers[a].node
    ensures b in c'.servers && Rival(cfg.peers[b], c'.servers[b].node, logB, t)
    ensures c'.servers[b].node.lastApplied == 1
  {
    var s := c.servers[a].node;
    var i :| 0 <= i < |peersA| && peersA[i] == b;
    var run1, c1 := Extend(cfg, c0, run, c, a, EndHeartbeat);
    var run2, c2 := Extend(cfg, c0, run1, c1, a, BeginHeartbeat);
    var run3, c3 := MissAcks(cfg, c0, run2, c2, a, i);
    var args := RequestOfOne(cfg.sendsEntries, a, s, b, peersA, logB);
    RivalCall(cfg.peers[b], c.servers[b].node, args, logB, t);
    run', c' := SendTo(cfg, c0, run3, c3, a, b, args);
  }

  lemma SendTo(cfg: Config, c0: Cluster, run: seq<Cluster>, c: Cluster, n: NodeId, p: NodeId,
               args: AppendEntriesArgs)
    returns (run': seq<Cluster>, c': Cluster)
    requires Ready(cfg, c0, run, c, n) && ReadyPeer(cfg, c, n, p)
    requires c.servers[n].activity.Heartbeating? && c.servers[n].node.role == Leader
    requires c.servers[n].activity.next < |cfg.peers[n]|
    requires cfg.peers[n][c.servers[n].activity.next] == p
    requires IsAppendArgs(cfg.sendsEntries, n, c.servers[n].node, p, args) && Numbered(args)
    ensures PathFrom(cfg, run', c0, c')
    ensures c'.servers
         == c.servers[p := Server(HandleAppendEntries(c.servers[p].node, args).0, Idle)]
  {
    var run1, c1 := Extend(cfg, c0, run, c, n, SendAppendRequest);
    run', c' := Extend(cfg, c0, run1, c1, p, ReceiveAppendRequest(args));
  }

  lemma Disagree(cfg: Config, c0: Cluster, run: seq<Cluster>, c: Cluster, a: NodeId,
                 peersA: seq<NodeId>, b: NodeId, peersB: seq<NodeId>, t: nat, key: string,
                 valueA: string, valueB: string)
    returns (run': seq<Cluster>, c': Cluster)
    requires Couple(cfg, a, peersA, b, peersB) && PathFrom(cfg, run, c0, c)
    requires TwoLead(c, a, peersA, b, peersB, t)
    ensures PathFrom(cfg, run', c0, c') && c'.servers.Keys == c.servers.Keys
    ensures a in c'.servers && AppliedOne(c'.servers[a].node, LogEntry(t, 1, key, valueA))
    ensures b in c'.servers && AppliedOne(c'.servers[b].node, LogEntry(t, 1, key, valueB))
  {
    var logA, logB := [DUMMY, LogEntry(t, 1, key, valueA)], [DUMMY, LogEntry(t, 1, key, valueB)];
    var run1, c1 := BothSubmit(cfg, c0, run, c, a, peersA, b, peersB, t, key, valueA, valueB);
    var run2, c2 := CallAll(cfg, c0, run1, c1, a, peersA, b, logA, logB, t);
    ReachedAll(peersA, |peersA|, NO_VOTE);
    run', c' := TellRival(cfg, c0, run2, c2, a, peersA, b, logA, logB, t);
  }

  // ---------- the runs ----------

  lemma CoupleOf(cfg: Config, a: NodeId, b: NodeId)
    returns (peersA: seq<NodeId>, peersB: seq<NodeId>)
    requires ValidConfig(cfg) && a in cfg.peers && b in cfg.peers && a != b
    ensures Couple(cfg, a, peersA, b, peersB)
  {
    peersA := HasSeat(cfg, a);
    peersB := HasSeat(cfg, b);
    forall p | p in peersA ensures p in cfg.peers {
      var i :| 0 <= i < |peersA| && peersA[i] == p;
    }
    forall p | p in peersB ensures p in cfg.peers {
      var i :| 0 <= i < |peersB| && peersB[i] == p;
    }
  }

  /** Without matching, any two servers of any cluster can both lead term 3. */
  lemma UnmatchedElectsTwo(cfg: Config, a: NodeId, b: NodeId) returns (run: seq<Cluster>)
    requires ValidConfig(cfg) && !cfg.matchesReplies
    requires a in cfg.peers && b in cfg.peers && a != b
    ensures IsRun(cfg, run)
    ensures var last := run[|run| - 1];
            && last.servers.Keys == cfg.peers.Keys
            && last.servers[a].node.role == Leader && last.servers[a].node.currentTerm == 3
            && last.servers[b].node.role == Leader && last.servers[b].node.currentTerm == 3
  {
    var peersA, peersB := CoupleOf(cfg, a, b);
    var c0 := Cluster(map n | n in cfg.peers :: INITIAL, {});
    var c;
    run, c := TwoLeaders(cfg, c0, a, peersA, b, peersB);
  }

  /** And both can apply an entry of their own at index 1, with or without entries in the requests:
      for different values their stores differ. */
  lemma UnmatchedViolatesStateMachineSafety(cfg: Config, a: NodeId, b: NodeId, key: string,
                                            valueA: string, valueB: string)
    returns (run: seq<Cluster>)
    requires ValidConfig(cfg) && !cfg.matchesReplies
    requires a in cfg.peers && b in cfg.peers && a != b
    ensures IsRun(cfg, run)
    ensures var last := run[|run| - 1];
            && last.servers.Keys == cfg.peers.Keys
            && AppliedOne(last.servers[a].node, LogEntry(3, 1, key, valueA))
            && AppliedOne(last.servers[b].node, LogEntry(3, 1, key, valueB))
  {
    var peersA, peersB := CoupleOf(cfg, a, b);
    var c0 := Cluster(map n | n in cfg.peers :: INITIAL, {});
    var run1, c1 := TwoLeaders(cfg, c0, a, peersA, b, peersB);
    var c;
    run, c := Disagree(cfg, c0, run1, c1, a, peersA, b, peersB, 3, key, valueA, valueB);
  }
}
