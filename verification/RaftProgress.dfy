/** What a cluster can still do from any state it can reach: a server whose log is recent enough can be
    elected, its commands committed and every server brought to apply them. So the cluster is
    never stuck, unless it consists of a single server. */
module RaftProgress {
  import opened RaftTypes
  import opened CommitRule
  import opened RaftSteps
  import opened RaftAnswers
  import opened RaftCluster
  import opened RaftHistory
  import opened RaftRuns
  import opened RaftSafety
  import opened RaftReplies
  import opened RaftElectors
  import opened RaftCatchUp
  import opened RaftPaths
  import opened RaftConvergence
  import opened RaftCommitProgress

  ghost function Now(run: seq<Cluster>): Cluster
    requires |run| > 0
  {
    run[|run| - 1]
  }

  ghost function NodeNow(run: seq<Cluster>, n: NodeId): NodeState
    requires |run| > 0 && n in Now(run).servers
  {
    Now(run).servers[n].node
  }

  ghost predicate Leads(run: seq<Cluster>, n: NodeId) {
    |run| > 0 && LeadsAt(run, |run| - 1, n)
  }

  ghost predicate Idles(run: seq<Cluster>, n: NodeId) {
    |run| > 0 && n in Now(run).servers && Now(run).servers[n].activity.Idle?
  }

  /** The run goes on by any enabled action. */
  lemma Act(cfg: Config, run: seq<Cluster>, n: NodeId, action: Action) returns (run': seq<Cluster>)
    requires Running(cfg, run) && Enabled(cfg, Now(run), n, action)
    ensures Running(cfg, run') && run <= run'
    ensures Safe(cfg, Now(run), n, action) && Now(run') == Perform(cfg, Now(run), n, action)
  {
    AccessesStayInRange(cfg, run, |run| - 1, n, action);
    RunIsPath(cfg, run);
    var c';
    run', c' := Extend(cfg, run[0], run, Now(run), n, action);
    PathIsRun(cfg, run', c');
  }

  // ---------- what stays the same meanwhile ----------

  /** Only the given servers have moved, and nobody's log has changed. */
  ghost predicate OnlyMoved(run: seq<Cluster>, run': seq<Cluster>, moved: set<NodeId>) {
    && |run| > 0 && run <= run' && Now(run').servers.Keys == Now(run).servers.Keys
    && forall q :: q in Now(run).servers ==> Moved(Now(run), Now(run'), moved, q)
  }

  ghost predicate Moved(c: Cluster, c': Cluster, moved: set<NodeId>, q: NodeId)
    requires q in c.servers && q in c'.servers
  {
    && c'.servers[q].node.log == c.servers[q].node.log
    && (q !in moved ==> c'.servers[q] == c.servers[q])
  }

  lemma MovedTwice(a: seq<Cluster>, b: seq<Cluster>, c: seq<Cluster>, m: set<NodeId>,
                   m': set<NodeId>, all: set<NodeId>)
    requires OnlyMoved(a, b, m) && OnlyMoved(b, c, m') && m <= all && m' <= all
    ensures OnlyMoved(a, c, all)
  {
    forall q | q in Now(a).servers ensures Moved(Now(a), Now(c), all, q) {
      assert Moved(Now(a), Now(b), m, q) && Moved(Now(b), Now(c), m', q);
    }
  }

  lemma MembersPresent(cfg: Config, run: seq<Cluster>)
    requires Running(cfg, run)
    ensures Now(run).servers.Keys == cfg.peers.Keys
  {
    var hs := RunHistory(cfg, run);
    assert Inv(cfg, run[|run| - 1], hs[|run| - 1]);
  }

  // ---------- coming to rest ----------

  lemma Rest(cfg: Config, run: seq<Cluster>, n: NodeId) returns (run': seq<Cluster>)
    requires Running(cfg, run) && n in Now(run).servers
    ensures Running(cfg, run') && OnlyMoved(run, run', {n}) && Idles(run', n)
    ensures NodeNow(run', n).currentTerm == NodeNow(run, n).currentTerm
  {
    run' := Settle(cfg, run, n);
  }

  lemma {:induction false} RestAll(cfg: Config, run: seq<Cluster>, ps: set<NodeId>)
    returns (run': seq<Cluster>)
    requires Running(cfg, run) && ps <= Now(run).servers.Keys
    ensures Running(cfg, run') && OnlyMoved(run, run', ps)
    ensures forall q :: q in ps ==>
              Idles(run', q) && NodeNow(run', q).currentTerm == NodeNow(run, q).currentTerm
    decreases |ps|
  {
    run' := run;
    if ps != {} {
      var p :| p in ps;
      var run1 := Rest(cfg, run, p);
      run' := RestAll(cfg, run1, ps - {p});
      MovedTwice(run, run1, run', {p}, ps - {p}, ps);
      assert forall q :: q in ps ==> Moved(Now(run), Now(run1), {p}, q);
      assert Moved(Now(run1), Now(run'), ps - {p}, p);
    }
  }

  // ---------- standing in vain ----------

  lemma {:induction false} MissVotes(cfg: Config, run: seq<Cluster>, n: NodeId)
    returns (run': seq<Cluster>)
    requires Running(cfg, run) && n in Now(run).servers && n in cfg.peers
    requires Now(run).servers[n].activity.Electing?
    requires Now(run).servers[n].activity.next <= |cfg.peers[n]|
    ensures Running(cfg, run') && run <= run'
    ensures var sv := Now(run).servers[n];
            Now(run').servers
            == Now(run).servers[n := Server(sv.node, Electing(|cfg.peers[n]|, sv.activity.votes))]
    decreases |cfg.peers[n]| - Now(run).servers[n].activity.next
  {
    run' := run;
    if Now(run).servers[n].activity.next < |cfg.peers[n]| {
      LastFacts(cfg, run, n);
      var run1 := Act(cfg, run, n, TakeVote(None));
      run' := MissVotes(cfg, run1, n);
    } else {
      assert Now(run).servers[n := Now(run).servers[n]] == Now(run).servers;
    }
  }

  /** A server with peers that stands and reaches none of them is in the next term and not elected. */
  lemma StandInVain(cfg: Config, run: seq<Cluster>, n: NodeId) returns (run': seq<Cluster>)
    requires Running(cfg, run) && Idles(run, n) && NodeNow(run, n).role != Leader
    requires n in cfg.peers && |cfg.peers[n]| > 0
    ensures Running(cfg, run') && OnlyMoved(run, run', {n}) && Idles(run', n)
    ensures NodeNow(run', n).role != Leader
    ensures NodeNow(run', n).currentTerm == NodeNow(run, n).currentTerm + 1
  {
    var run1 := Act(cfg, run, n, BeginElection);
    var run2 := MissVotes(cfg, run1, n);
    run' := Act(cfg, run2, n, EndElection);
  }

  lemma {:induction false} StandUntil(cfg: Config, run: seq<Cluster>, n: NodeId, term: nat)
    returns (run': seq<Cluster>)
    requires Running(cfg, run) && Idles(run, n) && NodeNow(run, n).role != Leader
    requires n in cfg.peers && (NodeNow(run, n).currentTerm < term ==> |cfg.peers[n]| > 0)
    ensures Running(cfg, run') && OnlyMoved(run, run', {n}) && Idles(run', n)
    ensures NodeNow(run', n).role != Leader && NodeNow(run', n).currentTerm >= term
    ensures NodeNow(run', n).currentTerm >= NodeNow(run, n).currentTerm
    decreases term - NodeNow(run, n).currentTerm
  {
    run' := run;
    if NodeNow(run, n).currentTerm < term {
      var run1 := StandInVain(cfg, run, n);
      run' := StandUntil(cfg, run1, n, term);
      MovedTwice(run, run1, run', {n}, {n}, {n});
    }
  }

  // ---------- a leader that is behind ----------

  /** A leader whose call reaches a peer of a later term becomes a follower of that term. */
  lemma Depose(cfg: Config, run: seq<Cluster>, n: NodeId, p: NodeId) returns (run': seq<Cluster>)
    requires Running(cfg, run) && Idles(run, n) && Leads(run, n) && Idles(run, p) && n != p
    requires n in cfg.peers && p in cfg.peers
    requires NodeNow(run, p).currentTerm > NodeNow(run, n).currentTerm
    ensures Running(cfg, run') && OnlyMoved(run, run', {n}) && Idles(run', n)
    ensures NodeNow(run', n).role == Follower
    ensures NodeNow(run', n).currentTerm == NodeNow(run, p).currentTerm
  {
    var peers := cfg.peers[n];
    assert p in SeqSet(peers);
    var i :| 0 <= i < |peers| && peers[i] == p;
    LastFacts(cfg, run, n);
    LastFacts(cfg, run, p);
    RunIsPath(cfg, run);
    var run1, c1 := Extend(cfg, run[0], run, Now(run), n, BeginHeartbeat);
    var run2, c2 := MissAcks(cfg, run[0], run1, c1, n, i);
    var args := AppendArgs(cfg.sendsEntries, n, NodeNow(run, n), p);
    AppendAnswered(NodeNow(run, p), args);
    var c3;
    run', c3 := DeliverAppend(cfg, run[0], run2, c2, n, p, args);
    PathIsRun(cfg, run', c3);
    assert HandleAppendEntries(NodeNow(run, p), args).0 == NodeNow(run, p);
  }

  // ---------- an election ----------

  /** Candidate n, in state s, has the votes of the voters among its first peers; the other voters
      are still behind. */
  ghost predicate Polled(cfg: Config, run: seq<Cluster>, n: NodeId, voters: set<NodeId>,
                         s: NodeState, next: nat) {
    && |run| > 0 && n in cfg.peers && n in Now(run).servers && n !in voters
    && next <= |cfg.peers[n]|
    && Now(run).servers[n]
       == Server(s, Electing(next, 1 + |voters * SeqSet(cfg.peers[n][..next])|))
    && forall q :: q in voters ==> VoterReady(run, q, s, q in cfg.peers[n][..next])
  }

  ghost predicate VoterReady(run: seq<Cluster>, q: NodeId, s: NodeState, voted: bool) {
    && Idles(run, q) && AtLeastAsRecentAs(s, NodeNow(run, q))
    && if voted then NodeNow(run, q).currentTerm == s.currentTerm
       else NodeNow(run, q).currentTerm < s.currentTerm
  }

  lemma AskVoter(cfg: Config, run: seq<Cluster>, n: NodeId, p: NodeId, s: NodeState, votes: nat)
    returns (run': seq<Cluster>)
    requires Running(cfg, run) && n in cfg.peers && n in Now(run).servers && n != p
    requires Now(run).servers[n].activity.Electing? && p in cfg.peers
    requires var next := Now(run).servers[n].activity.next;
             && next < |cfg.peers[n]| && cfg.peers[n][next] == p
             && Now(run).servers[n] == Server(s, Electing(next, votes))
    requires VoterReady(run, p, s, false)
    ensures Running(cfg, run') && OnlyMoved(run, run', {n, p}) && n in Now(run').servers
    ensures Now(run').servers[n]
         == Server(s, Electing(Now(run).servers[n].activity.next + 1, votes + 1))
    ensures VoterReady(run', p, s, true)
  {
    LastFacts(cfg, run, n);
    LastFacts(cfg, run, p);
    var args := VoteArgs(n, s);
    VoteAnswered(NodeNow(run, p), args);
    RunIsPath(cfg, run);
    var c';
    run', c' := DeliverVote(cfg, run[0], run, Now(run), n, p);
    PathIsRun(cfg, run', c');
  }

  lemma VotesNext(voters: set<NodeId>, peers: seq<NodeId>, next: nat)
    requires Distinct(peers) && next < |peers|
    ensures |voters * SeqSet(peers[..next + 1])|
         == |voters * SeqSet(peers[..next])| + if peers[next] in voters then 1 else 0
  {
    var p := peers[next];
    assert p !in peers[..next] && peers[..next + 1] == peers[..next] + [p];
    var before, after := voters * SeqSet(peers[..next]), voters * SeqSet(peers[..next + 1]);
    if p in voters {
      assert after == before + {p};
    } else {
      assert after == before;
    }
  }

  /** Voters that did not move are as ready as before. */
  lemma StillReady(run: seq<Cluster>, run': seq<Cluster>, moved: set<NodeId>, voters: set<NodeId>,
                   s: NodeState, peers: seq<NodeId>, next: nat)
    requires OnlyMoved(run, run', moved) && next < |peers|
    requires forall q :: q in voters ==> VoterReady(run, q, s, q in peers[..next])
    requires peers[next] in voters ==> VoterReady(run', peers[next], s, true)
    requires forall q :: q in moved && q in voters ==> q == peers[next]
    ensures forall q :: q in voters ==> VoterReady(run', q, s, q in peers[..next + 1])
  {
    assert peers[..next + 1] == peers[..next] + [peers[next]];
    forall q | q in voters && q != peers[next]
      ensures VoterReady(run', q, s, q in peers[..next + 1])
    {
      assert VoterReady(run, q, s, q in peers[..next]) && Moved(Now(run), Now(run'), moved, q);
    }
  }

  lemma PolledNext(cfg: Config, run: seq<Cluster>, run': seq<Cluster>, moved: set<NodeId>, n: NodeId,
                   voters: set<NodeId>, s: NodeState, next: nat)
    requires Polled(cfg, run, n, voters, s, next) && next < |cfg.peers[n]| && Distinct(cfg.peers[n])
    requires var p := cfg.peers[n][next];
             && OnlyMoved(run, run', moved) && moved <= {n, p}
             && (p in voters ==> VoterReady(run', p, s, true))
             && n in Now(run').servers
             && Now(run').servers[n]
                == Server(s, Electing(next + 1, 1 + |voters * SeqSet(cfg.peers[n][..next])|
                                                  + if p in voters then 1 else 0))
    ensures OnlyMoved(run, run', {n} + voters + moved)
    ensures Polled(cfg, run', n, voters, s, next + 1)
  {
    VotesNext(voters, cfg.peers[n], next);
    StillReady(run, run', moved, voters, s, cfg.peers[n], next);
    MovedMore(run, run', moved, {n} + voters + moved);
  }

  lemma CanvassOne(cfg: Config, run: seq<Cluster>, n: NodeId, voters: set<NodeId>, s: NodeState,
                   next: nat)
    returns (run': seq<Cluster>)
    requires Running(cfg, run) && Polled(cfg, run, n, voters, s, next) && next < |cfg.peers[n]|
    ensures Running(cfg, run') && OnlyMoved(run, run', voters + {n})
    ensures Polled(cfg, run', n, voters, s, next + 1)
  {
    SeatOf(cfg, n);
    var p, votes := cfg.peers[n][next], 1 + |voters * SeqSet(cfg.peers[n][..next])|;
    assert p in SeqSet(cfg.peers[n]);
    if p in voters {
      assert p !in cfg.peers[n][..next] && VoterReady(run, p, s, false);
      run' := AskVoter(cfg, run, n, p, s, votes);
      PolledNext(cfg, run, run', {n, p}, n, voters, s, next);
      assert {n} + voters + {n, p} == voters + {n};
    } else {
      run' := SkipPeer(cfg, run, n, s, next, votes);
      PolledNext(cfg, run, run', {n}, n, voters, s, next);
      assert {n} + voters + {n} == voters + {n};
    }
  }

  lemma MovedMore(run: seq<Cluster>, run': seq<Cluster>, moved: set<NodeId>, all: set<NodeId>)
    requires OnlyMoved(run, run', moved) && moved <= all
    ensures OnlyMoved(run, run', all)
  {
    forall q | q in Now(run).servers ensures Moved(Now(run), Now(run'), all, q) {
      assert Moved(Now(run), Now(run'), moved, q);
    }
  }

  lemma SkipPeer(cfg: Config, run: seq<Cluster>, n: NodeId, s: NodeState, next: nat, votes: nat)
    returns (run': seq<Cluster>)
    requires Running(cfg, run) && n in cfg.peers && n in Now(run).servers
    requires Now(run).servers[n] == Server(s, Electing(next, votes)) && next < |cfg.peers[n]|
    ensures Running(cfg, run') && OnlyMoved(run, run', {n}) && n in Now(run').servers
    ensures Now(run').servers[n] == Server(s, Electing(next + 1, votes))
  {
    LastFacts(cfg, run, n);
    run' := Act(cfg, run, n, TakeVote(None));
  }

  /** The poll goes on from a run in which only n and the voters have moved. */
  ghost predicate Polling(cfg: Config, start: seq<Cluster>, run: seq<Cluster>, n: NodeId,
                          voters: set<NodeId>, s: NodeState, next: nat) {
    Running(cfg, run) && OnlyMoved(start, run, voters + {n}) && Polled(cfg, run, n, voters, s, next)
  }

  lemma PollNext(cfg: Config, start: seq<Cluster>, run: seq<Cluster>, n: NodeId,
                 voters: set<NodeId>, s: NodeState, next: nat)
    returns (run': seq<Cluster>)
    requires Polling(cfg, start, run, n, voters, s, next) && next < |cfg.peers[n]|
    ensures Polling(cfg, start, run', n, voters, s, next + 1)
  {
    run' := CanvassOne(cfg, run, n, voters, s, next);
    MovedTwice(start, run, run', voters + {n}, voters + {n}, voters + {n});
  }

  lemma {:induction false} Canvass(cfg: Config, start: seq<Cluster>, run: seq<Cluster>, n: NodeId,
                                   voters: set<NodeId>, s: NodeState, next: nat, total: nat)
    returns (run': seq<Cluster>)
    requires n in cfg.peers && total == |cfg.peers[n]| && next <= total
    requires Polling(cfg, start, run, n, voters, s, next)
    ensures Polling(cfg, start, run', n, voters, s, total)
    decreases total - next
  {
    if next == total {
      run' := run;
    } else {
      var run1 := PollNext(cfg, start, run, n, voters, s, next);
      run' := Canvass(cfg, start, run1, n, voters, s, next + 1, total);
    }
  }

  ghost predicate Supporters(run: seq<Cluster>, n: NodeId, voters: set<NodeId>) {
    && Idles(run, n) && NodeNow(run, n).role != Leader && n !in voters
    && forall q :: q in voters ==>
         && Idles(run, q) && AtLeastAsRecentAs(NodeNow(run, n), NodeNow(run, q))
         && NodeNow(run, q).currentTerm <= NodeNow(run, n).currentTerm
  }

  lemma Stand(cfg: Config, run: seq<Cluster>, n: NodeId, voters: set<NodeId>)
    returns (run': seq<Cluster>, s: NodeState)
    requires Running(cfg, run) && n in cfg.peers && Supporters(run, n, voters)
    ensures Running(cfg, run') && OnlyMoved(run, run', {n}) && Polled(cfg, run', n, voters, s, 0)
  {
    run' := Act(cfg, run, n, BeginElection);
    s := NodeNow(run', n);
    assert voters * SeqSet(cfg.peers[n][..0]) == {};
    forall q | q in voters ensures VoterReady(run', q, s, q in cfg.peers[n][..0]) {
      assert Now(run').servers[q] == Now(run).servers[q];
    }
  }

  lemma Win(cfg: Config, run: seq<Cluster>, n: NodeId, voters: set<NodeId>, s: NodeState)
    returns (run': seq<Cluster>)
    requires Running(cfg, run) && n in cfg.peers && voters <= SeqSet(cfg.peers[n])
    requires Polled(cfg, run, n, voters, s, |cfg.peers[n]|)
    requires 1 + |voters| >= (|cfg.peers[n]| + 1) / 2 + 1
    ensures Running(cfg, run') && OnlyMoved(run, run', {n}) && Leads(run', n)
    ensures SupportedBy(run', n, voters)
  {
    var peers := cfg.peers[n];
    assert peers[..|peers|] == peers && voters * SeqSet(peers) == voters;
    run' := TakeOffice(cfg, run, n, s, 1 + |voters|);
    forall q | q in voters ensures Supports(run', n, q) {
      assert VoterReady(run, q, s, true) && Moved(Now(run), Now(run'), {n}, q);
    }
  }

  lemma TakeOffice(cfg: Config, run: seq<Cluster>, n: NodeId, s: NodeState, votes: nat)
    returns (run': seq<Cluster>)
    requires Running(cfg, run) && n in cfg.peers && n in Now(run).servers
    requires Now(run).servers[n] == Server(s, Electing(|cfg.peers[n]|, votes))
    requires votes >= (|cfg.peers[n]| + 1) / 2 + 1
    ensures Running(cfg, run') && OnlyMoved(run, run', {n}) && Leads(run', n)
    ensures NodeNow(run', n).currentTerm == s.currentTerm
  {
    run' := Act(cfg, run, n, EndElection);
  }

  /** Server q has not gone beyond n's term. */
  ghost predicate Supports(run: seq<Cluster>, n: NodeId, q: NodeId) {
    && |run| > 0 && n in Now(run).servers && q in Now(run).servers
    && NodeNow(run, q).currentTerm <= NodeNow(run, n).currentTerm
  }

  ghost predicate SupportedBy(run: seq<Cluster>, n: NodeId, voters: set<NodeId>) {
    forall q :: q in voters ==> Supports(run, n, q)
  }

  /** A server at rest that stands, with idle voters that are not ahead, is elected by them. */
  lemma StandAndWin(cfg: Config, run: seq<Cluster>, n: NodeId, voters: set<NodeId>)
    returns (run': seq<Cluster>)
    requires Running(cfg, run) && n in cfg.peers && voters <= SeqSet(cfg.peers[n])
    requires 1 + |voters| >= (|cfg.peers[n]| + 1) / 2 + 1
    requires Supporters(run, n, voters)
    ensures Running(cfg, run') && OnlyMoved(run, run', voters + {n}) && Leads(run', n)
    ensures SupportedBy(run', n, voters)
  {
    var all := voters + {n};
    var run1, s := Stand(cfg, run, n, voters);
    MovedMore(run, run1, {n}, all);
    var run2 := Canvass(cfg, run, run1, n, voters, s, 0, |cfg.peers[n]|);
    run' := Win(cfg, run2, n, voters, s);
    MovedTwice(run, run2, run', all, {n}, all);
  }

  // ---------- every server with a recent log can be elected ----------

  lemma {:induction false} TermBound(run: seq<Cluster>, ps: set<NodeId>) returns (bound: nat)
    requires |run| > 0 && ps <= Now(run).servers.Keys
    ensures forall q :: q in ps ==> NodeNow(run, q).currentTerm <= bound
    decreases |ps|
  {
    if ps == {} {
      bound := 0;
    } else {
      var p :| p in ps;
      var rest := TermBound(run, ps - {p});
      bound := Higher(rest, NodeNow(run, p).currentTerm);
    }
  }

  /** n and the voters are at rest, and n leads with all of them behind it, or does not lead. */
  lemma Prepare(cfg: Config, run: seq<Cluster>, n: NodeId, voters: set<NodeId>)
    returns (run': seq<Cluster>)
    requires Running(cfg, run) && n in cfg.peers && voters <= SeqSet(cfg.peers[n])
    ensures Running(cfg, run') && OnlyMoved(run, run', voters + {n})
    ensures Idles(run', n) && forall q :: q in voters ==> Idles(run', q)
    ensures Leads(run', n) ==> SupportedBy(run', n, voters)
  {
    var all := voters + {n};
    SeatOf(cfg, n);
    MembersPresent(cfg, run);
    run' := RestAll(cfg, run, all);
    if Leads(run', n) && !SupportedBy(run', n, voters) {
      var p :| p in voters && !Supports(run', n, p);
      var run1 := run';
      assert p in SeqSet(cfg.peers[n]);
      run' := Depose(cfg, run1, n, p);
      forall q | q in voters ensures Idles(run', q) {
        assert q in SeqSet(cfg.peers[n]) && Moved(Now(run1), Now(run'), {n}, q);
      }
      MovedTwice(run, run1, run', all, {n}, all);
    }
  }

  lemma RecentStays(run: seq<Cluster>, run': seq<Cluster>, moved: set<NodeId>, n: NodeId,
                    voters: set<NodeId>)
    requires OnlyMoved(run, run', moved) && n in Now(run).servers
    requires voters <= Now(run).servers.Keys
    requires forall q :: q in voters ==> AtLeastAsRecentAs(NodeNow(run, n), NodeNow(run, q))
    ensures forall q :: q in voters ==> AtLeastAsRecentAs(NodeNow(run', n), NodeNow(run', q))
  {
    assert Moved(Now(run), Now(run'), moved, n);
    forall q | q in voters ensures AtLeastAsRecentAs(NodeNow(run', n), NodeNow(run', q)) {
      assert Moved(Now(run), Now(run'), moved, q);
    }
  }

  /** From rest. */
  lemma ElectFromRest(cfg: Config, run: seq<Cluster>, n: NodeId, voters: set<NodeId>)
    returns (run': seq<Cluster>)
    requires Running(cfg, run) && n in cfg.peers && voters <= SeqSet(cfg.peers[n])
    requires 1 + |voters| >= (|cfg.peers[n]| + 1) / 2 + 1
    requires Idles(run, n) && NodeNow(run, n).role != Leader
    requires forall q :: q in voters ==>
               Idles(run, q) && AtLeastAsRecentAs(NodeNow(run, n), NodeNow(run, q))
    ensures Running(cfg, run') && OnlyMoved(run, run', voters + {n}) && Leads(run', n)
    ensures SupportedBy(run', n, voters)
  {
    var all := voters + {n};
    SeatOf(cfg, n);
    var bound := 0;
    if voters != {} {
      var p :| p in voters;
      assert p in SeqSet(cfg.peers[n]);
      bound := TermBound(run, voters);
    }
    var run1 := StandUntil(cfg, run, n, bound);
    RecentStays(run, run1, {n}, n, voters);
    forall q | q in voters
      ensures Idles(run1, q) && NodeNow(run1, q).currentTerm <= NodeNow(run1, n).currentTerm
    {
      assert q in SeqSet(cfg.peers[n]) && Moved(Now(run), Now(run1), {n}, q);
    }
    run' := StandAndWin(cfg, run1, n, voters);
    MovedTwice(run, run1, run', {n}, all, all);
  }

  /** Any run can go on to one in which server n leads, if with some voters it makes a majority and
      its log is at least as recent as theirs, whatever they are doing. No log changes on the
      way, no other server moves, and no voter ends up ahead of n. */
  lemma RunsCanElect(cfg: Config, run: seq<Cluster>, n: NodeId, voters: set<NodeId>)
    returns (run': seq<Cluster>)
    requires Running(cfg, run) && n in cfg.peers && voters <= cfg.peers.Keys - {n}
    requires 1 + |voters| >= |cfg.peers| / 2 + 1
    requires n in Now(run).servers && voters <= Now(run).servers.Keys
    requires forall q :: q in voters ==> AtLeastAsRecentAs(NodeNow(run, n), NodeNow(run, q))
    ensures Running(cfg, run') && OnlyMoved(run, run', voters + {n})
    ensures Leads(run', n) && SupportedBy(run', n, voters)
  {
    var all := voters + {n};
    SeatOf(cfg, n);
    DistinctSize(cfg.peers[n]);
    assert cfg.peers.Keys == SeqSet(cfg.peers[n]) + {n};
    run' := Prepare(cfg, run, n, voters);
    if !Leads(run', n) {
      var run1 := run';
      RecentStays(run, run1, all, n, voters);
      run' := ElectFromRest(cfg, run1, n, voters);
      MovedTwice(run, run1, run', all, all, all);
    }
  }
}
