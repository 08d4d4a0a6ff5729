/** From any state a run can reach, any command can still be brought into every store, unless the
    cluster has a single server. */
module RaftNeverStuck {
  import opened RaftTypes
  import opened RaftSteps
  import opened RaftAnswers
  import opened RaftCluster
  import opened RaftHistory
  import opened RaftRuns
  import opened RaftSafety
  import opened RaftReplies
  import opened RaftElectors
  import opened RaftPaths
  import opened RaftCatchUp
  import opened RaftConvergence
  import opened RaftCommitProgress
  import opened RaftSubmissions
  import opened RaftProgress
  import opened RaftVariants

  // ---------- the most recent log ----------

  lemma {:induction false} MostRecent(run: seq<Cluster>, ps: set<NodeId>) returns (n: NodeId)
    requires |run| > 0 && ps != {} && ps <= Now(run).servers.Keys
    requires forall q :: q in ps ==> WellFormed(NodeNow(run, q).log)
    ensures n in ps
    ensures forall q :: q in ps ==> AtLeastAsRecentAs(NodeNow(run, n), NodeNow(run, q))
    decreases |ps|
  {
    n :| n in ps;
    if ps != {n} {
      var m := MostRecent(run, ps - {n});
      if !AtLeastAsRecentAs(NodeNow(run, n), NodeNow(run, m)) {
        n := m;
      }
    }
  }

  // ---------- a leader at rest among servers at rest ----------

  /** n leads, everybody is at rest, and nobody is ahead of n. */
  ghost predicate Settled(cfg: Config, run: seq<Cluster>, n: NodeId) {
    && Leads(run, n) && Now(run).servers.Keys == cfg.peers.Keys
    && SupportedBy(run, n, cfg.peers.Keys)
    && forall q :: q in cfg.peers ==> Idles(run, q)
  }

  /** Some server can come to lead, with everybody at rest. */
  lemma SettleCluster(cfg: Config, run: seq<Cluster>) returns (run': seq<Cluster>, n: NodeId)
    requires Running(cfg, run) && cfg.peers.Keys != {}
    ensures Running(cfg, run') && run <= run' && n in cfg.peers && Settled(cfg, run', n)
  {
    MembersPresent(cfg, run);
    forall q | q in cfg.peers.Keys ensures WellFormed(NodeNow(run, q).log) {
      LastFacts(cfg, run, q);
    }
    n := MostRecent(run, cfg.peers.Keys);
    var others := cfg.peers.Keys - {n};
    assert cfg.peers.Keys == others + {n};
    var run1 := RunsCanElect(cfg, run, n, others);
    run' := RestAround(cfg, run1, n);
  }

  lemma RestAround(cfg: Config, run: seq<Cluster>, n: NodeId) returns (run': seq<Cluster>)
    requires Running(cfg, run) && n in cfg.peers && Leads(run, n)
    requires SupportedBy(run, n, cfg.peers.Keys - {n})
    ensures Running(cfg, run') && run <= run' && Settled(cfg, run', n)
  {
    var others := cfg.peers.Keys - {n};
    MembersPresent(cfg, run);
    LastFacts(cfg, run, n);
    var run1 := Settle(cfg, run, n);
    run' := RestAll(cfg, run1, others);
    assert Moved(Now(run1), Now(run'), others, n);
    MembersPresent(cfg, run');
    forall q | q in cfg.peers.Keys ensures Supports(run', n, q) && Idles(run', q) {
      if q != n {
        assert Supports(run, n, q);
      }
    }
  }

  // ---------- replication to everybody ----------

  /** The run goes on with the same leader, term and log, and everybody is at rest again. */
  ghost predicate SameReign(cfg: Config, run: seq<Cluster>, run': seq<Cluster>, n: NodeId) {
    && RunningFully(cfg, run') && run <= run' && Settled(cfg, run, n) && Settled(cfg, run', n)
    && NodeNow(run', n).currentTerm == NodeNow(run, n).currentTerm
    && NodeNow(run', n).log == NodeNow(run, n).log
  }

  /** The leader knows that the peer has its whole log, and the peer has committed this much. */
  ghost predicate Served(run: seq<Cluster>, n: NodeId, q: NodeId, commit: nat) {
    && |run| > 0 && n in Now(run).servers && q in Now(run).servers
    && q in NodeNow(run, n).matchIndex
    && NodeNow(run, n).matchIndex[q] >= |NodeNow(run, n).log| - 1
    && NodeNow(run, q).commitIndex >= commit
  }

  lemma ServeOne(cfg: Config, run: seq<Cluster>, n: NodeId, q: NodeId) returns (run': seq<Cluster>)
    requires RunningFully(cfg, run) && n in cfg.peers && q in cfg.peers && q != n
    requires Settled(cfg, run, n)
    ensures SameReign(cfg, run, run', n) && Served(run', n, q, NodeNow(run, n).commitIndex)
  {
    var peers := cfg.peers[n];
    assert q in SeqSet(peers);
    var i :| 0 <= i < |peers| && peers[i] == q;
    LastFacts(cfg, run, n);
    LastFacts(cfg, run, q);
    RunIsPath(cfg, run);
    assert Supports(run, n, q);
    ReachableFits(cfg, run, |run| - 1, n, i);
    AppliedAt(cfg, run, |run| - 1, n);
    var c';
    run', c' := RoundsUntilDone(cfg, run[0], run, Now(run), n, i, q);
    PathIsRun(cfg, run', c');
    StillSettled(cfg, run, run', n, q);
  }

  lemma StillSettled(cfg: Config, run: seq<Cluster>, run': seq<Cluster>, n: NodeId, q: NodeId)
    requires Settled(cfg, run, n) && |run'| > 0 && n in cfg.peers && q in cfg.peers && q != n
    requires PairMoved(Now(run), Now(run'), n, q)
    requires CaughtUp(NodeNow(run, n), NodeNow(run', n), NodeNow(run', q), q)
    ensures Settled(cfg, run', n)
  {
    forall p | p in cfg.peers.Keys ensures Supports(run', n, p) && Idles(run', p) {
      assert Supports(run, n, p) && Idles(run, p);
    }
  }

  lemma StillServed(cfg: Config, run: seq<Cluster>, run': seq<Cluster>, n: NodeId, q: NodeId,
                    commit: nat)
    requires RunningFully(cfg, run) && SameReign(cfg, run, run', n) && Served(run, n, q, commit)
    ensures Served(run', n, q, commit)
  {
    MembersPresent(cfg, run');
    NodesAdvance(cfg, run', |run| - 1, |run'| - 1, n);
    NodesAdvance(cfg, run', |run| - 1, |run'| - 1, q);
  }

  lemma CommitsStay(cfg: Config, run: seq<Cluster>, run': seq<Cluster>, n: NodeId)
    requires RunningFully(cfg, run) && RunningFully(cfg, run') && run <= run'
    requires n in Now(run).servers && n in Now(run').servers
    ensures NodeNow(run, n).commitIndex <= NodeNow(run', n).commitIndex
  {
    NodesAdvance(cfg, run', |run| - 1, |run'| - 1, n);
  }

  lemma {:induction false} ServeAll(cfg: Config, run: seq<Cluster>, n: NodeId, ps: set<NodeId>)
    returns (run': seq<Cluster>)
    requires RunningFully(cfg, run) && n in cfg.peers && ps <= cfg.peers.Keys - {n}
    requires Settled(cfg, run, n)
    ensures SameReign(cfg, run, run', n)
    ensures forall q :: q in ps ==> Served(run', n, q, NodeNow(run, n).commitIndex)
    decreases |ps|
  {
    run' := run;
    if ps != {} {
      var p :| p in ps;
      var run1 := ServeOne(cfg, run, n, p);
      run' := ServeAll(cfg, run1, n, ps - {p});
      CommitsStay(cfg, run, run1, n);
      StillServed(cfg, run1, run', n, p, NodeNow(run, n).commitIndex);
      forall q | q in ps ensures Served(run', n, q, NodeNow(run, n).commitIndex) {
        assert q != p ==> Served(run', n, q, NodeNow(run1, n).commitIndex);
      }
    }
  }

  // ---------- from the submission to every store ----------

  /** The leader accepts the command as its last entry. */
  ghost predicate EndsWith(s: NodeState, key: string, value: string) {
    && |s.log| > 1
    && s.log[|s.log| - 1] == LogEntry(s.currentTerm, |s.log| - 1, key, value)
  }

  lemma SubmitTo(cfg: Config, run: seq<Cluster>, n: NodeId, key: string, value: string)
    returns (run': seq<Cluster>)
    requires RunningFully(cfg, run) && n in cfg.peers && Settled(cfg, run, n)
    ensures RunningFully(cfg, run') && run <= run' && Settled(cfg, run', n)
    ensures EndsWith(NodeNow(run', n), key, value)
  {
    LastFacts(cfg, run, n);
    run' := Act(cfg, run, n, Submit(key, value));
    forall q | q in cfg.peers.Keys ensures Supports(run', n, q) && Idles(run', q) {
      assert Supports(run, n, q) && Idles(run, q);
    }
  }

  /** Once everybody has the leader's last entry, and it is of its term, it is committed. */
  lemma ServedIsCommitted(cfg: Config, run: seq<Cluster>, n: NodeId, key: string, value: string)
    requires RunningFully(cfg, run) && n in cfg.peers && |cfg.peers| >= 2 && Settled(cfg, run, n)
    requires EndsWith(NodeNow(run, n), key, value)
    requires forall q :: q in cfg.peers.Keys - {n} ==> Served(run, n, q, 0)
    ensures NodeNow(run, n).commitIndex == |NodeNow(run, n).log| - 1
  {
    var members, s := cfg.peers.Keys, NodeNow(run, n);
    var v := |s.log| - 1;
    forall q | q in members ensures q in KnownHolders(members, n, s, v) {
      if q != n {
        assert Served(run, n, q, 0);
      }
    }
    assert KnownHolders(members, n, s, v) == members;
    assert |members - {n}| == |members| - 1;
    var p :| p in members - {n};
    assert p in KnownHolders(members, n, s, v) && p != n;
    CommittedIff(cfg, run, |run| - 1, n, v);
    AppliedAt(cfg, run, |run| - 1, n);
  }

  /** The store of whoever has applied the leader's whole log ends with the command. */
  lemma LastPut(cfg: Config, run: seq<Cluster>, n: NodeId, key: string, value: string)
    requires RunningFully(cfg, run) && Leads(run, n) && EndsWith(NodeNow(run, n), key, value)
    requires NodeNow(run, n).commitIndex == |NodeNow(run, n).log| - 1
    ensures key in NodeNow(run, n).store && NodeNow(run, n).store[key] == value
  {
    AppliedAt(cfg, run, |run| - 1, n);
    var s := NodeNow(run, n);
    FoldPutsNext(map[], s.log, 1, |s.log| - 1);
  }

  /** A server that is not ahead of the leader's term and has committed as much as the leader, which
      has committed all it has, has the same store. */
  lemma SameStore(cfg: Config, run: seq<Cluster>, n: NodeId, q: NodeId)
    requires RunningFully(cfg, run) && Leads(run, n) && Supports(run, n, q)
    requires NodeNow(run, n).commitIndex == |NodeNow(run, n).log| - 1
    requires NodeNow(run, q).commitIndex >= NodeNow(run, n).commitIndex
    ensures NodeNow(run, q).store == NodeNow(run, n).store
  {
    var last := |run| - 1;
    CommittedInLaterLeaders(cfg, run, last, q, last, n);
    AppliedAt(cfg, run, last, n);
    AppliedAt(cfg, run, last, q);
    StateMachineSafety(cfg, run, last, n, last, q);
    var s, f := NodeNow(run, n), NodeNow(run, q);
    assert s.log[1..s.commitIndex + 1] == s.log[..s.commitIndex + 1][1..]
        == f.log[..s.commitIndex + 1][1..] == f.log[1..f.commitIndex + 1];
  }

  ghost predicate AllStores(c: Cluster, store: Store) {
    forall n :: n in c.servers ==> c.servers[n].node.store == store
  }

  /** Every server of a non-empty cluster has the same store, and the value is in it. */
  ghost predicate StoredEverywhere(c: Cluster, key: string, value: string) {
    && c.servers != map[]
    && exists store :: AllStores(c, store) && key in store && store[key] == value
  }

  /** Progress: any run of two servers or more can go on, by calls that go through or fail, until a
      given command is in every store, and all stores are equal. */
  lemma NeverStuck(cfg: Config, run: seq<Cluster>, key: string, value: string)
    returns (run': seq<Cluster>)
    requires RunningFully(cfg, run) && |cfg.peers| >= 2
    ensures RunningFully(cfg, run') && run <= run' && StoredEverywhere(Now(run'), key, value)
  {
    assert |cfg.peers.Keys| >= 2;
    var run1, n := SettleCluster(cfg, run);
    var run2 := SubmitTo(cfg, run1, n, key, value);
    run' := Spread(cfg, run2, n, key, value);
  }

  lemma Spread(cfg: Config, run: seq<Cluster>, n: NodeId, key: string, value: string)
    returns (run': seq<Cluster>)
    requires RunningFully(cfg, run) && n in cfg.peers && |cfg.peers| >= 2 && Settled(cfg, run, n)
    requires EndsWith(NodeNow(run, n), key, value)
    ensures RunningFully(cfg, run') && run <= run' && StoredEverywhere(Now(run'), key, value)
  {
    var others := cfg.peers.Keys - {n};
    var run1 := ServeAll(cfg, run, n, others);
    ServedIsCommitted(cfg, run1, n, key, value);
    run' := ServeAll(cfg, run1, n, others);
    ServedIsCommitted(cfg, run', n, key, value);
    LastPut(cfg, run', n, key, value);
    forall q | q in Now(run').servers ensures NodeNow(run', q).store == NodeNow(run', n).store {
      if q != n {
        assert q in others && Served(run', n, q, NodeNow(run1, n).commitIndex);
        assert Supports(run', n, q);
        SameStore(cfg, run', n, q);
      }
    }
    assert AllStores(Now(run'), NodeNow(run', n).store);
  }

  ghost predicate CanStore(cfg: Config, run: seq<Cluster>, key: string, value: string) {
    exists run' :: RunningFully(cfg, run') && run <= run' && StoredEverywhere(Now(run'), key, value)
  }

  /** With requests that carry their entries and replies matched to them, every command can be
      brought into every store from every state a run can reach if and only if there are at
      least two servers. */
  lemma NeverStuckIff(cfg: Config)
    requires ValidConfig(cfg) && cfg.matchesReplies && cfg.sendsEntries
    ensures (forall run, key, value :: RunningFully(cfg, run) ==> CanStore(cfg, run, key, value))
       <==> |cfg.peers| >= 2
  {
    if |cfg.peers| >= 2 {
      forall run, key, value | RunningFully(cfg, run) ensures CanStore(cfg, run, key, value) {
        var run' := NeverStuck(cfg, run, key, value);
      }
    } else {
      var c := Cluster(map n | n in cfg.peers :: INITIAL, {});
      assert RunningFully(cfg, [c]);
      if CanStore(cfg, [c], "k", "v") {
        var run :| RunningFully(cfg, run) && [c] <= run && StoredEverywhere(Now(run), "k", "v");
        LoneServerNeverApplies(cfg, run, |run| - 1);
        LoneStoresNothing(run);
      }
    }
  }

  lemma LoneStoresNothing(run: seq<Cluster>)
    requires |run| > 0 && NothingApplied(run, |run| - 1)
    ensures !StoredEverywhere(Now(run), "k", "v")
  {
  }
}
