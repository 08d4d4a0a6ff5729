/** Which clusters keep the safety claims, for each way of reading the code: with or without the
    entries in the requests, with replies matched to their requests or not. */
module RaftVariants {
  import opened RaftTypes
  import opened RaftSteps
  import opened RaftCluster
  import opened RaftSafety
  import opened RaftViolation
  import opened RaftAsWrittenRuns
  import opened RaftUnmatched

  /** At most one server leads each term, at whatever times. */
  ghost predicate OneLeaderPerTerm(run: seq<Cluster>) {
    forall i, n, j, m :: LeadSameTerm(run, i, n, j, m) ==> n == m
  }

  ghost predicate LeadSameTerm(run: seq<Cluster>, i: nat, n: NodeId, j: nat, m: NodeId) {
    && LeadsAt(run, i, n) && LeadsAt(run, j, m)
    && NodeAt(run, i, n).currentTerm == NodeAt(run, j, m).currentTerm
  }

  /** A server without peers makes no calls, so it makes no difference how replies are taken. */
  lemma LoneRunsMatch(cfg: Config, run: seq<Cluster>)
    requires ValidConfig(cfg) && |cfg.peers| <= 1 && IsRun(cfg, run)
    ensures Running(cfg.(matchesReplies := true), run)
  {
    var cfg' := cfg.(matchesReplies := true);
    forall i | 0 <= i < |run| - 1 ensures StepAt(cfg', run, i) {
      assert StepAt(cfg, run, i);
      var n, action :| StepBy(cfg, run[i], run[i + 1], n, action);
      var peers := HasSeat(cfg, n);
      assert StepBy(cfg', run[i], run[i + 1], n, action);
    }
  }

  /** Election safety holds in all runs of a cluster if and only if replies are matched to their
      requests or there is nobody to call. */
  lemma ElectionSafeIff(cfg: Config)
    requires ValidConfig(cfg)
    ensures (forall run :: IsRun(cfg, run) ==> OneLeaderPerTerm(run))
       <==> (cfg.matchesReplies || |cfg.peers| <= 1)
  {
    if cfg.matchesReplies || |cfg.peers| <= 1 {
      forall run | IsRun(cfg, run) ensures OneLeaderPerTerm(run) {
        MatchedElections(cfg, run);
      }
    } else {
      var a, b := TwoMembers(cfg);
      var run := UnmatchedElectsTwo(cfg, a, b);
      assert LeadSameTerm(run, |run| - 1, a, |run| - 1, b);
    }
  }

  lemma MatchedElections(cfg: Config, run: seq<Cluster>)
    requires ValidConfig(cfg) && IsRun(cfg, run) && (cfg.matchesReplies || |cfg.peers| <= 1)
    ensures OneLeaderPerTerm(run)
  {
    if !cfg.matchesReplies {
      LoneRunsMatch(cfg, run);
    }
    forall i: nat, n, j: nat, m | LeadSameTerm(run, i, n, j, m) ensures n == m {
      ElectionSafety(cfg.(matchesReplies := true), run, i, n, j, m);
    }
  }

  /** The clusters of which every run keeps state machine safety. */
  ghost predicate SafeVariant(cfg: Config) {
    || |cfg.peers| <= 1
    || (cfg.matchesReplies && (cfg.sendsEntries || |cfg.peers| <= 2))
  }

  /** State machine safety holds in all runs of a cluster if and only if it has one server, or
      replies are matched and either requests carry their entries or there are only two. */
  lemma SafeIff(cfg: Config)
    requires ValidConfig(cfg)
    ensures (forall run :: IsRun(cfg, run) ==> SafeRun(run)) <==> SafeVariant(cfg)
  {
    if SafeVariant(cfg) {
      forall run | IsRun(cfg, run) ensures SafeRun(run) {
        SafeVariantIsSafe(cfg, run);
      }
    } else {
      var a, b := TwoMembers(cfg);
      if !cfg.matchesReplies {
        var run := UnmatchedViolatesStateMachineSafety(cfg, a, b, "k", "v", "w");
        BothApplied(run, a, b, LogEntry(3, 1, "k", "v"), LogEntry(3, 1, "k", "w"));
      } else {
        var run := AsWrittenViolatesStateMachineSafety(cfg, a, b, "k", "v", "w");
        BothApplied(run, a, b, LogEntry(1, 1, "k", "v"), LogEntry(2, 1, "k", "w"));
      }
    }
  }

  lemma SafeVariantIsSafe(cfg: Config, run: seq<Cluster>)
    requires ValidConfig(cfg) && SafeVariant(cfg) && IsRun(cfg, run)
    ensures SafeRun(run)
  {
    var cfg' := cfg.(matchesReplies := true);
    if !cfg.matchesReplies {
      LoneRunsMatch(cfg, run);
    }
    if cfg.sendsEntries {
      forall i: nat, n, j: nat, m | Present(run, i, n) && Present(run, j, m)
        ensures AgreeAt(run, i, n, j, m)
      {
        StateMachineSafety(cfg', run, i, n, j, m);
      }
    } else {
      TwoServersAreSafe(cfg', run);
    }
  }

  // ---------- stores ----------

  /** Of two stores the one further on is the other plus later puts. */
  ghost predicate StoresFollow(run: seq<Cluster>, i: nat, n: NodeId, j: nat, m: NodeId) {
    Present(run, i, n) && Present(run, j, m) ==>
      var a, b := NodeAt(run, i, n), NodeAt(run, j, m);
      a.lastApplied <= b.lastApplied < |b.log| ==>
        b.store == FoldPuts(a.store, b.log[a.lastApplied + 1..b.lastApplied + 1])
  }

  ghost predicate OneStoreHistory(run: seq<Cluster>) {
    forall i, n, j, m :: StoresFollow(run, i, n, j, m)
  }

  lemma StoresDiverge(run: seq<Cluster>, a: NodeId, b: NodeId, entryA: LogEntry, entryB: LogEntry)
    requires |run| > 0 && a in run[|run| - 1].servers && b in run[|run| - 1].servers
    requires AppliedOne(run[|run| - 1].servers[a].node, entryA)
    requires AppliedOne(run[|run| - 1].servers[b].node, entryB)
    requires entryA.key == entryB.key && entryA.value != entryB.value
    ensures !OneStoreHistory(run)
  {
    var last := |run| - 1;
    var s, s' := NodeAt(run, last, a), NodeAt(run, last, b);
    assert s'.log[s.lastApplied + 1..s'.lastApplied + 1] == [];
    assert s.store[entryA.key] != s'.store[entryA.key];
    assert !StoresFollow(run, last, a, last, b);
  }

  /** The stores of all servers follow one history in all runs for exactly the same clusters. */
  lemma StoresSafeIff(cfg: Config)
    requires ValidConfig(cfg)
    ensures (forall run :: IsRun(cfg, run) ==> OneStoreHistory(run)) <==> SafeVariant(cfg)
  {
    if SafeVariant(cfg) {
      forall run | IsRun(cfg, run) ensures OneStoreHistory(run) {
        SafeStores(cfg, run);
      }
    } else {
      var a, b := TwoMembers(cfg);
      if !cfg.matchesReplies {
        var run := UnmatchedViolatesStateMachineSafety(cfg, a, b, "k", "v", "w");
        StoresDiverge(run, a, b, LogEntry(3, 1, "k", "v"), LogEntry(3, 1, "k", "w"));
      } else {
        var run := AsWrittenViolatesStateMachineSafety(cfg, a, b, "k", "v", "w");
        StoresDiverge(run, a, b, LogEntry(1, 1, "k", "v"), LogEntry(2, 1, "k", "w"));
      }
    }
  }

  lemma SafeStores(cfg: Config, run: seq<Cluster>)
    requires ValidConfig(cfg) && SafeVariant(cfg) && IsRun(cfg, run)
    ensures OneStoreHistory(run)
  {
    var cfg' := cfg.(matchesReplies := true);
    if !cfg.matchesReplies {
      LoneRunsMatch(cfg, run);
    }
    SafeVariantIsSafe(cfg, run);
    forall i: nat, n, j: nat, m | Present(run, i, n) && Present(run, j, m)
      ensures StoresFollow(run, i, n, j, m)
    {
      assert AgreeAt(run, i, n, j, m);
      AgreeingStores(cfg', run, i, n, j, m);
    }
  }

  lemma AgreeingStores(cfg: Config, run: seq<Cluster>, i: nat, n: NodeId, j: nat, m: NodeId)
    requires Running(cfg, run) && Present(run, i, n) && Present(run, j, m)
    requires Agree(NodeAt(run, i, n), NodeAt(run, j, m))
    ensures StoresFollow(run, i, n, j, m)
  {
    var a, b := NodeAt(run, i, n), NodeAt(run, j, m);
    AppliedAt(cfg, run, i, n);
    AppliedAt(cfg, run, j, m);
    if a.lastApplied <= b.lastApplied {
      LaterPuts(a.log, a.lastApplied, b.log, b.lastApplied);
    }
  }

  // ---------- a server without peers ----------

  ghost predicate NothingApplied(run: seq<Cluster>, i: nat) {
    i < |run| ==>
      && (forall m :: m in run[i].net ==> !m.AppendRequest?)
      && forall n :: n in run[i].servers ==>
           run[i].servers[n].node.lastApplied == 0 && run[i].servers[n].node.store == map[]
  }

  /** A server without peers can lead and accept submissions, but it never applies any: only an
      acknowledgement makes it look for something to commit. */
  lemma {:induction false} LoneServerNeverApplies(cfg: Config, run: seq<Cluster>, i: nat)
    requires ValidConfig(cfg) && |cfg.peers| <= 1 && IsRun(cfg, run) && i < |run|
    ensures NothingApplied(run, i)
  {
    if i > 0 {
      LoneRunsMatch(cfg, run);
      LoneServerNeverApplies(cfg, run, i - 1);
      var n, action := StepOf(cfg.(matchesReplies := true), run, i - 1);
      var peers := HasSeat(cfg, n);
    }
  }
}
