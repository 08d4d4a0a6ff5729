/** Runs of the cluster when requests carry no entries, as written, while each reply still answers
    its own request. A log then grows only by what its own server accepts. This decides exactly
    when two servers agree, and for which clusters every run is safe. */
module RaftAsWrittenRuns {
  import opened RaftTypes
  import opened LogMerge
  import opened CommitRule
  import opened RaftSteps
  import opened RaftCluster
  import opened RaftHistory
  import opened RaftInvariant
  import opened RaftRuns
  import opened RaftSafety
  import opened RaftViolation

  ghost predicate RunningAsWritten(cfg: Config, run: seq<Cluster>) {
    Running(cfg, run) && !cfg.sendsEntries
  }

  // ---------- where entries come from ----------

  /** Between positions i and i+1 server n accepts a submission. */
  ghost predicate AcceptsAt(run: seq<Cluster>, i: nat, n: NodeId) {
    && LeadsAt(run, i, n) && LeadsAt(run, i + 1, n)
    && NodeAt(run, i + 1, n).currentTerm == NodeAt(run, i, n).currentTerm
    && exists key, value ::
         0 < |NodeAt(run, i, n).log|
         && NodeAt(run, i + 1, n) == SubmitLog(NodeAt(run, i, n), key, value).0
  }

  /** A log changes only by an accepted submission. */
  lemma OnlySubmissionsGrow(cfg: Config, run: seq<Cluster>, i: nat, n: NodeId)
    requires RunningAsWritten(cfg, run) && i + 1 < |run| && Present(run, i, n)
    ensures Present(run, i + 1, n)
    ensures NodeAt(run, i + 1, n).log == NodeAt(run, i, n).log || AcceptsAt(run, i, n)
  {
    var m, action := StepOf(cfg, run, i);
    if m == n {
      var s := NodeAt(run, i, n);
      match action
      case Submit(key, value) =>
        if s.role == Leader {
          assert NodeAt(run, i + 1, n) == SubmitLog(s, key, value).0;
        }
      case ReceiveAppendRequest(args) =>
        var hs := RunHistory(cfg, run);
        MessageAt(cfg, run, hs, i, AppendRequest(n, args));
        EmptyRequestKeepsLog(s, args);
      case _ =>
    }
  }

  lemma EmptyRequestKeepsLog(s: NodeState, args: AppendEntriesArgs)
    requires WellFormed(s.log) && Numbered(args) && args.entries == []
    ensures HandleAppendEntries(s, args).0.log == s.log
  {
  }

  /** Server n has led the term of entry k of its log, with that entry in place. */
  ghost predicate OwnAt(run: seq<Cluster>, i: nat, n: NodeId, k: nat)
    requires Present(run, i, n) && k < |NodeAt(run, i, n).log|
  {
    LedBefore(run, i, n, NodeAt(run, i, n).log[..k + 1])
  }

  ghost predicate LedBefore(run: seq<Cluster>, i: nat, n: NodeId, log: Log)
    requires |log| > 0
  {
    exists j :: 0 <= j <= i && LedWith(run, j, n, log)
  }

  ghost predicate LedWith(run: seq<Cluster>, j: nat, n: NodeId, log: Log)
    requires |log| > 0
  {
    && LeadsAt(run, j, n) && log <= NodeAt(run, j, n).log
    && NodeAt(run, j, n).currentTerm == LastTerm(log)
  }

  /** Every entry of a log was accepted by the server itself, in a term that it led. */
  lemma {:induction false} EntriesAreOwn(cfg: Config, run: seq<Cluster>, i: nat, n: NodeId, k: nat)
    requires RunningAsWritten(cfg, run) && Present(run, i, n) && 0 < k < |NodeAt(run, i, n).log|
    ensures OwnAt(run, i, n, k)
    decreases i
  {
    var log := NodeAt(run, i, n).log;
    if i > 0 {
      var m, action := StepOf(cfg, run, i - 1);
      OnlySubmissionsGrow(cfg, run, i - 1, n);
      var before := NodeAt(run, i - 1, n).log;
      if k < |before| {
        EntriesAreOwn(cfg, run, i - 1, n, k);
        assert before[..k + 1] == log[..k + 1];
      } else {
        assert log[..k + 1] == log;
        assert LedWith(run, i, n, log);
      }
    }
  }

  // ---------- when two servers agree ----------

  /** What the two have applied agrees up to the shorter part. */
  ghost predicate Agree(a: NodeState, b: NodeState) {
    && a.lastApplied < |a.log| && b.lastApplied < |b.log|
    && var k := Min(a.lastApplied, b.lastApplied);
    a.log[..k + 1] == b.log[..k + 1]
  }

  /** Logs of different servers have no entry in common. */
  lemma NothingInCommon(cfg: Config, run: seq<Cluster>, i: nat, n: NodeId, j: nat, m: NodeId,
                        k: nat, l: nat)
    requires RunningAsWritten(cfg, run) && Present(run, i, n) && Present(run, j, m) && n != m
    requires 0 < k < |NodeAt(run, i, n).log| && 0 < l < |NodeAt(run, j, m).log|
    ensures NodeAt(run, i, n).log[k].term != NodeAt(run, j, m).log[l].term
  {
    EntriesAreOwn(cfg, run, i, n, k);
    EntriesAreOwn(cfg, run, j, m, l);
    var p :| 0 <= p <= i && LedWith(run, p, n, NodeAt(run, i, n).log[..k + 1]);
    var q :| 0 <= q <= j && LedWith(run, q, m, NodeAt(run, j, m).log[..l + 1]);
    if NodeAt(run, p, n).currentTerm == NodeAt(run, q, m).currentTerm {
      ElectionSafety(cfg, run, p, n, q, m);
    }
  }

  /** Two servers agree, at whatever times, if and only if they are the same one or one of them
      has applied nothing. */
  lemma AgreeIff(cfg: Config, run: seq<Cluster>, i: nat, n: NodeId, j: nat, m: NodeId)
    requires RunningAsWritten(cfg, run) && Present(run, i, n) && Present(run, j, m)
    ensures var a, b := NodeAt(run, i, n), NodeAt(run, j, m);
            Agree(a, b) <==> (n == m || a.lastApplied == 0 || b.lastApplied == 0)
  {
    var hs := RunHistory(cfg, run);
    FactsAt(cfg, run, hs, i, n);
    FactsAt(cfg, run, hs, j, m);
    var a, b := NodeAt(run, i, n), NodeAt(run, j, m);
    if n == m {
      if i <= j {
        NodesAdvance(cfg, run, i, j, n);
        SamePrefix(a, b);
      } else {
        NodesAdvance(cfg, run, j, i, n);
        SamePrefix(b, a);
      }
    } else if a.lastApplied == 0 || b.lastApplied == 0 {
      assert a.log[..1] == [DUMMY] == b.log[..1];
    } else {
      NothingInCommon(cfg, run, i, n, j, m, 1, 1);
      var k := Min(a.lastApplied, b.lastApplied);
      assert a.log[..k + 1][1] == a.log[1] && b.log[..k + 1][1] == b.log[1];
    }
  }

  lemma SamePrefix(s: NodeState, s': NodeState)
    requires s.lastApplied == s.commitIndex < |s.log| && s'.lastApplied < |s'.log|
    requires NodeAdvances(s, s') && s.lastApplied <= s'.lastApplied
    ensures Agree(s, s') && Agree(s', s)
  {
    assert s.log[..s.commitIndex + 1] == s'.log[..s.commitIndex + 1];
  }

  // ---------- when a run is safe ----------

  ghost predicate AgreeAt(run: seq<Cluster>, i: nat, n: NodeId, j: nat, m: NodeId) {
    Present(run, i, n) && Present(run, j, m) ==> Agree(NodeAt(run, i, n), NodeAt(run, j, m))
  }

  ghost predicate SafeRun(run: seq<Cluster>) {
    forall i, n, j, m :: AgreeAt(run, i, n, j, m)
  }

  ghost predicate AppliesAt(run: seq<Cluster>, i: nat, n: NodeId) {
    Present(run, i, n) && NodeAt(run, i, n).lastApplied > 0
  }

  /** A run is safe if and only if no two servers ever apply anything. */
  lemma SafeRunIff(cfg: Config, run: seq<Cluster>)
    requires RunningAsWritten(cfg, run)
    ensures SafeRun(run)
       <==> forall i, n, j, m :: AppliesAt(run, i, n) && AppliesAt(run, j, m) ==> n == m
  {
    forall i: nat, n, j: nat, m | Present(run, i, n) && Present(run, j, m)
      ensures AgreeAt(run, i, n, j, m)
         <==> (AppliesAt(run, i, n) && AppliesAt(run, j, m) ==> n == m)
    {
      AgreeIff(cfg, run, i, n, j, m);
    }
  }

  /** So it is enough that clients submit through one server only. */
  lemma OneSubmitterIsSafe(cfg: Config, run: seq<Cluster>, only: NodeId)
    requires RunningAsWritten(cfg, run)
    requires forall i, n :: AcceptsAt(run, i, n) ==> n == only
    ensures SafeRun(run)
  {
    forall i: nat, n | AppliesAt(run, i, n) ensures n == only {
      var hs := RunHistory(cfg, run);
      FactsAt(cfg, run, hs, i, n);
      if n != only {
        StaysEmpty(cfg, run, i, n);
      }
    }
    SafeRunIff(cfg, run);
  }

  lemma {:induction false} StaysEmpty(cfg: Config, run: seq<Cluster>, i: nat, n: NodeId)
    requires RunningAsWritten(cfg, run) && Present(run, i, n)
    requires forall k :: !AcceptsAt(run, k, n)
    ensures NodeAt(run, i, n).log == [DUMMY]
    decreases i
  {
    if i > 0 {
      var m, action := StepOf(cfg, run, i - 1);
      StaysEmpty(cfg, run, i - 1, n);
      OnlySubmissionsGrow(cfg, run, i - 1, n);
    }
  }

  // ---------- clusters of at most two ----------

  /** Only one of two servers ever has entries: the other one cannot be elected without them, and
      it has no way to get them. */
  lemma OnlyOneFills(cfg: Config, run: seq<Cluster>, i: nat, n: NodeId, j: nat, m: NodeId)
    requires RunningAsWritten(cfg, run) && |cfg.peers| <= 2
    requires Present(run, i, n) && |NodeAt(run, i, n).log| > 1
    requires Present(run, j, m) && |NodeAt(run, j, m).log| > 1
    ensures n == m
  {
    var a, b := NodeAt(run, i, n).log, NodeAt(run, j, m).log;
    if n != m {
      NothingInCommon(cfg, run, i, n, j, m, |a| - 1, |b| - 1);
      if LastTerm(a) < LastTerm(b) {
        LaterHasEarlier(cfg, run, i, n, j, m);
      } else {
        LaterHasEarlier(cfg, run, j, m, i, n);
      }
    }
  }

  lemma LaterHasEarlier(cfg: Config, run: seq<Cluster>, i: nat, n: NodeId, j: nat, m: NodeId)
    requires RunningAsWritten(cfg, run) && |cfg.peers| <= 2
    requires Present(run, i, n) && |NodeAt(run, i, n).log| > 1
    requires Present(run, j, m) && |NodeAt(run, j, m).log| > 1
    requires LastTerm(NodeAt(run, i, n).log) < LastTerm(NodeAt(run, j, m).log)
    ensures n == m
  {
    var hs := RunHistory(cfg, run);
    var a, b := NodeAt(run, i, n).log, NodeAt(run, j, m).log;
    var k := |a| - 1;
    EntriesAreOwn(cfg, run, i, n, k);
    var p :| 0 <= p <= i && LedWith(run, p, n, a[..k + 1]);
    assert a[..k + 1] == a;
    var last := if p <= j then j else p;
    InLaterElected(cfg, run, hs, p, n, k, j, m, last);
    assert a[k] == b[k];
    if n != m {
      NothingInCommon(cfg, run, i, n, j, m, k, k);
    }
  }

  /** In a cluster of two a leader's own acknowledgement is a commit quorum: what it holds from its
      own term is in the log of every later leader from its election on. */
  lemma InLaterElected(cfg: Config, run: seq<Cluster>, hs: seq<History>, p: nat, n: NodeId, k: nat,
                       j: nat, m: NodeId, last: nat)
    requires Running(cfg, run) && IsHistory(cfg, run, hs) && |cfg.peers| <= 2
    requires LeadsAt(run, p, n) && Present(run, j, m) && |NodeAt(run, j, m).log| > 1
    requires p <= last && j <= last < |run|
    requires k < |NodeAt(run, p, n).log|
    requires NodeAt(run, p, n).log[k].term == NodeAt(run, p, n).currentTerm
    requires NodeAt(run, p, n).currentTerm < LastTerm(NodeAt(run, j, m).log)
    ensures NodeAt(run, p, n).log[..k + 1] <= NodeAt(run, j, m).log
  {
    var h, members := hs[last], cfg.peers.Keys;
    var t, b := NodeAt(run, p, n).currentTerm, NodeAt(run, j, m).log;
    var u := LastTerm(b);
    FactsAt(cfg, run, hs, p, n);
    assert Continues(hs[p], h) && Inv(cfg, run[last], h);
    LogRootedLater(cfg, run, hs, j, m, last);
    LongerThanElected(members, h, b);
    assert ReignContinues(hs[p].reigns[t], h.reigns[t]);
    assert OwnEntry(h, t, k) && Acked(h, n, t, k);
    SubsetSize({n}, Holders(members, h, t, k));
    assert |members| == |cfg.peers|;
    LeaderCompleteness(members, h, t, k, u);
    assert LeaderPrefix(h, t, k) == NodeAt(run, p, n).log[..k + 1];
    PrefixTransitive(LeaderPrefix(h, t, k), h.reigns[u].elected, b);
  }

  lemma TwoServersAreSafe(cfg: Config, run: seq<Cluster>)
    requires RunningAsWritten(cfg, run) && |cfg.peers| <= 2
    ensures SafeRun(run)
  {
    forall i: nat, n, j: nat, m | AppliesAt(run, i, n) && AppliesAt(run, j, m) ensures n == m {
      var hs := RunHistory(cfg, run);
      FactsAt(cfg, run, hs, i, n);
      FactsAt(cfg, run, hs, j, m);
      OnlyOneFills(cfg, run, i, n, j, m);
    }
    SafeRunIff(cfg, run);
  }

  // ---------- for which clusters every run is safe ----------

  lemma TwoMembers(cfg: Config) returns (a: NodeId, b: NodeId)
    requires |cfg.peers| >= 2
    ensures a in cfg.peers && b in cfg.peers && a != b
  {
    a :| a in cfg.peers;
    assert |cfg.peers.Keys - {a}| >= 1;
    b :| b in cfg.peers.Keys - {a};
  }

  lemma BothApplied(run: seq<Cluster>, a: NodeId, b: NodeId, entryA: LogEntry, entryB: LogEntry)
    requires |run| > 0 && a in run[|run| - 1].servers && b in run[|run| - 1].servers
    requires AppliedOne(run[|run| - 1].servers[a].node, entryA)
    requires AppliedOne(run[|run| - 1].servers[b].node, entryB) && entryA != entryB
    ensures !SafeRun(run)
  {
    var last := |run| - 1;
    assert NodeAt(run, last, a).log[..2][1] == entryA && NodeAt(run, last, b).log[..2][1] == entryB;
    assert !AgreeAt(run, last, a, last, b);
  }

  /** As written, but with replies matched to their requests, every run of a cluster is safe if and
      only if it has at most two servers. */
  lemma SafeClusterIff(cfg: Config)
    requires ValidConfig(cfg) && cfg.matchesReplies && !cfg.sendsEntries
    ensures (forall run :: IsRun(cfg, run) ==> SafeRun(run)) <==> |cfg.peers| <= 2
  {
    if |cfg.peers| <= 2 {
      forall run | IsRun(cfg, run) ensures SafeRun(run) {
        TwoServersAreSafe(cfg, run);
      }
    } else {
      var a, b := TwoMembers(cfg);
      var run := AsWrittenViolatesStateMachineSafety(cfg, a, b, "k", "v", "w");
      BothApplied(run, a, b, LogEntry(1, 1, "k", "v"), LogEntry(2, 1, "k", "w"));
    }
  }

  /** Only these servers accept submissions. */
  ghost predicate SubmittedWithin(run: seq<Cluster>, submitters: set<NodeId>) {
    forall i, n :: AcceptsAt(run, i, n) ==> n in submitters
  }

  lemma {:induction false} LogsOnlyGrow(cfg: Config, run: seq<Cluster>, i: nat, j: nat, n: NodeId)
    requires RunningAsWritten(cfg, run) && Present(run, i, n) && i <= j < |run|
    ensures Present(run, j, n) && |NodeAt(run, i, n).log| <= |NodeAt(run, j, n).log|
    decreases j - i
  {
    if i < j {
      OnlySubmissionsGrow(cfg, run, i, n);
      LogsOnlyGrow(cfg, run, i + 1, j, n);
    }
  }

  /** A server that ends with an empty log has accepted nothing. */
  lemma AcceptedIsKept(cfg: Config, run: seq<Cluster>, i: nat, n: NodeId)
    requires RunningAsWritten(cfg, run) && AcceptsAt(run, i, n)
    ensures Present(run, |run| - 1, n) && |NodeAt(run, |run| - 1, n).log| > 1
  {
    LogsOnlyGrow(cfg, run, i + 1, |run| - 1, n);
  }

  /** Of at least three servers, every run in which only the given ones accept submissions is safe
      if and only if there is at most one of them. */
  lemma SubmittersIff(cfg: Config, submitters: set<NodeId>)
    requires ValidConfig(cfg) && cfg.matchesReplies && !cfg.sendsEntries && |cfg.peers| >= 3
    requires submitters <= cfg.peers.Keys
    ensures (forall run :: IsRun(cfg, run) && SubmittedWithin(run, submitters) ==> SafeRun(run))
       <==> |submitters| <= 1
  {
    if |submitters| <= 1 {
      forall run | IsRun(cfg, run) && SubmittedWithin(run, submitters) ensures SafeRun(run) {
        FewSubmittersAreSafe(cfg, run, submitters);
      }
    } else {
      var a :| a in submitters;
      assert |submitters - {a}| >= 1;
      var b :| b in submitters - {a};
      var run := AsWrittenViolatesStateMachineSafety(cfg, a, b, "k", "v", "w");
      forall i, n | AcceptsAt(run, i, n) ensures n in submitters {
        AcceptedIsKept(cfg, run, i, n);
      }
      BothApplied(run, a, b, LogEntry(1, 1, "k", "v"), LogEntry(2, 1, "k", "w"));
    }
  }

  lemma FewSubmittersAreSafe(cfg: Config, run: seq<Cluster>, submitters: set<NodeId>)
    requires RunningAsWritten(cfg, run) && SubmittedWithin(run, submitters) && |submitters| <= 1
    ensures SafeRun(run)
  {
    var only :| forall n :: n in submitters ==> n == only by {
      if submitters == {} {
        assert forall n :: n in submitters ==> n == NO_VOTE;
      } else {
        var m :| m in submitters;
        SubsetSize({m}, submitters);
        assert submitters == {m} + (submitters - {m}) && submitters - {m} == {};
      }
    }
    OneSubmitterIsSafe(cfg, run, only);
  }
}
