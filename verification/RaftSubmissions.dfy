/** Nothing is made up: every entry of every log, and so everything in every store, was submitted to a
    leader of the entry's term. */
module RaftSubmissions {
  import opened RaftTypes
  import opened LogMerge
  import opened RaftSteps
  import opened RaftCluster
  import opened RaftRedelivery
  import opened RaftSafety
  import opened RaftCommitOrigin

  /** In step k a client submits the key and value to server n. */
  ghost predicate Submits(cfg: Config, run: seq<Cluster>, k: nat, n: NodeId, key: string,
                          value: string) {
    k + 1 < |run| && StepBy(cfg, run[k], run[k + 1], n, Submit(key, value))
  }

  /** A leader appends exactly one entry, of its term, at the next position and with the key and
      value submitted; anybody else changes nothing. */
  lemma SubmissionAppends(cfg: Config, run: seq<Cluster>, k: nat, n: NodeId, key: string,
                          value: string)
    requires Running(cfg, run) && Submits(cfg, run, k, n, key, value)
    ensures Present(run, k, n) && Present(run, k + 1, n)
    ensures var s, s' := NodeAt(run, k, n), NodeAt(run, k + 1, n);
            s' == if s.role == Leader
                  then s.(log := s.log + [LogEntry(s.currentTerm, |s.log|, key, value)]) else s
  {
    AccessesStayInRange(cfg, run, k, n, Submit(key, value));
  }

  // ---------- where entries come from ----------

  /** In step k the entry was submitted to n, which led the entry's term, and got its position. */
  ghost predicate Accepted(cfg: Config, run: seq<Cluster>, k: nat, n: NodeId, entry: LogEntry) {
    && Submits(cfg, run, k, n, entry.key, entry.value)
    && LeadsAt(run, k, n) && NodeAt(run, k, n).currentTerm == entry.term
    && |NodeAt(run, k, n).log| == entry.index
  }

  ghost predicate AcceptedBefore(cfg: Config, run: seq<Cluster>, i: nat, entry: LogEntry) {
    exists k, n :: 0 <= k < i && Accepted(cfg, run, k, n, entry)
  }

  lemma AcceptedLater(cfg: Config, run: seq<Cluster>, i: nat, j: nat, entry: LogEntry)
    requires AcceptedBefore(cfg, run, i, entry) && i <= j
    ensures AcceptedBefore(cfg, run, j, entry)
  {
    var k, n :| 0 <= k < i && Accepted(cfg, run, k, n, entry);
  }

  /** What an action adds to the log of the server that takes it. */
  lemma NewEntries(cfg: Config, c: Cluster, n: NodeId, action: Action, v: nat)
    requires Enabled(cfg, c, n, action) && Safe(cfg, c, n, action)
    requires v < |Effect(cfg, c, n, action).0.node.log|
    ensures var s, entry := c.servers[n].node, Effect(cfg, c, n, action).0.node.log[v];
            || (v < |s.log| && entry == s.log[v])
            || (s.role == Leader && entry.term == s.currentTerm && entry.index == |s.log|
                && action == Submit(entry.key, entry.value))
            || (action.ReceiveAppendRequest? && entry in action.appendArgs.entries)
  {
    match action
    case ReceiveAppendRequest(args) => NewCarried(c.servers[n].node, args, v);
    case Submit(key, value) =>
    case _ => OthersAddNothing(cfg, c, n, action);
  }

  lemma OthersAddNothing(cfg: Config, c: Cluster, n: NodeId, action: Action)
    requires Enabled(cfg, c, n, action) && Safe(cfg, c, n, action)
    requires !action.ReceiveAppendRequest? && !action.Submit?
    ensures Effect(cfg, c, n, action).0.node.log == c.servers[n].node.log
  {
  }

  lemma NewCarried(s: NodeState, args: AppendEntriesArgs, v: nat)
    requires WellFormed(s.log) && Numbered(args)
    requires v < |HandleAppendEntries(s, args).0.log|
    ensures var entry := HandleAppendEntries(s, args).0.log[v];
            (v < |s.log| && entry == s.log[v]) || entry in args.entries
  {
    if HandleAppendEntries(s, args).1.success {
      AcceptedForm(s, args);
      CommitTwice(Merged(s, args), args.leaderCommit);
      MergedEntry(s.log, args.prevLogIndex, args.entries, v);
    }
  }

  lemma MergedEntry(log: Log, prev: nat, entries: seq<LogEntry>, v: nat)
    requires prev < |log| && v < |Merge(log, prev, entries)|
    ensures (v < |log| && Merge(log, prev, entries)[v] == log[v])
         || Merge(log, prev, entries)[v] in entries
  {
    var m := MatchLength(log, prev + 1, entries);
    if m < |entries| && v >= prev + 1 + m {
      assert Merge(log, prev, entries)[v] == entries[m..][v - prev - 1 - m];
    }
  }

  /** An entry that a step adds to a log has just been submitted, or was in a request. */
  lemma AddedEntry(cfg: Config, run: seq<Cluster>, i: nat, n: NodeId, v: nat)
    returns (args: AppendEntriesArgs)
    requires Running(cfg, run) && Present(run, i, n) && Present(run, i + 1, n)
    requires v < |NodeAt(run, i + 1, n).log|
    ensures var s, entry := NodeAt(run, i, n), NodeAt(run, i + 1, n).log[v];
            || (v < |s.log| && entry == s.log[v])
            || Accepted(cfg, run, i, n, entry)
            || (AppendRequest(n, args) in run[i].net && entry in args.entries)
  {
    var m, action := StepOf(cfg, run, i);
    args :| true;
    if m == n {
      NewEntries(cfg, run[i], n, action, v);
      if action.ReceiveAppendRequest? {
        args := action.appendArgs;
      }
    }
  }

  /** Every entry but the dummy was submitted to the leader of its term, at the position it has. */
  lemma {:induction false} EntriesWereSubmitted(cfg: Config, run: seq<Cluster>, i: nat, n: NodeId,
                                                v: nat)
    requires Running(cfg, run) && Present(run, i, n) && 1 <= v < |NodeAt(run, i, n).log|
    ensures AcceptedBefore(cfg, run, i, NodeAt(run, i, n).log[v])
    decreases i, 0
  {
    if i > 0 {
      var entry := NodeAt(run, i, n).log[v];
      WasPresent(cfg, run, i - 1, n);
      var args := AddedEntry(cfg, run, i - 1, n, v);
      if v < |NodeAt(run, i - 1, n).log| && entry == NodeAt(run, i - 1, n).log[v] {
        EntriesWereSubmitted(cfg, run, i - 1, n, v);
        AcceptedLater(cfg, run, i - 1, i, entry);
      } else if !Accepted(cfg, run, i - 1, n, entry) {
        CarriedWereSubmitted(cfg, run, i - 1, n, args, entry);
        AcceptedLater(cfg, run, i - 1, i, entry);
      }
    }
  }

  lemma WasPresent(cfg: Config, run: seq<Cluster>, i: nat, n: NodeId)
    requires Running(cfg, run) && Present(run, i + 1, n)
    ensures Present(run, i, n)
  {
    var m, action := StepOf(cfg, run, i);
    assert run[i + 1].servers.Keys == run[i].servers.Keys;
  }

  lemma {:induction false} CarriedWereSubmitted(cfg: Config, run: seq<Cluster>, i: nat, to: NodeId,
                                                args: AppendEntriesArgs, entry: LogEntry)
    requires Running(cfg, run) && i < |run| && AppendRequest(to, args) in run[i].net
    requires entry in args.entries
    ensures AcceptedBefore(cfg, run, i, entry)
    decreases i, 1
  {
    RequestsWereBuilt(cfg, run, i, to, args);
    var j :| 0 <= j <= i && BuiltAt(cfg, run, j, to, args);
    var x :| 0 <= x < |args.entries| && args.entries[x] == entry;
    var v := args.prevLogIndex + 1 + x;
    assert NodeAt(run, j, args.leaderId).log[v] == entry;
    EntriesWereSubmitted(cfg, run, j, args.leaderId, v);
    AcceptedLater(cfg, run, j, i, entry);
  }

  // ---------- what stores hold ----------

  ghost predicate PutBy(log: Log, v: nat, key: string, value: string) {
    1 <= v < |log| && log[v].key == key && log[v].value == value
  }

  lemma {:induction false} StoredByPut(log: Log, upTo: nat, key: string) returns (v: nat)
    requires upTo < |log| && key in FoldPuts(map[], log[1..upTo + 1])
    ensures v <= upTo && PutBy(log, v, key, FoldPuts(map[], log[1..upTo + 1])[key])
  {
    FoldPutsNext(map[], log, 1, upTo);
    if log[upTo].key == key {
      v := upTo;
    } else {
      v := StoredByPut(log, upTo - 1, key);
    }
  }

  /** Whatever a store holds for a key was submitted for that key, to a leader that accepted it, and
      has been committed by the node. */
  lemma StoresHoldSubmissions(cfg: Config, run: seq<Cluster>, i: nat, n: NodeId, key: string)
    returns (v: nat)
    requires Running(cfg, run) && Present(run, i, n) && key in NodeAt(run, i, n).store
    ensures var s := NodeAt(run, i, n);
            && 1 <= v <= s.commitIndex < |s.log| && PutBy(s.log, v, key, s.store[key])
            && AcceptedBefore(cfg, run, i, s.log[v])
  {
    AppliedAt(cfg, run, i, n);
    v := StoredByPut(NodeAt(run, i, n).log, NodeAt(run, i, n).commitIndex, key);
    EntriesWereSubmitted(cfg, run, i, n, v);
  }
}
