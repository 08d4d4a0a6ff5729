/** Message and state types of the Raft core (src/raft/RaftTypes.h, src/raft/RaftNode.h). */
module RaftTypes {

  datatype Option<+T> = None | Some(value: T)

  type NodeId = string

  // The empty string in votedFor means that no vote has been cast.
  const NO_VOTE: NodeId := ""

  datatype RaftRole = Follower | Candidate | Leader

  datatype LogEntry = LogEntry(term: nat, index: nat, key: string, value: string)

  type Log = seq<LogEntry>

  // Every log starts with this entry, so that real entries are numbered from 1.
  const DUMMY: LogEntry := LogEntry(0, 0, "", "")

  datatype RequestVoteArgs =
    RequestVoteArgs(term: nat, candidateId: NodeId, lastLogIndex: nat, lastLogTerm: nat)

  datatype RequestVoteReply = RequestVoteReply(term: nat, voteGranted: bool)

  datatype AppendEntriesArgs =
    AppendEntriesArgs(term: nat, leaderId: NodeId, prevLogIndex: nat, prevLogTerm: nat,
                      entries: seq<LogEntry>, leaderCommit: nat)

  datatype AppendEntriesReply = AppendEntriesReply(term: nat, success: bool)

  type Store = map<string, string>

  /** Everything a node's mutex protects, plus the key-value store it applies entries to. */
  datatype NodeState = NodeState(
    currentTerm: nat,
    votedFor: NodeId,
    log: Log,
    commitIndex: nat,
    lastApplied: nat,
    nextIndex: map<NodeId, nat>,
    matchIndex: map<NodeId, nat>,
    role: RaftRole,
    store: Store)

  function SeqSet<T(==)>(s: seq<T>): set<T> {
    set x | x in s
  }

  ghost predicate Distinct<T>(s: seq<T>) {
    forall i, j :: 0 <= i < j < |s| ==> s[i] != s[j]
  }

  lemma {:induction false} DistinctSize<T>(s: seq<T>)
    requires Distinct(s)
    ensures |SeqSet(s)| == |s|
  {
    if s == [] {
      assert SeqSet(s) == {};
    } else {
      DistinctSize(s[1..]);
      assert s[0] !in s[1..];
      assert SeqSet(s) == {s[0]} + SeqSet(s[1..]);
    }
  }

  /** The log starts with the dummy and every entry's index field is its position. */
  ghost predicate WellFormed(log: Log) {
    && |log| > 0
    && log[0] == DUMMY
    && forall i :: 0 <= i < |log| ==> log[i].index == i
  }

  /** The store after the entries have been put one by one. */
  function FoldPuts(store: Store, entries: seq<LogEntry>): Store {
    if entries == [] then store
    else
      var last := entries[|entries| - 1];
      FoldPuts(store, entries[..|entries| - 1])[last.key := last.value]
  }

  lemma FoldPutsNext(store: Store, log: seq<LogEntry>, from: nat, to: nat)
    requires from <= to < |log|
    ensures FoldPuts(store, log[from..to + 1])
         == FoldPuts(store, log[from..to])[log[to].key := log[to].value]
  {
    var entries := log[from..to + 1];
    assert entries[..|entries| - 1] == log[from..to];
  }

  lemma {:induction false} FoldPutsConcat(store: Store, a: seq<LogEntry>, b: seq<LogEntry>)
    ensures FoldPuts(store, a + b) == FoldPuts(FoldPuts(store, a), b)
  {
    if b == [] {
      assert a + b == a;
    } else {
      var init := b[..|b| - 1];
      assert (a + b)[..|a + b| - 1] == a + init;
      FoldPutsConcat(store, a, init);
    }
  }
}
