/** The node object of RaftNode.cpp: methods that update the protocol state in place. Each
    contract ties the new state to a function of RaftSteps or RaftRounds. */
module RaftNodeObject {
  import opened RaftTypes
  import opened LogMerge
  import opened CommitRule
  import opened RaftSteps
  import opened RaftRounds
  import opened RaftAnswers

  class RaftNode {
    const nodeId: NodeId
    const peers: seq<NodeId>

    // False in the code as it is: the entries a leader collects are not put in its requests.
    const sendsEntries: bool

    var currentTerm: nat
    var votedFor: NodeId
    var logs: seq<LogEntry>
    var commitIndex: nat
    var lastApplied: nat
    var nextIndex: map<NodeId, nat>
    var matchIndex: map<NodeId, nat>
    var role: RaftRole
    var store: Store

    ghost function State(): NodeState
      reads this
    {
      NodeState(currentTerm, votedFor, logs, commitIndex, lastApplied, nextIndex, matchIndex,
                role, store)
    }

    ghost predicate Valid()
      reads this
    {
      Distinct(peers) && LocalOk(peers, State())
    }

    constructor (nodeId: NodeId, peers: seq<NodeId>, sendsEntries: bool)
      requires Distinct(peers)
      ensures Valid() && this.nodeId == nodeId && this.peers == peers
      ensures this.sendsEntries == sendsEntries
      ensures State() == NodeState(0, NO_VOTE, [DUMMY], 0, 0, map[], map[], Follower, map[])
    {
      this.nodeId := nodeId;
      this.peers := peers;
      this.sendsEntries := sendsEntries;
      currentTerm := 0;
      votedFor := NO_VOTE;
      logs := [DUMMY];
      commitIndex := 0;
      lastApplied := 0;
      nextIndex := map[];
      matchIndex := map[];
      role := Follower;
      store := map[];
    }

    method HandleRequestVote(args: RequestVoteArgs) returns (reply: RequestVoteReply)
      requires Valid()
      modifies this
      ensures Valid()
      ensures (State(), reply) == RaftSteps.HandleRequestVote(old(State()), args)
      ensures VoteAnswer(old(State()), args, State(), reply)
    {
      VoteAnswered(State(), args);
      reply := RequestVoteReply(currentTerm, false);
      if args.term < currentTerm {
        return;
      }
      if args.term > currentTerm {
        currentTerm := args.term;
        role := Follower;
        votedFor := NO_VOTE;
      }
      var myLastLogTerm := logs[|logs| - 1].term;
      var myLastLogIndex := logs[|logs| - 1].index;
      var logIsUpToDate :=
        args.lastLogTerm > myLastLogTerm
        || (args.lastLogTerm == myLastLogTerm && args.lastLogIndex >= myLastLogIndex);
      if (votedFor == NO_VOTE || votedFor == args.candidateId) && logIsUpToDate {
        votedFor := args.candidateId;
        reply := reply.(voteGranted := true);
      }
      reply := reply.(term := currentTerm);
    }

    method HandleAppendEntries(args: AppendEntriesArgs) returns (reply: AppendEntriesReply)
      requires Valid() && Numbered(args)
      modifies this
      ensures Valid()
      ensures (State(), reply) == RaftSteps.HandleAppendEntries(old(State()), args)
      ensures AppendAnswer(old(State()), args, State(), reply)
    {
      AppendAnswered(State(), args);
      HandleAppendEntriesKeepsLocalOk(peers, State(), args);
      reply := AppendEntriesReply(currentTerm, false);
      if args.term < currentTerm {
        return;
      }
      role := Follower;
      currentTerm := args.term;
      if args.prevLogIndex >= |logs| || logs[args.prevLogIndex].term != args.prevLogTerm {
        return;
      }
      MergeLogs(args.prevLogIndex, args.entries);
      CommitUpTo(args.leaderCommit);
      reply := AppendEntriesReply(currentTerm, true);
    }

    method CommitUpTo(leaderCommit: nat)
      requires WellFormed(logs)
      modifies this`commitIndex, this`lastApplied, this`store
      ensures State() == Commit(old(State()), leaderCommit)
    {
      if leaderCommit > commitIndex {
        commitIndex := if leaderCommit <= logs[|logs| - 1].index
                       then leaderCommit else logs[|logs| - 1].index;
        ApplyCommittedLogs();
      }
    }

    /** Conflict scan, erasure and appending amount to the declarative merge. */
    method MergeLogs(prev: nat, entries: seq<LogEntry>)
      requires WellFormed(logs) && prev < |logs|
      requires forall i :: 0 <= i < |entries| ==> entries[i].index == prev + 1 + i
      modifies this`logs
      ensures logs == Merge(old(logs), prev, entries) && WellFormed(logs)
    {
      MergeWellFormed(logs, prev, entries);
      var i := EraseConflict(prev, entries);
      AppendFrom(i, entries);
    }

    /** The scan may run to the end of the log or of the entries, or stop at a conflict. */
    method EraseConflict(prev: nat, entries: seq<LogEntry>) returns (i: nat)
      requires prev < |logs|
      modifies this`logs
      ensures i == MatchLength(old(logs), prev + 1, entries)
      ensures logs == if i < |entries| then old(logs)[..prev + 1 + i] else old(logs)
    {
      ghost var m := MatchLength(logs, prev + 1, entries);
      var next := prev + 1;
      i := 0;
      while next < |logs| && i < |entries|
        invariant next == prev + 1 + i && i <= m
        invariant logs == old(logs)
      {
        if logs[next].term != entries[i].term {
          logs := logs[..next];
          return;
        }
        next := next + 1;
        i := i + 1;
      }
      assert i < |entries| ==> logs[..next] == logs;
    }

    method AppendFrom(i: nat, entries: seq<LogEntry>)
      requires i <= |entries|
      modifies this`logs
      ensures logs == old(logs) + entries[i..]
    {
      var j := i;
      while j < |entries|
        invariant i <= j <= |entries|
        invariant logs == old(logs) + entries[i..j]
      {
        assert entries[i..j + 1] == entries[i..j] + [entries[j]];
        logs := logs + [entries[j]];
        j := j + 1;
      }
    }

    method ApplyCommittedLogs()
      requires lastApplied < commitIndex ==> commitIndex < |logs|
      modifies this`lastApplied, this`store
      ensures State() == Apply(old(State()))
    {
      ghost var from := lastApplied;
      ghost var before := store;
      while lastApplied < commitIndex
        invariant from <= lastApplied && (lastApplied <= commitIndex || lastApplied == from)
        invariant lastApplied < |logs| || lastApplied == from
        invariant from < commitIndex ==> store == FoldPuts(before, logs[from + 1..lastApplied + 1])
        invariant from >= commitIndex ==> store == before
      {
        FoldPutsNext(before, logs, from + 1, lastApplied + 1);
        lastApplied := lastApplied + 1;
        var entry := logs[lastApplied];
        store := store[entry.key := entry.value];
      }
    }

    method SubmitLog(key: string, value: string) returns (accepted: bool)
      requires Valid()
      modifies this
      ensures Valid()
      ensures (State(), accepted) == RaftSteps.SubmitLog(old(State()), key, value)
      ensures accepted <==> old(role) == Leader
      ensures logs == if accepted then old(logs) + [LogEntry(currentTerm, |old(logs)|, key, value)]
                      else old(logs)
    {
      if role != Leader {
        return false;
      }
      var entry := LogEntry(currentTerm, logs[|logs| - 1].index + 1, key, value);
      logs := logs + [entry];
      return true;
    }

    /** One election. outcomes[i] is what the call to peers[i] brings back; every request sent
        is returned with its addressee. */
    method StartElection(outcomes: seq<Option<RequestVoteReply>>)
      returns (sent: seq<(NodeId, RequestVoteArgs)>)
      requires Valid() && |outcomes| == |peers|
      requires role != Leader
      modifies this
      ensures Valid()
      ensures State() == ElectionRound(nodeId, peers, old(State()), outcomes)
      ensures |sent| <= |peers|
      ensures forall i :: 0 <= i < |sent| ==>
                sent[i] == (peers[i], VoteArgs(nodeId, BecomeCandidate(nodeId, old(State())).node))
      ensures ElectionOutcome(nodeId, peers, old(State()), outcomes, State())
      ensures || (|sent| > 0 && FirstDeposing(outcomes, old(currentTerm) + 1, |sent| - 1))
              || (|sent| == |peers| && NoneDeposes(outcomes, old(currentTerm) + 1))
    {
      ElectionDecides(nodeId, peers, State(), outcomes);
      ghost var candidate := BecomeCandidate(nodeId, State());
      role := Candidate;
      currentTerm := currentTerm + 1;
      votedFor := nodeId;
      assert State() == candidate.node;
      var args := RequestVoteArgs(currentTerm, nodeId, logs[|logs| - 1].index,
                                  logs[|logs| - 1].term);
      var votes, done;
      sent, votes, done := CollectVotes(args, outcomes);
      if done {
        return;
      }
      var majority := (|peers| + 1) / 2 + 1;
      if votes >= majority {
        BecomeLeader(votes);
      }
    }

    method BecomeLeader(ghost votes: nat)
      requires Valid() && role == Candidate && votes >= VoteQuorum(|peers| + 1)
      modifies this
      ensures Valid()
      ensures State()
           == FinishElection(peers, Server(old(State()), Electing(|peers|, votes))).node
      ensures role == Leader
    {
      FinishElectionKeepsLocalOk(peers, Server(State(), Electing(|peers|, votes)));
      role := Leader;
      InitLeaderIndices();
    }

    method CollectVotes(args: RequestVoteArgs, outcomes: seq<Option<RequestVoteReply>>)
      returns (sent: seq<(NodeId, RequestVoteArgs)>, votes: nat, done: bool)
      requires Valid() && |outcomes| == |peers| && role == Candidate
      modifies this`currentTerm, this`role, this`votedFor
      ensures Valid()
      ensures ElectionLoop(Server(old(State()), Electing(0, 1)), outcomes)
           == Server(State(), if done then Idle else Electing(|peers|, votes))
      ensures forall i :: 0 <= i < |sent| ==> i < |peers| && sent[i] == (peers[i], args)
      ensures if done then |sent| > 0 && FirstDeposing(outcomes, old(currentTerm), |sent| - 1)
              else |sent| == |peers| && NoneDeposes(outcomes, old(currentTerm))
      ensures if done then role == Follower && currentTerm > old(currentTerm) else State() == old(State())
    {
      ghost var start := Server(State(), Electing(0, 1));
      votes := 1;
      sent := [];
      done := false;
      var i := 0;
      while i < |peers|
        invariant i == |sent| <= |peers|
        invariant unchanged(this)
        invariant ElectionLoop(Server(State(), Electing(i, votes)), outcomes)
               == ElectionLoop(start, outcomes)
        invariant forall k :: 0 <= k < |sent| ==> sent[k] == (peers[k], args)
        invariant forall k :: 0 <= k < i ==> !Deposes(outcomes[k], currentTerm)
      {
        sent := sent + [(peers[i], args)];
        if outcomes[i].Some? {
          var reply := outcomes[i].value;
          if reply.voteGranted {
            votes := votes + 1;
          } else if reply.term > currentTerm {
            currentTerm := reply.term;
            role := Follower;
            votedFor := NO_VOTE;
            return sent, votes, true;
          }
        }
        i := i + 1;
      }
    }

    method InitLeaderIndices()
      requires Distinct(peers)
      modifies this`nextIndex, this`matchIndex
      ensures nextIndex == SetAll(old(nextIndex), peers, |logs|)
      ensures matchIndex == SetAll(old(matchIndex), peers, 0)
    {
      var i := 0;
      SetAllNone(old(nextIndex), |logs|);
      SetAllNone(old(matchIndex), 0);
      while i < |peers|
        invariant i <= |peers|
        invariant nextIndex == SetAll(old(nextIndex), peers[..i], |logs|)
        invariant matchIndex == SetAll(old(matchIndex), peers[..i], 0)
      {
        SetAllExtend(old(nextIndex), peers[..i], peers[i], |logs|);
        SetAllExtend(old(matchIndex), peers[..i], peers[i], 0);
        assert peers[..i + 1] == peers[..i] + [peers[i]];
        nextIndex := nextIndex[peers[i] := |logs|];
        matchIndex := matchIndex[peers[i] := 0];
        i := i + 1;
      }
      assert peers[..i] == peers;
    }

    /** One pass of the heartbeat loop over all peers. Every request sent is returned with its
        addressee. */
    method Heartbeat(outcomes: seq<Option<AppendEntriesReply>>)
      returns (sent: seq<(NodeId, AppendEntriesArgs)>)
      requires Valid() && |outcomes| == |peers|
      modifies this
      ensures Valid()
      ensures Round(State(), sent)
           == HeartbeatRound(sendsEntries, nodeId, peers, old(State()), outcomes)
    {
      sent := [];
      if role != Leader {
        return;
      }
      ghost var start := Server(State(), Heartbeating(0));
      var i := 0;
      while i < |peers|
        invariant i <= |peers|
        invariant Valid() && role == Leader
        invariant HeartbeatLoop(sendsEntries, nodeId, peers, Server(State(), Heartbeating(i)),
                                outcomes, sent)
               == HeartbeatLoop(sendsEntries, nodeId, peers, start, outcomes, [])
      {
        var stop, args := ReplicateTo(i, outcomes[i]);
        sent := sent + [(peers[i], args)];
        if stop {
          return;
        }
        i := i + 1;
      }
    }

    method ReplicateTo(i: nat, outcome: Option<AppendEntriesReply>)
      returns (stop: bool, args: AppendEntriesArgs)
      requires Valid() && role == Leader && i < |peers|
      modifies this
      ensures Valid() && (stop || role == Leader)
      ensures Server(State(), if stop then Idle else Heartbeating(i + 1))
           == TakeAppendReply(peers, Server(old(State()), Heartbeating(i)), outcome)
      ensures AckOutcome(peers, Server(old(State()), Heartbeating(i)), peers[i], outcome,
                         Server(State(), if stop then Idle else Heartbeating(i + 1)))
      ensures peers[i] in old(nextIndex) && 1 <= old(nextIndex[peers[i]]) <= |old(logs)|
      ensures args == AppendArgs(sendsEntries, nodeId, old(State()), peers[i])
    {
      TakeAppendReplyKeepsLocalOk(peers, Server(State(), Heartbeating(i)), outcome);
      AckTaken(peers, Server(State(), Heartbeating(i)), outcome);
      var peer := peers[i];
      assert peer in SeqSet(peers);
      var next := nextIndex[peer];
      var entries := CollectEntries(next);
      args := AppendEntriesArgs(currentTerm, nodeId, next - 1, logs[next - 1].term,
                                if sendsEntries then entries else [], commitIndex);
      stop := false;
      if outcome.Some? {
        var reply := outcome.value;
        if reply.success {
          AcceptSuccess(peer, next, |entries|);
        } else if reply.term > currentTerm {
          currentTerm := reply.term;
          role := Follower;
          votedFor := NO_VOTE;
          stop := true;
        } else if nextIndex[peer] > 1 {
          nextIndex := nextIndex[peer := nextIndex[peer] - 1];
        }
      }
    }

    method CollectEntries(next: nat) returns (entries: seq<LogEntry>)
      requires next <= |logs|
      ensures entries == logs[next..]
    {
      entries := [];
      var i := next;
      while i < |logs|
        invariant next <= i <= |logs| && entries == logs[next..i]
      {
        entries := entries + [logs[i]];
        i := i + 1;
      }
    }

    method AcceptSuccess(peer: NodeId, next: nat, sent: nat)
      requires Valid() && role == Leader && peer in peers
      requires peer in nextIndex && next == nextIndex[peer] && next + sent == |logs|
      modifies this
      ensures LocalOk(peers, RecordSuccess(old(State()), peer))
      ensures State() == AdvanceCommit(peers, RecordSuccess(old(State()), peer))
    {
      assert peer in SeqSet(peers);
      nextIndex := nextIndex[peer := next + sent];
      matchIndex := matchIndex[peer := nextIndex[peer] - 1];
      assert State() == RecordSuccess(old(State()), peer);
      AdvanceCommitIndex();
    }

    method AdvanceCommitIndex()
      requires Valid() && role == Leader
      modifies this`commitIndex, this`lastApplied, this`store
      ensures State() == AdvanceCommit(peers, old(State()))
    {
      ghost var s := State();
      var matchIndices := CollectMatchIndices();
      CollectedLikeReplicaIndices(peers, s, matchIndices);
      ReplicaIndicesInRange(peers, s);
      var newCommitIndex := SortDescending(matchIndices)[(|matchIndices| - 1) / 2];
      assert newCommitIndex == CommitCandidate(ReplicaIndices(peers, s));
      if newCommitIndex > commitIndex && logs[newCommitIndex].term == currentTerm {
        commitIndex := newCommitIndex;
        ApplyCommittedLogs();
      }
    }

    /** The match indices are collected in whatever order the hash map yields them. */
    method CollectMatchIndices() returns (matchIndices: seq<nat>)
      requires Valid() && role == Leader
      ensures |matchIndices| == 1 + |SeqSet(peers)|
      ensures forall v: nat ::
                CountAtLeast(matchIndices, v)
                == (if |logs| - 1 >= v then 1 else 0) + |ReachedBy(SeqSet(peers), matchIndex, v)|
    {
      matchIndices := [|logs| - 1];
      var rest := matchIndex.Keys;
      ghost var done: set<NodeId> := {};
      while rest != {}
        invariant rest !! done && rest + done == matchIndex.Keys
        invariant |matchIndices| == 1 + |done|
        invariant forall v: nat :: CountAtLeast(matchIndices, v)
                    == (if |logs| - 1 >= v then 1 else 0) + |ReachedBy(done, matchIndex, v)|
        decreases rest
      {
        var p :| p in rest;
        CollectedOneMore(matchIndices, |logs| - 1, done, matchIndex, p);
        matchIndices := matchIndices + [matchIndex[p]];
        rest := rest - {p};
        done := done + {p};
      }
      assert done == SeqSet(peers);
    }
  }

  lemma SetAllNone(m: map<NodeId, nat>, v: nat)
    ensures SetAll(m, [], v) == m
  {
  }

  lemma SetAllExtend(m: map<NodeId, nat>, ps: seq<NodeId>, p: NodeId, v: nat)
    ensures SetAll(m, ps + [p], v) == SetAll(m, ps, v)[p := v]
  {
    var a, b := SetAll(m, ps + [p], v), SetAll(m, ps, v)[p := v];
    assert a.Keys == b.Keys;
    forall q | q in a ensures a[q] == b[q] {
    }
  }

  lemma CollectedOneMore(collected: seq<nat>, last: nat, done: set<NodeId>, m: map<NodeId, nat>,
                         p: NodeId)
    requires p in m && p !in done
    requires forall v: nat :: CountAtLeast(collected, v)
               == (if last >= v then 1 else 0) + |ReachedBy(done, m, v)|
    ensures forall v: nat :: CountAtLeast(collected + [m[p]], v)
              == (if last >= v then 1 else 0) + |ReachedBy(done + {p}, m, v)|
  {
    forall v: nat
      ensures CountAtLeast(collected + [m[p]], v)
           == (if last >= v then 1 else 0) + |ReachedBy(done + {p}, m, v)|
    {
      CountConcat(collected, [m[p]], v);
      ReachedByAdd(done, m, p, v);
    }
  }

  lemma CollectedLikeReplicaIndices(peers: seq<NodeId>, s: NodeState, collected: seq<nat>)
    requires Distinct(peers) && |s.log| > 0 && s.matchIndex.Keys == SeqSet(peers)
    requires |collected| == 1 + |SeqSet(peers)|
    requires forall v: nat :: CountAtLeast(collected, v)
               == (if |s.log| - 1 >= v then 1 else 0) + |ReachedBy(SeqSet(peers), s.matchIndex, v)|
    ensures forall p :: p in peers ==> p in s.matchIndex
    ensures collected != [] && CommitCandidate(collected) == CommitCandidate(ReplicaIndices(peers, s))
  {
    assert forall p :: p in peers ==> p in SeqSet(peers);
    var r := ReplicaIndices(peers, s);
    forall v: nat ensures CountAtLeast(collected, v) == CountAtLeast(r, v) {
      MatchValuesCount(peers, s.matchIndex, v);
      assert r[1..] == MatchValues(peers, s.matchIndex);
    }
    DistinctSize(peers);
    CommitCandidateIgnoresOrder(collected, r);
  }
}
