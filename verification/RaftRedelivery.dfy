/** Requests that arrive more than once. */
module RaftRedelivery {
  import opened RaftTypes
  import opened LogMerge
  import opened RaftSteps

  /** Asking for a vote again, before anything else happens, changes nothing and gets the same
      answer: a lost reply can be asked for again. */
  lemma VoteRequestTwice(s: NodeState, args: RequestVoteArgs)
    requires |s.log| > 0
    ensures var (s', reply) := HandleRequestVote(s, args);
            HandleRequestVote(s', args) == (s', reply)
  {
  }

  ghost predicate Accepts(s: NodeState, args: AppendEntriesArgs) {
    && args.term >= s.currentTerm && args.prevLogIndex < |s.log|
    && s.log[args.prevLogIndex].term == args.prevLogTerm
  }

  ghost function Merged(s: NodeState, args: AppendEntriesArgs): NodeState
    requires args.prevLogIndex < |s.log|
  {
    s.(role := Follower, currentTerm := args.term,
       log := Merge(s.log, args.prevLogIndex, args.entries))
  }

  lemma AcceptedForm(s: NodeState, args: AppendEntriesArgs)
    requires WellFormed(s.log) && Numbered(args) && Accepts(s, args)
    ensures WellFormed(Merged(s, args).log)
    ensures HandleAppendEntries(s, args)
         == (Commit(Merged(s, args), args.leaderCommit), AppendEntriesReply(args.term, true))
  {
    MergeWellFormed(s.log, args.prevLogIndex, args.entries);
  }

  /** Handling an AppendEntries request again changes nothing, and it succeeds again exactly if it
      did before. */
  lemma AppendRequestTwice(s: NodeState, args: AppendEntriesArgs)
    requires WellFormed(s.log) && Numbered(args)
    ensures WellFormed(HandleAppendEntries(s, args).0.log)
    ensures var (s', reply) := HandleAppendEntries(s, args);
            && HandleAppendEntries(s', args).0 == s'
            && HandleAppendEntries(s', args).1.success == reply.success
  {
    if Accepts(s, args) {
      AcceptedTwice(s, args);
    } else {
      RejectedTwice(s, args);
    }
  }

  lemma AcceptedTwice(s: NodeState, args: AppendEntriesArgs)
    requires WellFormed(s.log) && Numbered(args) && Accepts(s, args)
    ensures WellFormed(HandleAppendEntries(s, args).0.log)
    ensures HandleAppendEntries(HandleAppendEntries(s, args).0, args)
         == HandleAppendEntries(s, args)
  {
    AcceptedForm(s, args);
    MergeKeepsStart(s.log, args.prevLogIndex, args.entries);
    CommitTwice(Merged(s, args), args.leaderCommit);
    var s' := Commit(Merged(s, args), args.leaderCommit);
    MergeAbsorbsPrefix(s.log, args.prevLogIndex, args.entries, args.entries);
    assert s'.role == Follower && s'.currentTerm == args.term && Merged(s', args) == s';
    AcceptedForm(s', args);
  }

  lemma RejectedTwice(s: NodeState, args: AppendEntriesArgs)
    requires WellFormed(s.log) && Numbered(args) && !Accepts(s, args)
    ensures HandleAppendEntries(s, args).0.log == s.log
    ensures var (s', reply) := HandleAppendEntries(s, args);
            !reply.success && HandleAppendEntries(s', args).0 == s'
            && !HandleAppendEntries(s', args).1.success
  {
  }

  lemma MergeKeepsStart(log: Log, prev: nat, entries: seq<LogEntry>)
    requires prev < |log|
    ensures prev < |Merge(log, prev, entries)| && Merge(log, prev, entries)[prev] == log[prev]
  {
  }

  lemma CommitTwice(s: NodeState, leaderCommit: nat)
    requires WellFormed(s.log)
    ensures Commit(s, leaderCommit).log == s.log
    ensures Commit(Commit(s, leaderCommit), leaderCommit) == Commit(s, leaderCommit)
  {
  }
}
