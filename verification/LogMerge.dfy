/** How a follower reconciles its log with the entries of one AppendEntries request. */
module LogMerge {
  import opened RaftTypes

  /** Length of the longest run of entries whose terms the log already has from position `at`. */
  function MatchLength(log: Log, at: nat, entries: seq<LogEntry>): (m: nat)
    requires at <= |log|
    ensures m <= |entries| && at + m <= |log|
    ensures forall i :: 0 <= i < m ==> log[at + i].term == entries[i].term
    ensures m < |entries| && at + m < |log| ==> log[at + m].term != entries[m].term
    decreases |entries|
  {
    if at < |log| && |entries| > 0 && log[at].term == entries[0].term
    then 1 + MatchLength(log, at + 1, entries[1..])
    else 0
  }

  /** The merged log: the log itself when it already has every entry, otherwise the part up to
      the first missing or conflicting position followed by the entries from there on. */
  function Merge(log: Log, prev: nat, entries: seq<LogEntry>): Log
    requires prev < |log|
  {
    var m := MatchLength(log, prev + 1, entries);
    if m == |entries| then log else log[..prev + 1 + m] + entries[m..]
  }

  /** The log has the terms of the first n entries, from position prev + 1 on. */
  ghost predicate HasTerms(log: Log, prev: nat, entries: seq<LogEntry>, n: nat)
    requires n <= |entries|
  {
    prev + n < |log| && forall k :: 0 <= k < n ==> log[prev + 1 + k].term == entries[k].term
  }

  /** The merged log, entry by entry: up to prev as before; then each entry that has not all terms
      up to its own in the log already is the carried one; and the tail beyond the carried
      entries stays exactly if all their terms were there. */
  ghost predicate IsMerged(log: Log, prev: nat, entries: seq<LogEntry>, merged: Log) {
    var last := prev + |entries|;
    && prev < |log| && last < |merged| && merged[..prev + 1] == log[..prev + 1]
    && (forall i :: 0 <= i < |entries| ==>
          merged[prev + 1 + i] == if HasTerms(log, prev, entries, i + 1) then log[prev + 1 + i]
                                  else entries[i])
    && (if HasTerms(log, prev, entries, |entries|) then merged[last + 1..] == log[last + 1..]
        else |merged| == last + 1)
  }

  /** The scan gets as far as the terms are there. */
  lemma MatchLengthIs(log: Log, prev: nat, entries: seq<LogEntry>, n: nat)
    requires prev < |log| && n <= |entries|
    ensures HasTerms(log, prev, entries, n) <==> n <= MatchLength(log, prev + 1, entries)
  {
    var m := MatchLength(log, prev + 1, entries);
    if n > m && prev + 1 + m < |log| {
      assert log[prev + 1 + m].term != entries[m].term;
    }
  }

  lemma MergeIs(log: Log, prev: nat, entries: seq<LogEntry>)
    requires prev < |log|
    ensures IsMerged(log, prev, entries, Merge(log, prev, entries))
  {
    var m, merged := MatchLength(log, prev + 1, entries), Merge(log, prev, entries);
    MatchLengthIs(log, prev, entries, |entries|);
    forall i | 0 <= i < |entries|
      ensures merged[prev + 1 + i] == if HasTerms(log, prev, entries, i + 1) then log[prev + 1 + i]
                                      else entries[i]
    {
      MatchLengthIs(log, prev, entries, i + 1);
      if m <= i {
        assert merged[prev + 1 + i] == entries[m..][i - m];
      }
    }
  }

  /** The log is left alone exactly when it already has the term of every entry. */
  lemma MergeUnchanged(log: Log, prev: nat, entries: seq<LogEntry>)
    requires prev < |log|
    ensures Merge(log, prev, entries) == log
       <==> prev + |entries| < |log|
            && forall i :: 0 <= i < |entries| ==> log[prev + 1 + i].term == entries[i].term
  {
    var m := MatchLength(log, prev + 1, entries);
    if m < |entries| && prev + 1 + m < |log| {
      assert Merge(log, prev, entries)[prev + 1 + m] == entries[m];
    }
  }

  /** Handling a request again, or an earlier and shorter one with the same start, changes nothing. */
  lemma MergeAbsorbsPrefix(log: Log, prev: nat, entries: seq<LogEntry>, shorter: seq<LogEntry>)
    requires prev < |log|
    requires shorter <= entries
    ensures prev < |Merge(log, prev, entries)|
    ensures Merge(Merge(log, prev, entries), prev, shorter) == Merge(log, prev, entries)
  {
    var merged := Merge(log, prev, entries);
    var m := MatchLength(log, prev + 1, entries);
    forall i | 0 <= i < |shorter|
      ensures prev + 1 + i < |merged| && merged[prev + 1 + i].term == shorter[i].term
    {
      assert shorter[i] == entries[i];
      if m < |entries| && m <= i {
        assert merged[prev + 1 + i] == entries[m..][i - m];
      }
    }
    MergeUnchanged(merged, prev, shorter);
  }

  /** Two logs with the same term at a position are equal up to it. */
  ghost predicate Matching(a: Log, b: Log) {
    forall i :: 0 <= i < |a| && i < |b| ==> MatchAt(a, b, i)
  }

  ghost predicate MatchAt(a: Log, b: Log, i: nat)
    requires i < |a| && i < |b|
  {
    a[i].term == b[i].term ==> a[..i + 1] == b[..i + 1]
  }

  /** The request carries the slice of the leader's log after position prev, and the follower
      passes the log check at prev. */
  ghost predicate SliceOf(log: Log, leader: Log, prev: nat, entries: seq<LogEntry>) {
    && Matching(log, leader)
    && prev < |log| && prev + |entries| < |leader|
    && log[prev].term == leader[prev].term
    && entries == leader[prev + 1..prev + 1 + |entries|]
  }

  lemma AgreesThroughMatch(log: Log, leader: Log, prev: nat, entries: seq<LogEntry>)
    requires SliceOf(log, leader, prev, entries)
    ensures var last := prev + MatchLength(log, prev + 1, entries);
            log[..last + 1] == leader[..last + 1]
  {
    var m := MatchLength(log, prev + 1, entries);
    assert MatchAt(log, leader, prev + m);
    if m > 0 {
      assert log[prev + 1 + (m - 1)].term == entries[m - 1].term == leader[prev + m].term;
    }
  }

  lemma MergeResult(log: Log, leader: Log, prev: nat, entries: seq<LogEntry>)
    requires SliceOf(log, leader, prev, entries)
    ensures Merge(log, prev, entries)
         == if MatchLength(log, prev + 1, entries) == |entries| then log
            else leader[..prev + 1 + |entries|]
  {
    var m := MatchLength(log, prev + 1, entries);
    AgreesThroughMatch(log, leader, prev, entries);
    if m < |entries| {
      assert entries[m..] == leader[prev + 1 + m..prev + 1 + |entries|];
    }
  }

  /** Merging a slice of a leader's log into a log that matches it: the result agrees with the
      leader through the end of the slice, it is the old log or exactly that part of the
      leader's, and no prefix that the two logs had in common is lost. */
  lemma MergeFollowsLeader(log: Log, leader: Log, prev: nat, entries: seq<LogEntry>)
    requires SliceOf(log, leader, prev, entries)
    ensures leader[..prev + 1 + |entries|] <= Merge(log, prev, entries)
    ensures Merge(log, prev, entries) == log
         || Merge(log, prev, entries) == leader[..prev + 1 + |entries|]
  {
    AgreesThroughMatch(log, leader, prev, entries);
    MergeResult(log, leader, prev, entries);
  }

  /** A late request of the same leader changes nothing when the log already has the leader's
      entries through its end. */
  lemma MergeIgnoresStale(log: Log, leader: Log, prev: nat, entries: seq<LogEntry>, k: nat)
    requires SliceOf(log, leader, prev, entries)
    requires prev + |entries| <= k < |leader| && leader[..k + 1] <= log
    ensures Merge(log, prev, entries) == log
  {
    forall i | 0 <= i < |entries| ensures log[prev + 1 + i].term == entries[i].term {
      assert log[prev + 1 + i] == leader[..k + 1][prev + 1 + i] == entries[i];
    }
    MergeUnchanged(log, prev, entries);
  }

  lemma CommonEnds(common: Log, a: Log, b: Log, i: nat)
    requires common <= a && common <= b
    requires i < |a| && i < |b| && a[i] != b[i]
    ensures |common| <= i
  {
    assert forall k :: 0 <= k < |common| ==> common[k] == a[k] == b[k];
  }

  lemma MergeKeepsCommonPrefix(log: Log, leader: Log, prev: nat, entries: seq<LogEntry>, common: Log)
    requires SliceOf(log, leader, prev, entries)
    requires common <= log && common <= leader
    ensures common <= Merge(log, prev, entries)
  {
    MergeResult(log, leader, prev, entries);
    var m := MatchLength(log, prev + 1, entries);
    if m < |entries| {
      if prev + 1 + m < |log| {
        assert leader[prev + 1 + m] == entries[m];
        CommonEnds(common, log, leader, prev + 1 + m);
      }
      assert |common| <= prev + 1 + |entries|;
    }
  }

  lemma MergeWellFormed(log: Log, prev: nat, entries: seq<LogEntry>)
    requires WellFormed(log) && prev < |log|
    requires forall i :: 0 <= i < |entries| ==> entries[i].index == prev + 1 + i
    ensures WellFormed(Merge(log, prev, entries))
  {
  }
}
