/** The leader's choice of a commit index: sort how far every node has replicated in
    descending order and take the element at position (n-1)/2. */
module CommitRule {

  ghost predicate Descending(s: seq<nat>) {
    forall i, j :: 0 <= i < j < |s| ==> s[i] >= s[j]
  }

  function Insert(x: nat, s: seq<nat>): (r: seq<nat>)
    ensures |r| == |s| + 1
  {
    if s == [] || x >= s[0] then [x] + s else [s[0]] + Insert(x, s[1..])
  }

  function SortDescending(s: seq<nat>): (r: seq<nat>)
    ensures |r| == |s|
  {
    if s == [] then [] else Insert(s[0], SortDescending(s[1..]))
  }

  lemma {:induction false} InsertSorted(x: nat, s: seq<nat>)
    requires Descending(s)
    ensures Descending(Insert(x, s))
    ensures s != [] ==> Insert(x, s)[0] == (if x >= s[0] then x else s[0])
  {
    if s != [] && x < s[0] {
      InsertSorted(x, s[1..]);
    }
  }

  lemma {:induction false} SortDescendingSorts(s: seq<nat>)
    ensures Descending(SortDescending(s))
  {
    if s != [] {
      SortDescendingSorts(s[1..]);
      InsertSorted(s[0], SortDescending(s[1..]));
    }
  }

  function CommitCandidate(indices: seq<nat>): nat
    requires indices != []
  {
    SortDescending(indices)[(|indices| - 1) / 2]
  }

  /** How many of the values reach v. */
  function CountAtLeast(s: seq<nat>, v: nat): nat {
    if s == [] then 0 else (if s[0] >= v then 1 else 0) + CountAtLeast(s[1..], v)
  }

  /** The number of nodes that must have an entry before it is committed. */
  function CommitQuorum(n: nat): nat
    requires n > 0
  {
    (n - 1) / 2 + 1
  }

  /** The number of votes that elects a leader. */
  function VoteQuorum(n: nat): nat {
    n / 2 + 1
  }

  lemma {:induction false} CountConcat(a: seq<nat>, b: seq<nat>, v: nat)
    ensures CountAtLeast(a + b, v) == CountAtLeast(a, v) + CountAtLeast(b, v)
  {
    if a == [] {
      assert a + b == b;
    } else {
      assert (a + b)[1..] == a[1..] + b;
      CountConcat(a[1..], b, v);
    }
  }

  lemma {:induction false} CountInsert(x: nat, s: seq<nat>, v: nat)
    ensures CountAtLeast(Insert(x, s), v) == (if x >= v then 1 else 0) + CountAtLeast(s, v)
  {
    if s == [] || x >= s[0] {
      assert ([x] + s)[1..] == s;
    } else {
      assert Insert(x, s)[1..] == Insert(x, s[1..]);
      CountInsert(x, s[1..], v);
    }
  }

  /** Sorting keeps how many values reach each threshold, so it keeps the values themselves. */
  lemma {:induction false} SortKeepsCounts(s: seq<nat>, v: nat)
    ensures CountAtLeast(SortDescending(s), v) == CountAtLeast(s, v)
  {
    if s != [] {
      SortKeepsCounts(s[1..], v);
      CountInsert(s[0], SortDescending(s[1..]), v);
    }
  }

  /** In a descending sequence the values that reach v are the first ones. */
  lemma {:induction false} CountDescending(s: seq<nat>, v: nat, i: nat)
    requires Descending(s) && i < |s|
    ensures s[i] >= v <==> CountAtLeast(s, v) >= i + 1
    decreases |s|
  {
    if i > 0 {
      assert s[0] >= s[i];
      CountDescending(s[1..], v, i - 1);
      if s[0] < v {
        CountNone(s[1..], v);
      }
    } else if s[0] < v {
      CountNone(s, v);
    }
  }

  lemma {:induction false} CountNone(s: seq<nat>, v: nat)
    requires forall i :: 0 <= i < |s| ==> s[i] < v
    ensures CountAtLeast(s, v) == 0
  {
    if s != [] {
      CountNone(s[1..], v);
    }
  }

  /** The candidate is the greatest index that a commit quorum of the nodes has reached. */
  lemma CommitCandidateIsGreatest(indices: seq<nat>, v: nat)
    requires indices != []
    ensures v <= CommitCandidate(indices)
       <==> CountAtLeast(indices, v) >= CommitQuorum(|indices|)
  {
    SortDescendingSorts(indices);
    CountDescending(SortDescending(indices), v, (|indices| - 1) / 2);
    SortKeepsCounts(indices, v);
  }

  /** The candidate depends only on how many values reach each threshold: the order in which
      a hash map yields the match indices is irrelevant. */
  lemma CommitCandidateIgnoresOrder(a: seq<nat>, b: seq<nat>)
    requires a != [] && |a| == |b|
    requires forall v: nat :: CountAtLeast(a, v) == CountAtLeast(b, v)
    ensures CommitCandidate(a) == CommitCandidate(b)
  {
    CommitCandidateIsGreatest(a, CommitCandidate(a));
    CommitCandidateIsGreatest(a, CommitCandidate(b));
    CommitCandidateIsGreatest(b, CommitCandidate(a));
    CommitCandidateIsGreatest(b, CommitCandidate(b));
  }

  lemma SubsetSize<T>(a: set<T>, b: set<T>)
    requires a <= b
    ensures |a| <= |b|
  {
    assert b == a + (b - a);
  }

  /** A commit quorum is only half of an even cluster, but it still meets every vote quorum. */
  lemma CommitMeetsVote<T>(members: set<T>, holders: set<T>, voters: set<T>) returns (q: T)
    requires members != {}
    requires holders <= members && voters <= members
    requires |holders| >= CommitQuorum(|members|) && |voters| >= VoteQuorum(|members|)
    ensures q in holders && q in voters
  {
    SubsetSize(holders + voters, members);
    assert |holders + voters| == |holders| + |voters| - |holders * voters|;
    q :| q in holders * voters;
  }

  lemma VoteMeetsVote<T>(members: set<T>, a: set<T>, b: set<T>) returns (q: T)
    requires a <= members && b <= members
    requires |a| >= VoteQuorum(|members|) && |b| >= VoteQuorum(|members|)
    ensures q in a && q in b
  {
    SubsetSize(a + b, members);
    assert |a + b| == |a| + |b| - |a * b|;
    q :| q in a * b;
  }
}
