/** Consequences of the invariant that do not mention a step: log matching, the effect of the
    up-to-date check, and leader completeness. */
module RaftInvariant {
  import opened RaftTypes
  import opened LogMerge
  import opened CommitRule
  import opened RaftSteps
  import opened RaftCluster
  import opened RaftHistory

  /** Two logs of the system with the same term at a position are equal up to it. */
  lemma RootedLogsMatch(h: History, a: Log, b: Log)
    requires Rooted(h, a) && Rooted(h, b)
    ensures Matching(a, b)
  {
    forall i | 0 <= i < |a| && i < |b| ensures MatchAt(a, b, i) {
      if i > 0 && a[i].term == b[i].term {
        assert FromReign(h, a, i) && FromReign(h, b, i);
        var built := h.reigns[a[i].term].built;
        assert a[..i + 1] == built[..i + 1] == b[..i + 1];
      }
    }
  }

  /** Terms never decrease along a log. */
  lemma TermsAscend(members: set<NodeId>, h: History, log: Log, i: nat, j: nat)
    requires HistoryOk(members, h) && Rooted(h, log) && i <= j < |log|
    ensures log[i].term <= log[j].term
  {
    if j > 0 {
      assert FromReign(h, log, j);
      var t := log[j].term;
      ReignTerms(members, h, t, i);
      assert log[..j + 1][i] == h.reigns[t].built[i];
    }
  }

  lemma ReignTerms(members: set<NodeId>, h: History, t: nat, i: nat)
    requires HistoryOk(members, h) && t in h.reigns && i < |h.reigns[t].built|
    ensures h.reigns[t].built[i].term <= t
    ensures i < |h.reigns[t].elected| ==> h.reigns[t].built[i].term < t
  {
    assert ReignOk(members, h, t);
    var r := h.reigns[t];
    if i < |r.elected| {
      assert r.built[i] == r.elected[i];
    }
  }

  /** A log that ends in a leader's own entry contains the log that leader was elected with. */
  lemma LongerThanElected(members: set<NodeId>, h: History, log: Log)
    requires HistoryOk(members, h) && Rooted(h, log) && LastTerm(log) > 0
    ensures LastTerm(log) in h.reigns && h.reigns[LastTerm(log)].elected <= log
  {
    var s, i := LastTerm(log), |log| - 1;
    assert FromReign(h, log, i) && ReignOk(members, h, s);
    assert log[..i + 1] == log;
    ReignTerms(members, h, s, i);
  }

  /** The up-to-date check: a log that passes it against a log containing an own entry of term t
      contains that entry too, unless the leader its last entry comes from lacked it. */
  lemma UpToDateContains(members: set<NodeId>, h: History, mine: Log, theirs: Log, t: nat, k: nat,
                         bound: nat)
    requires HistoryOk(members, h) && Rooted(h, mine) && Rooted(h, theirs)
    requires TermsBelow(theirs, bound)
    requires || LastTerm(theirs) > LastTerm(mine)
             || (LastTerm(theirs) == LastTerm(mine) && LastIndex(theirs) >= LastIndex(mine))
    requires OwnEntry(h, t, k) && LeaderPrefix(h, t, k) <= mine
    ensures LeaderPrefix(h, t, k) <= theirs || Superseded(h, t, k, bound)
  {
    var P := LeaderPrefix(h, t, k);
    var s := LastTerm(theirs);
    assert P[k] == mine[k];
    TermsAscend(members, h, mine, k, |mine| - 1);
    assert ReignOk(members, h, t);
    assert FromReign(h, theirs, |theirs| - 1);
    assert theirs[..|theirs| - 1 + 1] == theirs;
    if s == LastTerm(mine) {
      assert FromReign(h, mine, |mine| - 1);
      assert mine[..|mine| - 1 + 1] == mine;
      assert mine <= h.reigns[s].built && theirs <= h.reigns[s].built;
    } else if P <= h.reigns[s].elected {
      LongerThanElected(members, h, theirs);
      PrefixTransitive(P, h.reigns[s].elected, theirs);
    }
  }

  /** Leader completeness: what a commit quorum acknowledged of the leader of term t, when it
      ends with an entry of term t, is in the log of every later leader from its election on. */
  lemma {:induction false} LeaderCompleteness(members: set<NodeId>, h: History, t: nat, k: nat, u: nat)
    requires HistoryOk(members, h) && members != {}
    requires OwnEntry(h, t, k) && |Holders(members, h, t, k)| >= CommitQuorum(|members|)
    requires u in h.reigns && t < u
    ensures LeaderPrefix(h, t, k) <= h.reigns[u].elected
    decreases u
  {
    var r := h.reigns[u];
    assert ReignOk(members, h, u);
    var q := CommitMeetsVote(members, Holders(members, h, t, k), r.electors);
    assert VotedFor(h, q, u, r.leader) && VoteOk(members, h, Ballot(q, u));
    assert Acked(h, q, t, k) && StoodWith(h, r.leader, u, r.elected);
    if Superseded(h, t, k, u) {
      var v: nat :| t < v < u && v in h.reigns && !(LeaderPrefix(h, t, k) <= h.reigns[v].elected);
      LeaderCompleteness(members, h, t, k, v);
    }
  }

  lemma CommitInLaterLeader(members: set<NodeId>, h: History, c: CommitPoint, u: nat)
    requires HistoryOk(members, h) && c in h.commits && u in h.reigns && c.term <= u
    ensures c.term in h.reigns && c.index < |h.reigns[c.term].built|
    ensures LeaderPrefix(h, c.term, c.index) <= h.reigns[u].built
  {
    assert CommitOk(members, h, c) && ReignOk(members, h, u);
    if c.term < u {
      LeaderCompleteness(members, h, c.term, c.index, u);
      var r := h.reigns[u];
      PrefixTransitive(LeaderPrefix(h, c.term, c.index), r.elected, r.built);
    }
  }

  lemma PrefixTransitive(a: Log, b: Log, c: Log)
    requires a <= b && b <= c
    ensures a <= c
  {
  }

  /** A certified log is part of what any leader of the same or a later term has built. */
  lemma CertifiedInLaterLeader(members: set<NodeId>, h: History, log: Log, term: nat, u: nat)
    requires HistoryOk(members, h) && h.carries && Certified(h, log, term) && WellFormed(log)
    requires u in h.reigns && term <= u
    ensures log <= h.reigns[u].built
  {
    if |log| > 1 {
      var c :| c in h.commits && CertifiedBy(h, log, term, c);
      CommitInLaterLeader(members, h, c, u);
      PrefixTransitive(log, LeaderPrefix(h, c.term, c.index), h.reigns[u].built);
    } else {
      assert ReignOk(members, h, u);
    }
  }

  /** Any two certified logs are one the beginning of the other. */
  lemma CertifiedLogsAgree(members: set<NodeId>, h: History, a: Log, ta: nat, b: Log, tb: nat)
    requires HistoryOk(members, h) && h.carries && WellFormed(a) && WellFormed(b)
    requires Certified(h, a, ta) && Certified(h, b, tb)
    ensures a <= b || b <= a
  {
    if |a| > 1 && |b| > 1 {
      var ca :| ca in h.commits && CertifiedBy(h, a, ta, ca);
      var cb :| cb in h.commits && CertifiedBy(h, b, tb, cb);
      var u := if ca.term <= cb.term then cb.term else ca.term;
      CommitInLaterLeader(members, h, ca, u);
      CommitInLaterLeader(members, h, cb, u);
      PrefixTransitive(a, LeaderPrefix(h, ca.term, ca.index), h.reigns[u].built);
      PrefixTransitive(b, LeaderPrefix(h, cb.term, cb.index), h.reigns[u].built);
      PrefixesOf(a, b, h.reigns[u].built);
    }
  }

  lemma PrefixesOf(a: Log, b: Log, whole: Log)
    requires a <= whole && b <= whole
    ensures a <= b || b <= a
  {
    if |a| <= |b| {
      assert a == whole[..|b|][..|a|];
    } else {
      assert b == whole[..|a|][..|b|];
    }
  }
}
