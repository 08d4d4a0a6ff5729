/** The requests as they are put on the wire: the entries the leader collected are never stored
    in the request, yet a success advances the indices past them. */
module RaftAsWritten {
  import opened RaftTypes
  import opened LogMerge
  import opened RaftSteps
  import opened RaftCluster
  import opened RaftCatchUp

  /** After a successful call the peer holds the leader's log through its match index. */
  ghost predicate SoundAfter(sendsEntries: bool, self: NodeId, peers: seq<NodeId>, i: nat,
                             l: NodeState, f: NodeState)
    requires Fits(peers, i, l, f)
  {
    var (l', f', success) := Exchange(sendsEntries, self, peers, i, l, f);
    success ==>
      && peers[i] in l'.matchIndex && l'.matchIndex[peers[i]] < |l'.log|
      && l'.log[..l'.matchIndex[peers[i]] + 1] <= f'.log
  }

  lemma IntendedIsSound(self: NodeId, peers: seq<NodeId>, i: nat, l: NodeState, f: NodeState)
    requires Fits(peers, i, l, f)
    ensures SoundAfter(true, self, peers, i, l, f)
  {
    if Exchange(true, self, peers, i, l, f).2 {
      Success(self, peers, i, l, f);
    }
  }

  /** As written, the follower's log stays as it is while the leader records its whole log. */
  lemma AsWrittenExchange(self: NodeId, peers: seq<NodeId>, i: nat, l: NodeState, f: NodeState)
    requires Fits(peers, i, l, f)
    ensures var (l', f', success) := Exchange(false, self, peers, i, l, f);
            && f'.log == f.log && l'.log == l.log
            && peers[i] in l.nextIndex && 1 <= l.nextIndex[peers[i]] <= |l.log|
            && success == (l.nextIndex[peers[i]] <= |f.log|
                           && f.log[l.nextIndex[peers[i]] - 1].term
                              == l.log[l.nextIndex[peers[i]] - 1].term)
            && (success ==> peers[i] in l'.matchIndex && l'.matchIndex[peers[i]] == |l.log| - 1)
  {
    assert peers[i] in SeqSet(peers);
    var args := AppendArgs(false, self, l, peers[i]);
    if args.prevLogIndex < |f.log| {
      MergeUnchanged(f.log, args.prevLogIndex, []);
    }
  }

  /** The follower has no entry, or one of another term, just before nextIndex. */
  ghost predicate FailsCheck(leader: Log, log: Log, next: nat)
    requires 1 <= next <= |leader|
  {
    next > |log| || log[next - 1].term != leader[next - 1].term
  }

  /** So it is sound for a given follower exactly when the follower fails the log check before
      nextIndex or already has the leader's whole log. */
  lemma AsWrittenSoundForFollower(self: NodeId, peers: seq<NodeId>, i: nat, l: NodeState,
                                  f: NodeState)
    requires Fits(peers, i, l, f)
    ensures peers[i] in l.nextIndex && 1 <= l.nextIndex[peers[i]] <= |l.log|
    ensures SoundAfter(false, self, peers, i, l, f)
       <==> FailsCheck(l.log, f.log, l.nextIndex[peers[i]]) || l.log <= f.log
  {
    AsWrittenExchange(self, peers, i, l, f);
    assert l.log[..|l.log| - 1 + 1] == l.log;
  }

  /** A follower that has the leader's log up to nextIndex only. */
  ghost function Laggard(peers: seq<NodeId>, i: nat, l: NodeState): NodeState
    requires i < |peers| && LocalOk(peers, l) && l.role == Leader
  {
    assert peers[i] in SeqSet(peers);
    l.(log := l.log[..l.nextIndex[peers[i]]], role := Follower, commitIndex := 0, lastApplied := 0)
  }

  lemma LaggardFits(peers: seq<NodeId>, i: nat, l: NodeState)
    requires i < |peers| && LocalOk(peers, l) && l.role == Leader
    ensures Fits(peers, i, l, Laggard(peers, i, l))
  {
    assert peers[i] in SeqSet(peers);
    var f := Laggard(peers, i, l);
    forall k | 0 <= k < |l.log| && k < |f.log| ensures MatchAt(l.log, f.log, k) {
      assert f.log[..k + 1] == l.log[..k + 1];
    }
  }

  /** Whatever the follower's log, the request as written is sound exactly when the leader has
      nothing to send: nextIndex is the length of its log. */
  lemma AsWrittenSoundIff(self: NodeId, peers: seq<NodeId>, i: nat, l: NodeState)
    requires i < |peers| && LocalOk(peers, l) && l.role == Leader
    ensures (forall f :: Fits(peers, i, l, f) ==> SoundAfter(false, self, peers, i, l, f))
       <==> peers[i] in l.nextIndex && l.nextIndex[peers[i]] == |l.log|
  {
    assert peers[i] in SeqSet(peers);
    if l.nextIndex[peers[i]] == |l.log| {
      forall f | Fits(peers, i, l, f) ensures SoundAfter(false, self, peers, i, l, f) {
        AsWrittenSoundForFollower(self, peers, i, l, f);
        AsWrittenExchange(self, peers, i, l, f);
        if |l.log| <= |f.log| && l.log[|l.log| - 1].term == f.log[|l.log| - 1].term {
          assert MatchAt(l.log, f.log, |l.log| - 1);
          assert l.log[..|l.log| - 1 + 1] == f.log[..|l.log| - 1 + 1];
        }
      }
    } else {
      var f := Laggard(peers, i, l);
      LaggardFits(peers, i, l);
      AsWrittenSoundForFollower(self, peers, i, l, f);
      AsWrittenExchange(self, peers, i, l, f);
    }
  }
}
