/** What each operation of the Raft connection pool does, as functions on the pool's state and
    the set of its open descriptors (src/raft/RaftConnectionPool.cpp). */
module PoolSpec {
  import opened RaftTypes

  type PeerId = string

  datatype Connection = Connection(fd: nat, lastUsed: nat)

  const MAX_CONNECTIONS_PER_PEER := 5
  const CONNECTION_TIMEOUT := 300
  // The clock counts nanoseconds; the timeout is compared in whole seconds.
  const TICKS_PER_SECOND := 1_000_000_000

  /** `open` holds the descriptors the pool created that have not been closed. */
  datatype Pool = Pool(queues: map<PeerId, seq<Connection>>, owner: map<nat, PeerId>,
                       running: bool, open: set<nat>)

  function FdSet(q: seq<Connection>): set<nat> {
    set c | c in q :: c.fd
  }

  function QueueOf(s: Pool, peer: PeerId): seq<Connection> {
    if peer in s.queues then s.queues[peer] else []
  }

  /** An idle connection survives a sweep when it still works and is not expired. */
  predicate Keep(c: Connection, alive: set<nat>, now: nat) {
    !((now as int - c.lastUsed as int) / TICKS_PER_SECOND > CONNECTION_TIMEOUT) && c.fd in alive
  }

  function Kept(q: seq<Connection>, alive: set<nat>, now: nat): seq<Connection> {
    if q == [] then []
    else (if Keep(q[0], alive, now) then [q[0]] else []) + Kept(q[1..], alive, now)
  }

  function Dropped(q: seq<Connection>, alive: set<nat>, now: nat): set<nat> {
    set c | c in q && !Keep(c, alive, now) :: c.fd
  }

  function Forget(s: Pool, fds: set<nat>): Pool {
    s.(owner := s.owner - fds, open := s.open - fds)
  }

  /** The front of the peer's queue when it has stopped working is closed and removed. */
  function DropDead(s: Pool, peer: PeerId, alive: set<nat>): Pool {
    var q := QueueOf(s, peer);
    if q != [] && q[0].fd !in alive
    then Forget(s, {q[0].fd}).(queues := s.queues[peer := q[1..]])
    else s
  }

  /** Reuse the front of the peer's queue, or drop it when dead and open a new connection.
      `created` is what connecting brings: None when it fails. */
  function Get(s: Pool, peer: PeerId, alive: set<nat>, created: Option<nat>): (Pool, Option<nat>) {
    var q := QueueOf(s, peer);
    if q != [] && q[0].fd in alive
    then (s.(queues := s.queues[peer := q[1..]]), Some(q[0].fd))
    else
      var s1 := DropDead(s, peer, alive);
      match created
      case None => (s1, None)
      case Some(fd) => (s1.(owner := s1.owner[fd := peer], open := s1.open + {fd}), Some(fd))
  }

  /** Put the descriptor back in the peer's queue; close it when it is not the peer's, does not
      work any more or the queue is full. */
  function Release(s: Pool, peer: PeerId, fd: nat, alive: set<nat>, now: nat): Pool {
    if fd !in s.owner || s.owner[fd] != peer then s.(open := s.open - {fd})
    else if fd !in alive then Forget(s, {fd})
    else
      var q := QueueOf(s, peer);
      if |q| < MAX_CONNECTIONS_PER_PEER
      then s.(queues := s.queues[peer := q + [Connection(fd, now)]])
      else Forget(s, {fd}).(queues := s.queues[peer := q])
  }

  function ClosePeer(s: Pool, peer: PeerId): Pool {
    if peer !in s.queues then s
    else Forget(s, FdSet(s.queues[peer])).(queues := s.queues - {peer})
  }

  function Sweep(s: Pool, alive: set<nat>, now: nat): Pool {
    var dropped := set p, fd | p in s.queues && fd in Dropped(s.queues[p], alive, now) :: fd;
    Forget(s, dropped).(queues := map p | p in s.queues :: Kept(s.queues[p], alive, now))
  }

  function Queued(s: Pool): set<nat> {
    set p, fd | p in s.queues && fd in FdSet(s.queues[p]) :: fd
  }

  function Stop(s: Pool): Pool {
    if !s.running then s
    else Pool(map[], map[], false, s.open - Queued(s))
  }

  // ---------- the structural invariant ----------

  ghost predicate QueueOk(s: Pool, peer: PeerId, q: seq<Connection>) {
    && |q| <= MAX_CONNECTIONS_PER_PEER
    && (forall i :: 0 <= i < |q| ==> q[i].fd in s.open && q[i].fd in s.owner && s.owner[q[i].fd] == peer)
    && (forall i, j :: 0 <= i < j < |q| ==> q[i].fd != q[j].fd)
    && (forall i, j :: 0 <= i < j < |q| ==> q[i].lastUsed <= q[j].lastUsed)
  }

  /** Every queue holds at most five open connections, all of that peer, none twice, the longest
      idle first; and every descriptor with an owner is open. */
  ghost predicate PoolOk(s: Pool) {
    && (forall p :: p in s.queues ==> QueueOk(s, p, s.queues[p]))
    && (forall fd :: fd in s.owner ==> fd in s.open)
  }

  /** No idle connection was put back after `now`. */
  ghost predicate UsedBy(s: Pool, now: nat) {
    forall p, i :: p in s.queues && 0 <= i < |s.queues[p]| ==> s.queues[p][i].lastUsed <= now
  }

  /** What getting a connection relies on: connecting yields a descriptor that is not open. */
  ghost predicate GetReady(s: Pool, peer: PeerId, alive: set<nat>, created: Option<nat>) {
    PoolOk(s) && (created.Some? ==> created.value !in DropDead(s, peer, alive).open)
  }

  /** What releasing relies on: the descriptor is open and in no queue, and the clock has not gone
      back. */
  ghost predicate ReleaseReady(s: Pool, fd: nat, now: nat) {
    PoolOk(s) && fd in s.open && !IsQueued(s, fd) && UsedBy(s, now)
  }

  /** The descriptor sits in some queue. */
  ghost predicate IsQueued(s: Pool, fd: nat) {
    exists p, i :: p in s.queues && 0 <= i < |s.queues[p]| && s.queues[p][i].fd == fd
  }

  lemma QueuedIff(s: Pool, fd: nat)
    ensures fd in Queued(s) <==> IsQueued(s, fd)
  {
    if fd in Queued(s) {
      var p :| p in s.queues && fd in FdSet(s.queues[p]);
      var c :| c in s.queues[p] && c.fd == fd;
      var i :| 0 <= i < |s.queues[p]| && s.queues[p][i] == c;
    }
    if IsQueued(s, fd) {
      var p, i :| p in s.queues && 0 <= i < |s.queues[p]| && s.queues[p][i].fd == fd;
      assert s.queues[p][i] in s.queues[p];
      assert fd in FdSet(s.queues[p]);
    }
  }

  // ---------- the sweep keeps exactly the good connections, in order ----------

  lemma KeptStep(q: seq<Connection>, alive: set<nat>, now: nat)
    requires q != []
    ensures Kept(q, alive, now)
         == if Keep(q[0], alive, now) then [q[0]] + Kept(q[1..], alive, now)
            else Kept(q[1..], alive, now)
  {
  }

  lemma Prepended(c: Connection, a: seq<Connection>, b: seq<Connection>)
    ensures [c] + (a + b) == [c] + a + b
  {
  }

  lemma {:induction false} KeptConcat(a: seq<Connection>, b: seq<Connection>, alive: set<nat>, now: nat)
    ensures Kept(a + b, alive, now) == Kept(a, alive, now) + Kept(b, alive, now)
  {
    if a == [] {
      assert a + b == b;
    } else {
      KeptConcat(a[1..], b, alive, now);
      assert (a + b)[1..] == a[1..] + b && (a + b)[0] == a[0];
      KeptStep(a + b, alive, now);
      KeptStep(a, alive, now);
      Prepended(a[0], Kept(a[1..], alive, now), Kept(b, alive, now));
    }
  }

  /** Element k of `kept` stands at position at[k] of the queue, and the positions ascend. */
  ghost predicate StandsAt(kept: seq<Connection>, at: seq<nat>, q: seq<Connection>) {
    && |at| == |kept|
    && (forall k :: 0 <= k < |at| ==> at[k] < |q| && kept[k] == q[at[k]])
    && (forall k, l :: 0 <= k < l < |at| ==> at[k] < at[l])
  }

  /** The connection works and has been idle for less than 301 seconds: the timeout of 300 is
      compared with the whole seconds that have passed. */
  ghost predicate Fresh(c: Connection, alive: set<nat>, now: nat) {
    c.fd in alive && now < c.lastUsed + 301_000_000_000
  }

  lemma KeepIff(c: Connection, alive: set<nat>, now: nat)
    ensures Keep(c, alive, now) <==> Fresh(c, alive, now)
  {
  }

  ghost predicate Selects(at: seq<nat>, q: seq<Connection>, alive: set<nat>, now: nat) {
    forall i :: 0 <= i < |q| ==> (i in at <==> Fresh(q[i], alive, now))
  }

  /** The connections kept are a subsequence of the queue, and the skipped ones are those not
      worth keeping. */
  lemma {:induction false} KeptIsSubsequence(q: seq<Connection>, alive: set<nat>, now: nat)
    returns (at: seq<nat>)
    ensures StandsAt(Kept(q, alive, now), at, q) && Selects(at, q, alive, now)
  {
    if q == [] {
      at := [];
    } else {
      var rest := KeptIsSubsequence(q[1..], alive, now);
      at := (if Keep(q[0], alive, now) then [0] else []) + Shifted(rest);
      StandsNext(Kept(q[1..], alive, now), rest, q, Keep(q[0], alive, now));
      ShiftSelects(rest, q, alive, now);
    }
  }

  lemma StandsNext(kept: seq<Connection>, rest: seq<nat>, q: seq<Connection>, first: bool)
    requires q != [] && StandsAt(kept, rest, q[1..])
    ensures StandsAt((if first then [q[0]] else []) + kept,
                     (if first then [0] else []) + Shifted(rest), q)
  {
    ShiftStands(kept, rest, q);
    if first {
      FrontStands(kept, Shifted(rest), q);
    } else {
      assert [] + kept == kept && [] + Shifted(rest) == Shifted(rest);
    }
  }

  /** All positions moved up by one. */
  ghost function Shifted(at: seq<nat>): (r: seq<nat>)
    ensures |r| == |at|
    ensures forall k :: 0 <= k < |at| ==> r[k] == at[k] + 1
  {
    seq(|at|, k requires 0 <= k < |at| => at[k] + 1)
  }

  lemma ShiftStands(kept: seq<Connection>, at: seq<nat>, q: seq<Connection>)
    requires q != [] && StandsAt(kept, at, q[1..])
    ensures StandsAt(kept, Shifted(at), q)
  {
    forall k | 0 <= k < |at| ensures Shifted(at)[k] < |q| && kept[k] == q[Shifted(at)[k]] {
      assert q[1..][at[k]] == q[at[k] + 1];
    }
  }

  lemma FrontStands(kept: seq<Connection>, at: seq<nat>, q: seq<Connection>)
    requires q != [] && StandsAt(kept, at, q) && forall k :: 0 <= k < |at| ==> at[k] > 0
    ensures StandsAt([q[0]] + kept, [0] + at, q)
  {
  }

  lemma ShiftSelects(at: seq<nat>, q: seq<Connection>, alive: set<nat>, now: nat)
    requires q != [] && Selects(at, q[1..], alive, now)
    ensures Selects((if Keep(q[0], alive, now) then [0] else []) + Shifted(at), q, alive, now)
  {
    forall i | 0 <= i < |q|
      ensures i in (if Keep(q[0], alive, now) then [0] else []) + Shifted(at)
         <==> Fresh(q[i], alive, now)
    {
      KeepIff(q[i], alive, now);
      if i > 0 {
        ShiftedHas(at, i);
        assert q[i] == q[1..][i - 1];
      }
    }
  }

  lemma ShiftedHas(at: seq<nat>, i: nat)
    requires i > 0
    ensures i in Shifted(at) <==> i - 1 in at
  {
    if i - 1 in at {
      var k :| 0 <= k < |at| && at[k] == i - 1;
      assert Shifted(at)[k] == i;
    }
  }

  lemma KeptQueueOk(s: Pool, s': Pool, peer: PeerId, q: seq<Connection>, alive: set<nat>, now: nat)
    requires QueueOk(s, peer, q)
    requires forall c :: c in q && Keep(c, alive, now) ==>
               c.fd in s'.open && c.fd in s'.owner && s'.owner[c.fd] == peer
    ensures QueueOk(s', peer, Kept(q, alive, now))
  {
    var at := KeptIsSubsequence(q, alive, now);
    AscendingFits(at, |q|);
    forall k | 0 <= k < |at| ensures Keep(q[at[k]], alive, now) {
      assert at[k] in at;
      KeepIff(q[at[k]], alive, now);
    }
  }

  lemma {:induction false} AscendingFits(at: seq<nat>, bound: nat)
    requires forall k :: 0 <= k < |at| ==> at[k] < bound
    requires forall k, l :: 0 <= k < l < |at| ==> at[k] < at[l]
    ensures |at| <= bound
  {
    if |at| > 0 {
      var last := at[|at| - 1];
      AscendingFits(at[..|at| - 1], last);
    }
  }

  // ---------- every operation keeps the invariant ----------

  lemma GetKeepsPoolOk(s: Pool, peer: PeerId, alive: set<nat>, created: Option<nat>)
    requires GetReady(s, peer, alive, created)
    ensures PoolOk(Get(s, peer, alive, created).0)
  {
    var q := QueueOf(s, peer);
    if q != [] && q[0].fd in alive {
      PopKeepsPoolOk(s, peer);
    } else {
      DropDeadKeepsPoolOk(s, peer, alive);
      if created.Some? {
        CreateKeepsPoolOk(DropDead(s, peer, alive), peer, created.value);
      }
    }
  }

  lemma PopKeepsPoolOk(s: Pool, peer: PeerId)
    requires PoolOk(s) && QueueOf(s, peer) != []
    ensures PoolOk(s.(queues := s.queues[peer := QueueOf(s, peer)[1..]]))
  {
    var s' := s.(queues := s.queues[peer := QueueOf(s, peer)[1..]]);
    forall p | p in s'.queues ensures QueueOk(s', p, s'.queues[p]) {
      assert QueueOk(s, p, s.queues[p]);
    }
  }

  lemma CreateKeepsPoolOk(s: Pool, peer: PeerId, fd: nat)
    requires PoolOk(s) && fd !in s.open
    ensures PoolOk(s.(owner := s.owner[fd := peer], open := s.open + {fd}))
  {
    var s' := s.(owner := s.owner[fd := peer], open := s.open + {fd});
    forall p | p in s'.queues ensures QueueOk(s', p, s'.queues[p]) {
      assert QueueOk(s, p, s.queues[p]);
    }
  }

  lemma DropDeadKeepsPoolOk(s: Pool, peer: PeerId, alive: set<nat>)
    requires PoolOk(s)
    ensures PoolOk(DropDead(s, peer, alive))
  {
    var s' := DropDead(s, peer, alive);
    forall p | p in s'.queues ensures QueueOk(s', p, s'.queues[p]) {
      assert QueueOk(s, p, s.queues[p]);
      if peer in s.queues {
        assert QueueOk(s, peer, s.queues[peer]);
      }
    }
  }

  /** Releasing an open descriptor that is not in a queue keeps the invariant exactly when the
      caller names the peer the descriptor belongs to, if it belongs to one: otherwise the
      descriptor is closed but its owner entry stays behind. */
  lemma ReleaseKeepsPoolOkIff(s: Pool, peer: PeerId, fd: nat, alive: set<nat>, now: nat)
    requires ReleaseReady(s, fd, now)
    ensures PoolOk(Release(s, peer, fd, alive, now))
       <==> (fd in s.owner ==> s.owner[fd] == peer)
  {
    var s' := Release(s, peer, fd, alive, now);
    if fd in s.owner ==> s.owner[fd] == peer {
      forall p | p in s'.queues ensures QueueOk(s', p, s'.queues[p]) {
        ReleaseKeepsQueueOk(s, peer, fd, alive, now, p);
      }
    } else {
      assert fd in s'.owner && fd !in s'.open;
    }
  }

  lemma ReleaseKeepsQueueOk(s: Pool, peer: PeerId, fd: nat, alive: set<nat>, now: nat, p: PeerId)
    requires ReleaseReady(s, fd, now)
    requires fd in s.owner ==> s.owner[fd] == peer
    requires p in Release(s, peer, fd, alive, now).queues
    ensures var s' := Release(s, peer, fd, alive, now);
            QueueOk(s', p, s'.queues[p])
  {
    var q := QueueOf(s, p);
    assert p in s.queues ==> QueueOk(s, p, q);
    assert forall i :: 0 <= i < |q| ==> q[i].fd != fd;
    if fd !in s.owner || fd !in alive || |QueueOf(s, peer)| >= MAX_CONNECTIONS_PER_PEER {
      ForgetOther(s, fd, p, q);
    } else if p == peer {
      AppendNewest(s, p, q, Connection(fd, now));
    }
  }

  lemma ForgetOther(s: Pool, fd: nat, p: PeerId, q: seq<Connection>)
    requires QueueOk(s, p, q) && forall i :: 0 <= i < |q| ==> q[i].fd != fd
    ensures QueueOk(Forget(s, {fd}), p, q)
  {
  }

  lemma AppendNewest(s: Pool, p: PeerId, q: seq<Connection>, c: Connection)
    requires QueueOk(s, p, q) && |q| < MAX_CONNECTIONS_PER_PEER
    requires c.fd in s.open && c.fd in s.owner && s.owner[c.fd] == p
    requires forall i :: 0 <= i < |q| ==> q[i].fd != c.fd && q[i].lastUsed <= c.lastUsed
    ensures QueueOk(s, p, q + [c])
  {
  }

  lemma ClosePeerKeepsPoolOk(s: Pool, peer: PeerId)
    requires PoolOk(s)
    ensures PoolOk(ClosePeer(s, peer))
  {
    var s' := ClosePeer(s, peer);
    forall p | p in s'.queues ensures QueueOk(s', p, s'.queues[p]) {
      assert QueueOk(s, p, s.queues[p]);
      if peer in s.queues {
        QueuesDisjoint(s, peer, p);
      }
    }
  }

  lemma QueuesDisjoint(s: Pool, p: PeerId, q: PeerId)
    requires PoolOk(s) && p in s.queues && q in s.queues && p != q
    ensures FdSet(s.queues[p]) !! FdSet(s.queues[q])
  {
    assert QueueOk(s, p, s.queues[p]) && QueueOk(s, q, s.queues[q]);
  }

  lemma SweepKeepsPoolOk(s: Pool, alive: set<nat>, now: nat)
    requires PoolOk(s)
    ensures PoolOk(Sweep(s, alive, now))
  {
    var s' := Sweep(s, alive, now);
    var dropped := set p, fd | p in s.queues && fd in Dropped(s.queues[p], alive, now) :: fd;
    forall p | p in s'.queues ensures QueueOk(s', p, s'.queues[p]) {
      assert QueueOk(s, p, s.queues[p]);
      forall c | c in s.queues[p] && Keep(c, alive, now)
        ensures c.fd in s'.open && c.fd in s'.owner && s'.owner[c.fd] == p
      {
        KeptIsNotDropped(s, p, c, alive, now);
        assert c.fd !in dropped;
      }
      KeptQueueOk(s, s', p, s.queues[p], alive, now);
    }
  }

  lemma KeptIsNotDropped(s: Pool, p: PeerId, c: Connection, alive: set<nat>, now: nat)
    requires PoolOk(s) && p in s.queues && c in s.queues[p] && Keep(c, alive, now)
    ensures forall q :: q in s.queues ==> c.fd !in Dropped(s.queues[q], alive, now)
  {
    assert QueueOk(s, p, s.queues[p]);
    forall q | q in s.queues ensures c.fd !in Dropped(s.queues[q], alive, now) {
      assert QueueOk(s, q, s.queues[q]);
    }
  }
}
