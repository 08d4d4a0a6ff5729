/** What each operation of the pool does to its connections, over every sequence of operations: what
    is kept, what is reused, and what is closed. Nothing here refers to the specified operations
    themselves. */
module PoolReuse {
  import opened RaftTypes
  import opened PoolSpec
  import opened PoolSafety

  /** The idle connections of a peer, the longest idle first. */
  ghost function IdleOf(run: seq<System>, i: nat, peer: PeerId): seq<Connection>
    requires i < |run|
  {
    if peer in run[i].pool.queues then run[i].pool.queues[peer] else []
  }

  // ---------- releasing ----------

  /** A released descriptor is kept if and only if it works, has an owner (which it has unless the
      pool was stopped meanwhile) and finds fewer than five idle connections of its peer. Then it
      stands last among them, with the present time; otherwise it is closed and forgotten. No
      other connection is touched. */
  lemma ReleaseKeepsIff(run: seq<System>, ops: seq<Operation>, i: nat)
    requires Happens(run, ops) && i < |ops| && ops[i].Releasing?
    ensures ops[i].fd in run[i].held
    ensures var fd, alive, s, s' := ops[i].fd, ops[i].alive, run[i].pool, run[i + 1].pool;
            var peer := run[i].held[fd];
            var idle := IdleOf(run, i, peer);
            && (fd in s'.open <==> fd in alive && fd in s.owner && |idle| < 5)
            && (fd in s'.open ==>
                  s' == s.(queues := s.queues[peer := idle + [Connection(fd, run[i].now)]]))
            && (fd !in s'.open ==> s' == s.(owner := s.owner - {fd}, open := s.open - {fd}))
            && run[i + 1].held == run[i].held - {fd} && run[i + 1].now == run[i].now
  {
    assert StepAt(run, ops, i);
    OperationsAreReady(run, ops, i);
    var fd, s := ops[i].fd, run[i].pool;
    var peer := run[i].held[fd];
    if fd !in s.owner {
      assert s.owner - {fd} == s.owner;
    } else if peer in s.queues {
      assert s.queues[peer := s.queues[peer]] == s.queues;
    }
  }

  // ---------- getting ----------

  /** The front connection of the peer when it has stopped working: what a Get closes. */
  ghost function DeadFront(idle: seq<Connection>, alive: set<nat>): set<nat> {
    if idle != [] && idle[0].fd !in alive then {idle[0].fd} else {}
  }

  /** When the longest idle connection of the peer works, the caller gets that one and nothing is
      opened or closed. Otherwise it is closed, no other is tried, and the caller gets the new
      connection or, when there is none, nothing. */
  lemma GetTakesFront(run: seq<System>, ops: seq<Operation>, i: nat)
    requires Happens(run, ops) && i < |ops| && ops[i].Getting?
    ensures var peer, alive, created := ops[i].peer, ops[i].alive, ops[i].created;
            var idle, dead := IdleOf(run, i, peer), DeadFront(IdleOf(run, i, peer), alive);
            var s, s' := run[i].pool, run[i + 1].pool;
            && IdleOf(run, i + 1, peer) == (if idle == [] then [] else idle[1..])
            && (forall p :: p != peer ==> IdleOf(run, i + 1, p) == IdleOf(run, i, p))
            && (if idle != [] && dead == {} then
                  && run[i + 1].held == run[i].held[idle[0].fd := peer]
                  && s'.open == s.open && s'.owner == s.owner
                else if created.Some? then
                  && run[i + 1].held == run[i].held[created.value := peer]
                  && s'.open == s.open - dead + {created.value}
                  && s'.owner == (s.owner - dead)[created.value := peer]
                else
                  && run[i + 1].held == run[i].held
                  && s'.open == s.open - dead && s'.owner == s.owner - dead)
            && s'.running == s.running && run[i + 1].now == run[i].now
  {
    assert StepAt(run, ops, i);
    var s, idle := run[i].pool, IdleOf(run, i, ops[i].peer);
    if idle == [] {
      assert s.owner - {} == s.owner;
    }
  }

  // ---------- closing, sweeping, stopping ----------

  ghost function Fds(idle: seq<Connection>): set<nat> {
    set k | 0 <= k < |idle| :: idle[k].fd
  }

  /** Closing a peer's connections closes and forgets all its idle ones and nothing else. */
  lemma CloseClosesIdle(run: seq<System>, ops: seq<Operation>, i: nat)
    requires Happens(run, ops) && i < |ops| && ops[i].ClosingPeer?
    ensures var peer, s, s' := ops[i].peer, run[i].pool, run[i + 1].pool;
            var fds := Fds(IdleOf(run, i, peer));
            && s' == s.(queues := s.queues - {peer}, owner := s.owner - fds, open := s.open - fds)
            && fds <= s.open && run[i + 1].held == run[i].held && fds !! run[i].held.Keys
  {
    assert StepAt(run, ops, i);
    AlwaysConserved(run, ops, i);
    var peer, s := ops[i].peer, run[i].pool;
    var idle := IdleOf(run, i, peer);
    assert FdSet(idle) == Fds(idle);
    if peer in s.queues {
      assert QueueOk(s, peer, idle);
      forall fd | fd in Fds(idle) ensures fd !in run[i].held {
        assert fd in FdSet(s.queues[peer]);
      }
    } else {
      assert Fds(idle) == {} && s.queues - {peer} == s.queues && s.owner - {} == s.owner;
    }
  }

  /** The sweep closes an idle connection if and only if it has stopped working or has been idle
      for 301 seconds; the others stay where they were, in order, and no held one is touched. */
  lemma SweepClosesStale(run: seq<System>, ops: seq<Operation>, i: nat, peer: PeerId)
    returns (at: seq<nat>)
    requires Happens(run, ops) && i < |ops| && ops[i].Sweeping? && peer in run[i].pool.queues
    ensures var idle, alive, now := IdleOf(run, i, peer), ops[i].alive, run[i].now;
            && StandsAt(IdleOf(run, i + 1, peer), at, idle)
            && forall k :: 0 <= k < |idle| ==>
                 var stays := idle[k].fd in alive && now < idle[k].lastUsed + 301_000_000_000;
                 && (k in at <==> stays)
                 && (idle[k].fd in run[i + 1].pool.open <==> stays)
                 && (idle[k].fd in run[i + 1].pool.owner <==> stays)
    ensures run[i + 1].held == run[i].held && run[i].held.Keys <= run[i + 1].pool.open
    ensures run[i + 1].pool.queues.Keys == run[i].pool.queues.Keys
  {
    assert StepAt(run, ops, i);
    AlwaysConserved(run, ops, i);
    SweepKeepsHeld(run[i], ops[i].alive);
    var s, s', alive, now := run[i].pool, run[i + 1].pool, ops[i].alive, run[i].now;
    var idle := IdleOf(run, i, peer);
    at := KeptIsSubsequence(idle, alive, now);
    forall k | 0 <= k < |idle|
      ensures idle[k].fd in s'.open <==> Fresh(idle[k], alive, now)
      ensures idle[k].fd in s'.owner <==> Fresh(idle[k], alive, now)
    {
      SweptIffStale(s, peer, idle[k], alive, now);
    }
  }

  lemma SweepKeepsHeld(sys: System, alive: set<nat>)
    requires Conserved(sys) && Allowed(sys, Sweeping(alive))
    ensures sys.held.Keys <= Do(sys, Sweeping(alive)).pool.open
  {
    SweepingConserves(sys, alive);
  }

  lemma SweptIffStale(s: Pool, peer: PeerId, c: Connection, alive: set<nat>, now: nat)
    requires PoolOk(s) && peer in s.queues && c in s.queues[peer]
    ensures c.fd in Sweep(s, alive, now).open <==> Fresh(c, alive, now)
    ensures c.fd in Sweep(s, alive, now).owner <==> Fresh(c, alive, now)
  {
    assert QueueOk(s, peer, s.queues[peer]);
    KeepIff(c, alive, now);
    if Fresh(c, alive, now) {
      KeptIsNotDropped(s, peer, c, alive, now);
    } else {
      assert c.fd in Dropped(s.queues[peer], alive, now);
    }
  }

  /** Stopping a running pool closes every idle connection and no held one, and forgets all
      owners; stopping a stopped pool does nothing. */
  lemma StopClosesIdle(run: seq<System>, ops: seq<Operation>, i: nat)
    requires Happens(run, ops) && i < |ops| && ops[i].Stopping?
    ensures run[i + 1] == if run[i].pool.running
                          then System(Pool(map[], map[], false, run[i].held.Keys), run[i].held,
                                      run[i].now)
                          else run[i]
  {
    assert StepAt(run, ops, i);
    AlwaysConserved(run, ops, i);
  }

  // ---------- a connection comes back ----------

  /** The operation is not about this peer, does not stop the pool, and, if it is a sweep, comes
      within 301 seconds while the descriptor works. */
  ghost predicate LeavesAlone(sys: System, op: Operation, peer: PeerId, c: Connection) {
    match op
    case Getting(p, _, _) => p != peer
    case Releasing(fd, _) => fd in sys.held && sys.held[fd] != peer
    case ClosingPeer(p) => p != peer
    case Sweeping(alive) => Fresh(c, alive, sys.now)
    case Stopping => !sys.pool.running
    case _ => true
  }

  lemma AloneStays(run: seq<System>, ops: seq<Operation>, k: nat, peer: PeerId, c: Connection)
    requires Happens(run, ops) && k < |ops| && LeavesAlone(run[k], ops[k], peer, c)
    requires IdleOf(run, k, peer) == [c]
    ensures IdleOf(run, k + 1, peer) == [c]
  {
    assert StepAt(run, ops, k);
    match ops[k]
    case Getting(_, _, _) => GetTakesFront(run, ops, k);
    case Releasing(_, _) => ReleaseKeepsIff(run, ops, k);
    case Sweeping(alive) =>
      KeepIff(c, alive, run[k].now);
      KeptStep([c], alive, run[k].now);
    case _ =>
  }

  lemma {:induction false} StaysIdle(run: seq<System>, ops: seq<Operation>, i: nat, j: nat,
                                     peer: PeerId, c: Connection)
    requires Happens(run, ops) && i <= j < |run| && IdleOf(run, i, peer) == [c]
    requires forall k :: i <= k < j ==> LeavesAlone(run[k], ops[k], peer, c)
    ensures IdleOf(run, j, peer) == [c]
    decreases j - i
  {
    if i < j {
      AloneStays(run, ops, i, peer, c);
      StaysIdle(run, ops, i + 1, j, peer, c);
    }
  }

  /** A working connection that is released when its peer has no other idle one is what the next
      caller for that peer gets, unless the pool is stopped or it expires or fails before; and
      nothing new is opened. */
  lemma ReleaseThenGet(run: seq<System>, ops: seq<Operation>, i: nat, j: nat, fd: nat)
    requires Happens(run, ops) && i < j < |ops|
    requires ops[i].Releasing? && ops[i].fd == fd && fd in ops[i].alive && fd in run[i].pool.owner
    requires fd in run[i].held && IdleOf(run, i, run[i].held[fd]) == []
    requires forall k :: i < k < j ==>
               LeavesAlone(run[k], ops[k], run[i].held[fd], Connection(fd, run[i].now))
    requires ops[j].Getting? && ops[j].peer == run[i].held[fd] && fd in ops[j].alive
    ensures run[j + 1].held == run[j].held[fd := run[i].held[fd]]
    ensures run[j + 1].pool.open == run[j].pool.open
  {
    ReleaseKeepsIff(run, ops, i);
    StaysIdle(run, ops, i + 1, j, run[i].held[fd], Connection(fd, run[i].now));
    GetTakesFront(run, ops, j);
  }
}
