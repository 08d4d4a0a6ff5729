/** The connection pool object of RaftConnectionPool.cpp: queues are popped and rebuilt in place.
    Descriptors are closed through a table of open descriptors that refuses to close one
    twice. */
module ConnectionPoolObject {
  import opened RaftTypes
  import opened PoolSpec

  /** The open descriptors the pool created. */
  class Descriptors {
    var open: set<nat>

    constructor ()
      ensures open == {}
    {
      open := {};
    }

    method Open(fd: nat)
      requires fd !in open
      modifies this
      ensures open == old(open) + {fd}
    {
      open := open + {fd};
    }

    method Close(fd: nat)
      requires fd in open
      modifies this
      ensures open == old(open) - {fd}
    {
      open := open - {fd};
    }
  }

  class RaftConnectionPool {
    const os: Descriptors

    var pools: map<PeerId, seq<Connection>>
    var fdToPeer: map<nat, PeerId>
    var running: bool

    ghost function State(): Pool
      reads this, os
    {
      Pool(pools, fdToPeer, running, os.open)
    }

    ghost predicate Valid()
      reads this, os
    {
      PoolOk(State())
    }

    constructor (os: Descriptors)
      requires os.open == {}
      ensures this.os == os && Valid() && State() == Pool(map[], map[], false, {})
    {
      this.os := os;
      pools := map[];
      fdToPeer := map[];
      running := false;
    }

    /** The result is -1 when no connection could be had. `alive` are the descriptors the
        validity check accepts at this moment. */
    method GetConnection(peer: PeerId, alive: set<nat>, created: Option<nat>) returns (fd: int)
      requires GetReady(State(), peer, alive, created)
      modifies this, os
      ensures Valid() && fd >= -1
      ensures (State(), if fd >= 0 then Some(fd as nat) else None)
           == Get(old(State()), peer, alive, created)
      ensures var idle := QueueOf(old(State()), peer);
              if idle != [] && idle[0].fd in alive
              then fd == idle[0].fd && os.open == old(os.open)
              else fd == (if created.Some? then created.value else -1)
    {
      GetKeepsPoolOk(State(), peer, alive, created);
      if peer in pools && pools[peer] != [] {
        var conn := pools[peer][0];
        assert QueueOk(State(), peer, pools[peer]);
        if conn.fd in alive {
          pools := pools[peer := pools[peer][1..]];
          return conn.fd;
        } else {
          os.Close(conn.fd);
          fdToPeer := fdToPeer - {conn.fd};
          pools := pools[peer := pools[peer][1..]];
        }
      }
      assert State() == DropDead(old(State()), peer, alive);
      if created.Some? {
        os.Open(created.value);
        fdToPeer := fdToPeer[created.value := peer];
        return created.value;
      }
      return -1;
    }

    method ReleaseConnection(peer: PeerId, fd: nat, alive: set<nat>, now: nat)
      requires ReleaseReady(State(), fd, now)
      modifies this, os
      ensures State() == Release(old(State()), peer, fd, alive, now)
      ensures Valid() <==> (fd in old(fdToPeer) ==> old(fdToPeer)[fd] == peer)
      ensures fd in os.open <==>
                && fd in alive && fd in old(fdToPeer) && old(fdToPeer)[fd] == peer
                && |QueueOf(old(State()), peer)| < 5
      ensures fd in os.open ==>
                pools == old(pools)[peer := QueueOf(old(State()), peer) + [Connection(fd, now)]]
    {
      ReleaseKeepsPoolOkIff(State(), peer, fd, alive, now);
      if fd !in fdToPeer || fdToPeer[fd] != peer {
        os.Close(fd);
        return;
      }
      if fd !in alive {
        fdToPeer := fdToPeer - {fd};
        os.Close(fd);
        return;
      }
      var queue := if peer in pools then pools[peer] else [];
      if |queue| < MAX_CONNECTIONS_PER_PEER {
        pools := pools[peer := queue + [Connection(fd, now)]];
      } else {
        pools := pools[peer := queue];
        fdToPeer := fdToPeer - {fd};
        os.Close(fd);
      }
    }

    method ClosePeerConnections(peer: PeerId)
      requires Valid()
      modifies this, os
      ensures Valid() && State() == ClosePeer(old(State()), peer)
    {
      ClosePeerKeepsPoolOk(State(), peer);
      if peer !in pools {
        return;
      }
      var queue := pools[peer];
      assert QueueOk(State(), peer, queue);
      ghost var n := 0;
      while queue != []
        invariant n <= |old(pools)[peer]| && queue == old(pools)[peer][n..]
        invariant pools == old(pools) && running == old(running)
        invariant os.open == old(os.open) - FdSet(old(pools)[peer][..n])
        invariant fdToPeer == old(fdToPeer) - FdSet(old(pools)[peer][..n])
        decreases |queue|
      {
        var conn := queue[0];
        FdSetNext(old(pools)[peer], n);
        os.Close(conn.fd);
        fdToPeer := fdToPeer - {conn.fd};
        queue := queue[1..];
        n := n + 1;
      }
      assert old(pools)[peer][..n] == old(pools)[peer];
      pools := pools - {peer};
    }

    /** One pass of the cleanup thread over all queues, in whatever order the hash map has. */
    method CleanupPass(alive: set<nat>, now: nat)
      requires Valid()
      modifies this, os
      ensures Valid() && State() == Sweep(old(State()), alive, now)
    {
      SweepKeepsPoolOk(State(), alive, now);
      var rest := pools.Keys;
      ghost var s := State();
      while rest != {}
        invariant rest <= s.queues.Keys
        invariant State() == SweptExcept(s, rest, alive, now)
        decreases rest
      {
        var p :| p in rest;
        SweepQueue(p, alive, now, s, rest);
        rest := rest - {p};
      }
      SweptExceptNone(s, alive, now);
    }

    method SweepQueue(p: PeerId, alive: set<nat>, now: nat, ghost s: Pool, ghost rest: set<PeerId>)
      requires PoolOk(s) && rest <= s.queues.Keys && p in rest
      requires State() == SweptExcept(s, rest, alive, now)
      modifies this, os
      ensures State() == SweptExcept(s, rest - {p}, alive, now)
    {
      StillOpen(s, rest, p, alive, now);
      var newQueue := RebuildQueue(pools[p], alive, now);
      pools := pools[p := newQueue];
      SweptOneMore(s, rest, p, alive, now);
    }

    /** Pops the whole queue; what is not worth keeping is closed, the rest queued anew. */
    method RebuildQueue(queue: seq<Connection>, alive: set<nat>, now: nat)
      returns (newQueue: seq<Connection>)
      requires forall n :: 0 <= n < |queue| ==>
                 queue[n].fd in os.open && queue[n].fd !in Dropped(queue[..n], alive, now)
      modifies this`fdToPeer, os
      ensures newQueue == Kept(queue, alive, now)
      ensures os.open == old(os.open) - Dropped(queue, alive, now)
      ensures fdToPeer == old(fdToPeer) - Dropped(queue, alive, now)
    {
      var left := queue;
      newQueue := [];
      ghost var n := 0;
      while left != []
        invariant n <= |queue| && left == queue[n..]
        invariant newQueue == Kept(queue[..n], alive, now)
        invariant os.open == old(os.open) - Dropped(queue[..n], alive, now)
        invariant fdToPeer == old(fdToPeer) - Dropped(queue[..n], alive, now)
        decreases |left|
      {
        var conn := left[0];
        KeptNext(queue, n, alive, now);
        DroppedNext(queue, n, alive, now);
        if (now as int - conn.lastUsed as int) / TICKS_PER_SECOND > CONNECTION_TIMEOUT
           || conn.fd !in alive {
          os.Close(conn.fd);
          fdToPeer := fdToPeer - {conn.fd};
        } else {
          newQueue := newQueue + [conn];
        }
        left := left[1..];
        n := n + 1;
      }
      assert queue[..n] == queue;
    }

    method Start()
      requires Valid()
      modifies this`running
      ensures Valid() && State() == old(State()).(running := true)
    {
      running := true;
      assert forall p :: p in pools ==> old(QueueOk(State(), p, pools[p]));
    }

    method StopPool()
      requires Valid()
      modifies this, os
      ensures Valid() && State() == Stop(old(State()))
    {
      if !running {
        return;
      }
      running := false;
      ghost var s := old(State());
      var rest := pools.Keys;
      while rest != {}
        invariant rest <= s.queues.Keys
        invariant pools == s.queues && !running
        invariant os.open == s.open - QueuedAt(s, s.queues.Keys - rest)
        decreases rest
      {
        var p :| p in rest;
        CloseQueue(pools[p], s, rest, p);
        QueuedAtAdd(s, s.queues.Keys - rest, p);
        assert s.queues.Keys - (rest - {p}) == (s.queues.Keys - rest) + {p};
        rest := rest - {p};
      }
      assert s.queues.Keys - rest == s.queues.Keys;
      assert QueuedAt(s, s.queues.Keys) == Queued(s);
      pools := map[];
      fdToPeer := map[];
    }

    method CloseQueue(queue: seq<Connection>, ghost s: Pool, ghost rest: set<PeerId>,
                      ghost p: PeerId)
      requires PoolOk(s) && rest <= s.queues.Keys && p in rest && queue == s.queues[p]
      requires os.open == s.open - QueuedAt(s, s.queues.Keys - rest)
      modifies os
      ensures os.open == old(os.open) - FdSet(queue)
    {
      assert QueueOk(s, p, queue);
      NotYetClosed(s, s.queues.Keys - rest, p);
      var i := 0;
      while i < |queue|
        invariant i <= |queue|
        invariant os.open == old(os.open) - FdSet(queue[..i])
      {
        FdSetNext(queue, i);
        assert queue[i] in queue;
        os.Close(queue[i].fd);
        i := i + 1;
      }
      assert queue[..i] == queue;
    }
  }

  // ---------- helpers for the loops ----------

  lemma FdSetNext(q: seq<Connection>, n: nat)
    requires n < |q|
    ensures FdSet(q[..n + 1]) == FdSet(q[..n]) + {q[n].fd}
    ensures (forall i, j :: 0 <= i < j < |q| ==> q[i].fd != q[j].fd) ==> q[n].fd !in FdSet(q[..n])
  {
    assert q[..n + 1] == q[..n] + [q[n]];
    assert q[n] in q[..n + 1];
  }

  lemma KeptNext(q: seq<Connection>, n: nat, alive: set<nat>, now: nat)
    requires n < |q|
    ensures Kept(q[..n + 1], alive, now)
         == Kept(q[..n], alive, now) + if Keep(q[n], alive, now) then [q[n]] else []
  {
    assert q[..n + 1] == q[..n] + [q[n]];
    KeptConcat(q[..n], [q[n]], alive, now);
    assert Kept([q[n]][1..], alive, now) == [];
  }

  lemma DroppedNext(q: seq<Connection>, n: nat, alive: set<nat>, now: nat)
    requires n < |q|
    ensures Dropped(q[..n + 1], alive, now)
         == Dropped(q[..n], alive, now) + if Keep(q[n], alive, now) then {} else {q[n].fd}
  {
    assert q[..n + 1] == q[..n] + [q[n]];
    assert q[n] in q[..n + 1];
  }

  ghost function DroppedAt(s: Pool, peers: set<PeerId>, alive: set<nat>, now: nat): set<nat> {
    set p, fd | p in peers && p in s.queues && fd in Dropped(s.queues[p], alive, now) :: fd
  }

  /** The sweep with the queues of `rest` still to come. */
  ghost function SweptExcept(s: Pool, rest: set<PeerId>, alive: set<nat>, now: nat): Pool {
    Forget(s, DroppedAt(s, s.queues.Keys - rest, alive, now)).(
      queues := map p | p in s.queues ::
                  if p in rest then s.queues[p] else Kept(s.queues[p], alive, now))
  }

  lemma SweptExceptNone(s: Pool, alive: set<nat>, now: nat)
    ensures SweptExcept(s, {}, alive, now) == Sweep(s, alive, now)
  {
    assert DroppedAt(s, s.queues.Keys - {}, alive, now)
        == set p, fd | p in s.queues && fd in Dropped(s.queues[p], alive, now) :: fd;
  }

  lemma SweptOneMore(s: Pool, rest: set<PeerId>, p: PeerId, alive: set<nat>, now: nat)
    requires rest <= s.queues.Keys && p in rest
    ensures SweptExcept(s, rest - {p}, alive, now)
         == Forget(SweptExcept(s, rest, alive, now), Dropped(s.queues[p], alive, now)).(
              queues := SweptExcept(s, rest, alive, now).queues[p := Kept(s.queues[p], alive, now)])
  {
    var done := s.queues.Keys - rest;
    assert s.queues.Keys - (rest - {p}) == done + {p};
    assert DroppedAt(s, done + {p}, alive, now)
        == DroppedAt(s, done, alive, now) + Dropped(s.queues[p], alive, now);
  }

  /** Connections still to come have not been closed by an earlier step of the sweep. */
  lemma StillOpen(s: Pool, rest: set<PeerId>, p: PeerId, alive: set<nat>, now: nat)
    requires PoolOk(s) && p in rest && p in s.queues
    ensures forall n :: 0 <= n < |s.queues[p]| ==>
              && s.queues[p][n].fd in SweptExcept(s, rest, alive, now).open
              && s.queues[p][n].fd !in Dropped(s.queues[p][..n], alive, now)
  {
    assert QueueOk(s, p, s.queues[p]);
    forall n | 0 <= n < |s.queues[p]|
      ensures s.queues[p][n].fd in SweptExcept(s, rest, alive, now).open
           && s.queues[p][n].fd !in Dropped(s.queues[p][..n], alive, now)
    {
      var fd := s.queues[p][n].fd;
      assert s.queues[p][n] in s.queues[p];
      forall q | q in s.queues && q != p ensures fd !in Dropped(s.queues[q], alive, now) {
        QueuesDisjoint(s, p, q);
        assert fd in FdSet(s.queues[p]);
      }
    }
  }

  ghost function QueuedAt(s: Pool, peers: set<PeerId>): set<nat> {
    set p, fd | p in peers && p in s.queues && fd in FdSet(s.queues[p]) :: fd
  }

  lemma QueuedAtAdd(s: Pool, peers: set<PeerId>, p: PeerId)
    requires p in s.queues
    ensures QueuedAt(s, peers + {p}) == QueuedAt(s, peers) + FdSet(s.queues[p])
  {
  }

  lemma NotYetClosed(s: Pool, peers: set<PeerId>, p: PeerId)
    requires PoolOk(s) && p in s.queues && p !in peers
    ensures FdSet(s.queues[p]) !! QueuedAt(s, peers) && FdSet(s.queues[p]) <= s.open
  {
    assert QueueOk(s, p, s.queues[p]);
    forall q | q in peers && q in s.queues ensures FdSet(s.queues[p]) !! FdSet(s.queues[q]) {
      QueuesDisjoint(s, p, q);
    }
  }
}
