/** Conservation of descriptors over every sequence of pool operations by callers that release
    what they hold. */
module PoolSafety {
  import opened RaftTypes
  import opened PoolSpec

  /** The pool together with what its callers hold: each held descriptor with the peer it was
      obtained for. */
  datatype System = System(pool: Pool, held: map<nat, PeerId>, now: nat)

  const EMPTY: System := System(Pool(map[], map[], false, {}), map[], 0)

  datatype Operation =
    | Getting(peer: PeerId, alive: set<nat>, created: Option<nat>)
    | Releasing(fd: nat, alive: set<nat>)
    | ClosingPeer(peer: PeerId)
    | Sweeping(alive: set<nat>)
    | Stopping
    | Starting
    | Waiting(ticks: nat)

  /** A new descriptor is one that is not open; callers release only what they hold; the sweep
      runs while the pool does. */
  ghost predicate Allowed(sys: System, op: Operation) {
    match op
    case Getting(peer, alive, created) =>
      created.Some? ==> created.value !in DropDead(sys.pool, peer, alive).open
    case Releasing(fd, _) => fd in sys.held
    case Sweeping(_) => sys.pool.running
    case _ => true
  }

  ghost function Do(sys: System, op: Operation): System
    requires Allowed(sys, op)
  {
    match op
    case Getting(peer, alive, created) =>
      var (pool, fd) := Get(sys.pool, peer, alive, created);
      System(pool, if fd.Some? then sys.held[fd.value := peer] else sys.held, sys.now)
    case Releasing(fd, alive) =>
      System(Release(sys.pool, sys.held[fd], fd, alive, sys.now), sys.held - {fd}, sys.now)
    case ClosingPeer(peer) => sys.(pool := ClosePeer(sys.pool, peer))
    case Sweeping(alive) => sys.(pool := Sweep(sys.pool, alive, sys.now))
    case Stopping => sys.(pool := Stop(sys.pool))
    case Starting => sys.(pool := sys.pool.(running := true))
    case Waiting(ticks) => sys.(now := sys.now + ticks)
  }

  ghost predicate Happens(run: seq<System>, ops: seq<Operation>) {
    && |run| == |ops| + 1
    && run[0] == EMPTY
    && forall i :: 0 <= i < |ops| ==> StepAt(run, ops, i)
  }

  ghost predicate StepAt(run: seq<System>, ops: seq<Operation>, i: nat)
    requires |run| == |ops| + 1 && i < |ops|
  {
    Allowed(run[i], ops[i]) && run[i + 1] == Do(run[i], ops[i])
  }

  // ---------- the invariant ----------

  ghost predicate HeldOk(sys: System) {
    forall fd :: fd in sys.held ==>
      && fd in sys.pool.open && fd !in Queued(sys.pool)
      && (fd in sys.pool.owner ==> sys.pool.owner[fd] == sys.held[fd])
  }

  ghost predicate Conserved(sys: System) {
    && PoolOk(sys.pool)
    && UsedBy(sys.pool, sys.now)
    && HeldOk(sys)
    && sys.pool.open == Queued(sys.pool) + sys.held.Keys
  }

  lemma QueuedUpdate(s: Pool, s': Pool, peer: PeerId, q: seq<Connection>)
    requires s'.queues == s.queues[peer := q]
    ensures forall fd :: fd in Queued(s') <==>
              (fd in FdSet(q) || exists p :: p in s.queues && p != peer && fd in FdSet(s.queues[p]))
  {
    forall fd
      ensures fd in Queued(s') <==>
              (fd in FdSet(q) || exists p :: p in s.queues && p != peer && fd in FdSet(s.queues[p]))
    {
      if fd in Queued(s') {
        var p :| p in s'.queues && fd in FdSet(s'.queues[p]);
        assert p == peer || (p in s.queues && fd in FdSet(s.queues[p]));
      }
      if fd in FdSet(q) {
        assert fd in FdSet(s'.queues[peer]);
      }
      if p :| p in s.queues && p != peer && fd in FdSet(s.queues[p]) {
        assert fd in FdSet(s'.queues[p]);
      }
    }
  }

  /** Queueing one more connection adds its descriptor, and touching a queue adds nothing. */
  lemma QueuedAppend(s: Pool, peer: PeerId, extra: seq<Connection>)
    ensures Queued(s.(queues := s.queues[peer := QueueOf(s, peer) + extra]))
         == Queued(s) + FdSet(extra)
  {
    var q := QueueOf(s, peer);
    var s' := s.(queues := s.queues[peer := q + extra]);
    QueuedUpdate(s, s', peer, q + extra);
    assert FdSet(q + extra) == FdSet(q) + FdSet(extra);
    forall fd ensures fd in Queued(s') <==> fd in Queued(s) || fd in FdSet(extra) {
      if fd in FdSet(q) {
        assert peer in s.queues && fd in FdSet(s.queues[peer]);
      }
    }
  }

  lemma OwnQueue(s: Pool, peer: PeerId, fd: nat)
    requires PoolOk(s) && peer in s.queues && fd in FdSet(s.queues[peer])
    ensures fd in s.owner && s.owner[fd] == peer
    ensures forall p :: p in s.queues && p != peer ==> fd !in FdSet(s.queues[p])
  {
    assert QueueOk(s, peer, s.queues[peer]);
    forall p | p in s.queues && p != peer ensures fd !in FdSet(s.queues[p]) {
      QueuesDisjoint(s, p, peer);
    }
  }

  lemma FrontLeaves(s: Pool, peer: PeerId)
    requires PoolOk(s) && peer in s.queues && s.queues[peer] != []
    ensures Queued(s.(queues := s.queues[peer := s.queues[peer][1..]]))
         == Queued(s) - {s.queues[peer][0].fd}
    ensures s.queues[peer][0].fd in Queued(s)
  {
    var q := s.queues[peer];
    var s' := s.(queues := s.queues[peer := q[1..]]);
    assert QueueOk(s, peer, q);
    assert q[0] in q;
    OwnQueue(s, peer, q[0].fd);
    QueuedUpdate(s, s', peer, q[1..]);
    forall fd ensures fd in FdSet(q) <==> fd == q[0].fd || fd in FdSet(q[1..]) {
      assert q == [q[0]] + q[1..];
    }
    assert q[0].fd !in FdSet(q[1..]);
  }

  lemma DropDeadConserves(sys: System, peer: PeerId, alive: set<nat>)
    requires Conserved(sys)
    ensures Conserved(sys.(pool := DropDead(sys.pool, peer, alive)))
  {
    var s := sys.pool;
    var s' := DropDead(s, peer, alive);
    DropDeadKeepsPoolOk(s, peer, alive);
    if s' != s {
      var fd := s.queues[peer][0].fd;
      FrontLeaves(s, peer);
      QueuesOnly(s.(queues := s'.queues), s');
      FrontUsedBy(s, peer, sys.now);
      assert Queued(s') == Queued(s) - {fd} && fd !in sys.held;
    }
  }

  lemma FrontUsedBy(s: Pool, peer: PeerId, now: nat)
    requires UsedBy(s, now) && peer in s.queues && s.queues[peer] != []
    ensures UsedBy(s.(queues := s.queues[peer := s.queues[peer][1..]]), now)
  {
  }

  lemma ReuseConserves(sys: System, peer: PeerId)
    requires Conserved(sys) && QueueOf(sys.pool, peer) != []
    ensures var q := QueueOf(sys.pool, peer);
            Conserved(sys.(pool := sys.pool.(queues := sys.pool.queues[peer := q[1..]]),
                           held := sys.held[q[0].fd := peer]))
  {
    var q := QueueOf(sys.pool, peer);
    assert q[0] in q;
    FrontLeaves(sys.pool, peer);
    OwnQueue(sys.pool, peer, q[0].fd);
    PopKeepsPoolOk(sys.pool, peer);
  }

  lemma CreateConserves(sys: System, peer: PeerId, fd: nat)
    requires Conserved(sys) && fd !in sys.pool.open
    ensures var s := sys.pool;
            Conserved(sys.(pool := s.(owner := s.owner[fd := peer], open := s.open + {fd}),
                           held := sys.held[fd := peer]))
  {
    var s := sys.pool;
    CreateKeepsPoolOk(s, peer, fd);
    assert Queued(s.(owner := s.owner[fd := peer], open := s.open + {fd})) == Queued(s);
  }

  lemma GettingConserves(sys: System, peer: PeerId, alive: set<nat>, created: Option<nat>)
    requires Conserved(sys) && Allowed(sys, Getting(peer, alive, created))
    ensures Conserved(Do(sys, Getting(peer, alive, created)))
  {
    var q := QueueOf(sys.pool, peer);
    if q != [] && q[0].fd in alive {
      ReuseConserves(sys, peer);
    } else {
      DropDeadConserves(sys, peer, alive);
      if created.Some? {
        CreateConserves(sys.(pool := DropDead(sys.pool, peer, alive)), peer, created.value);
      }
    }
  }

  lemma ReleasingConserves(sys: System, fd: nat, alive: set<nat>)
    requires Conserved(sys) && fd in sys.held
    ensures Conserved(Do(sys, Releasing(fd, alive)))
  {
    var s := sys.pool;
    var peer := sys.held[fd];
    QueuedIff(s, fd);
    ReleaseKeepsPoolOkIff(s, peer, fd, alive, sys.now);
    ReleasedQueued(s, peer, fd, alive, sys.now);
    ReleasedUsedBy(s, peer, fd, alive, sys.now);
  }

  lemma ReleasedQueued(s: Pool, peer: PeerId, fd: nat, alive: set<nat>, now: nat)
    requires fd in s.open && fd !in Queued(s)
    ensures var s' := Release(s, peer, fd, alive, now);
            && s'.open == (if fd in s'.open then s.open else s.open - {fd})
            && Queued(s') == (if fd in s'.open then Queued(s) + {fd} else Queued(s))
            && (forall x :: x != fd ==> (x in s'.owner <==> x in s.owner))
            && (forall x :: x != fd && x in s.owner ==> s'.owner[x] == s.owner[x])
  {
    var q := QueueOf(s, peer);
    assert FdSet([Connection(fd, now)]) == {fd} by {
      assert Connection(fd, now) in [Connection(fd, now)];
    }
    QueuedAppend(s, peer, [Connection(fd, now)]);
    QueuedAppend(s, peer, []);
    assert q + [] == q;
    QueuesOnly(s.(queues := s.queues[peer := q]),
               Forget(s, {fd}).(queues := s.queues[peer := q]));
    QueuesOnly(s, Forget(s, {fd}));
    QueuesOnly(s, s.(open := s.open - {fd}));
  }

  lemma QueuesOnly(s: Pool, s': Pool)
    requires s'.queues == s.queues
    ensures Queued(s') == Queued(s)
  {
  }

  lemma ReleasedUsedBy(s: Pool, peer: PeerId, fd: nat, alive: set<nat>, now: nat)
    requires UsedBy(s, now)
    ensures UsedBy(Release(s, peer, fd, alive, now), now)
  {
  }

  lemma ClosingPeerConserves(sys: System, peer: PeerId)
    requires Conserved(sys)
    ensures Conserved(Do(sys, ClosingPeer(peer)))
  {
    var s := sys.pool;
    var s' := ClosePeer(s, peer);
    ClosePeerKeepsPoolOk(s, peer);
    if peer in s.queues {
      forall fd ensures fd in Queued(s') <==> fd in Queued(s) && fd !in FdSet(s.queues[peer]) {
        if fd in FdSet(s.queues[peer]) {
          OwnQueue(s, peer, fd);
        } else if fd in Queued(s) {
          var p :| p in s.queues && fd in FdSet(s.queues[p]);
          assert p in s'.queues && fd in FdSet(s'.queues[p]);
        }
        if fd in Queued(s') {
          var p :| p in s'.queues && fd in FdSet(s'.queues[p]);
          assert p in s.queues && fd in FdSet(s.queues[p]);
        }
      }
      assert Queued(s') == Queued(s) - FdSet(s.queues[peer]);
      assert FdSet(s.queues[peer]) <= Queued(s);
    }
  }

  lemma KeptMembers(q: seq<Connection>, alive: set<nat>, now: nat)
    ensures forall c :: c in Kept(q, alive, now) <==> c in q && Keep(c, alive, now)
  {
    var at := KeptIsSubsequence(q, alive, now);
    forall c ensures c in Kept(q, alive, now) <==> c in q && Keep(c, alive, now) {
      if c in Kept(q, alive, now) {
        var k :| 0 <= k < |at| && Kept(q, alive, now)[k] == c;
        assert at[k] in at;
        KeepIff(q[at[k]], alive, now);
      }
      if c in q && Keep(c, alive, now) {
        var i :| 0 <= i < |q| && q[i] == c;
        KeepIff(q[i], alive, now);
        assert i in at;
        var k :| 0 <= k < |at| && at[k] == i;
      }
    }
  }

  lemma SweepingConserves(sys: System, alive: set<nat>)
    requires Conserved(sys)
    ensures Conserved(Do(sys, Sweeping(alive)).(now := sys.now))
    requires Allowed(sys, Sweeping(alive))
  {
    var s, now := sys.pool, sys.now;
    var s' := Sweep(s, alive, now);
    SweepKeepsPoolOk(s, alive, now);
    var dropped := set p, fd | p in s.queues && fd in Dropped(s.queues[p], alive, now) :: fd;
    assert Queued(s') == Queued(s) - dropped by {
      SweepQueued(s, alive, now);
    }
    assert dropped <= Queued(s) by {
      forall fd | fd in dropped ensures fd in Queued(s) {
        var p :| p in s.queues && fd in Dropped(s.queues[p], alive, now);
        assert fd in FdSet(s.queues[p]);
      }
    }
    SweepUsedBy(s, alive, now);
  }

  lemma SweepUsedBy(s: Pool, alive: set<nat>, now: nat)
    requires UsedBy(s, now)
    ensures UsedBy(Sweep(s, alive, now), now)
  {
    var s' := Sweep(s, alive, now);
    forall p, i | p in s'.queues && 0 <= i < |s'.queues[p]|
      ensures s'.queues[p][i].lastUsed <= now
    {
      KeptMembers(s.queues[p], alive, now);
      assert s'.queues[p][i] in s.queues[p];
    }
  }

  lemma SweepQueued(s: Pool, alive: set<nat>, now: nat)
    requires PoolOk(s)
    ensures Queued(Sweep(s, alive, now))
         == Queued(s) - set p, fd | p in s.queues && fd in Dropped(s.queues[p], alive, now) :: fd
  {
    var s' := Sweep(s, alive, now);
    var dropped := set p, fd | p in s.queues && fd in Dropped(s.queues[p], alive, now) :: fd;
    forall fd ensures fd in Queued(s') <==> fd in Queued(s) && fd !in dropped {
      if fd in Queued(s') {
        var p :| p in s'.queues && fd in FdSet(s'.queues[p]);
        var c :| c in s'.queues[p] && c.fd == fd;
        KeptMembers(s.queues[p], alive, now);
        KeptIsNotDropped(s, p, c, alive, now);
        assert fd in FdSet(s.queues[p]);
      }
      if fd in Queued(s) && fd !in dropped {
        var p :| p in s.queues && fd in FdSet(s.queues[p]);
        var c :| c in s.queues[p] && c.fd == fd;
        KeptMembers(s.queues[p], alive, now);
        assert fd !in Dropped(s.queues[p], alive, now);
        assert c in s'.queues[p];
        assert fd in FdSet(s'.queues[p]);
      }
    }
  }

  lemma OperationConserves(sys: System, op: Operation)
    requires Conserved(sys) && Allowed(sys, op)
    ensures Conserved(Do(sys, op))
  {
    match op
    case Getting(peer, alive, created) => GettingConserves(sys, peer, alive, created);
    case Releasing(fd, alive) => ReleasingConserves(sys, fd, alive);
    case ClosingPeer(peer) => ClosingPeerConserves(sys, peer);
    case Sweeping(alive) => SweepingConserves(sys, alive);
    case Stopping =>
      if sys.pool.running {
        assert Queued(Stop(sys.pool)) == {};
      }
    case Starting =>
      var s' := sys.pool.(running := true);
      assert Queued(s') == Queued(sys.pool);
      forall p | p in s'.queues ensures QueueOk(s', p, s'.queues[p]) {
        assert QueueOk(sys.pool, p, sys.pool.queues[p]);
      }
    case Waiting(_) =>
  }

  lemma {:induction false} AlwaysConserved(run: seq<System>, ops: seq<Operation>, i: nat)
    requires Happens(run, ops) && i < |run|
    ensures Conserved(run[i])
  {
    if i == 0 {
      assert Queued(EMPTY.pool) == {};
    } else {
      AlwaysConserved(run, ops, i - 1);
      assert StepAt(run, ops, i - 1);
      OperationConserves(run[i - 1], ops[i - 1]);
    }
  }

  /** Conservation: after any operations, an open descriptor is held by exactly one caller and
      in no queue, or held by nobody and in exactly one slot of one queue, its own peer's. */
  lemma Conservation(run: seq<System>, ops: seq<Operation>, i: nat, fd: nat)
    requires Happens(run, ops) && i < |run| && fd in run[i].pool.open
    ensures var s := run[i].pool;
            && (fd in run[i].held <==> !IsQueued(s, fd))
            && forall p, k, p', k' ::
                 p in s.queues && 0 <= k < |s.queues[p]| && s.queues[p][k].fd == fd
                 && p' in s.queues && 0 <= k' < |s.queues[p']| && s.queues[p'][k'].fd == fd
                 ==> p == p' && k == k' && fd in s.owner && s.owner[fd] == p
  {
    AlwaysConserved(run, ops, i);
    var s := run[i].pool;
    QueuedIff(s, fd);
    forall p, k, p', k' |
      p in s.queues && 0 <= k < |s.queues[p]| && s.queues[p][k].fd == fd
      && p' in s.queues && 0 <= k' < |s.queues[p']| && s.queues[p'][k'].fd == fd
      ensures p == p' && k == k' && fd in s.owner && s.owner[fd] == p
    {
      assert QueueOk(s, p, s.queues[p]) && QueueOk(s, p', s.queues[p']);
    }
  }

  /** Every allowed operation of a run finds the pool as the pool object's methods require it, so
      none of them closes a descriptor that is not open: nothing is closed twice. A release
      also names the owner, so it leaves the pool in order. */
  lemma OperationsAreReady(run: seq<System>, ops: seq<Operation>, i: nat)
    requires Happens(run, ops) && i < |ops|
    ensures var s := run[i].pool;
            match ops[i]
            case Getting(peer, alive, created) => GetReady(s, peer, alive, created)
            case Releasing(fd, _) =>
              && ReleaseReady(s, fd, run[i].now) && fd in run[i].held
              && (fd in s.owner ==> s.owner[fd] == run[i].held[fd])
            case _ => PoolOk(s)
  {
    AlwaysConserved(run, ops, i);
    assert StepAt(run, ops, i);
    if ops[i].Releasing? {
      QueuedIff(run[i].pool, ops[i].fd);
    }
  }

  /** What a caller gets is the new connection, or an idle one of that peer that works and than
      which none of the peer's has been idle longer. It is the caller's alone from then on. */
  lemma ReusesLongestIdle(run: seq<System>, ops: seq<Operation>, i: nat)
    requires Happens(run, ops) && i < |ops| && ops[i].Getting?
    ensures var (peer, alive, created) := (ops[i].peer, ops[i].alive, ops[i].created);
            var q := QueueOf(run[i].pool, peer);
            var got := Get(run[i].pool, peer, alive, created).1;
            && (got != created ==> got.Some? && got.value in alive && got.value in run[i].pool.open
                                   && IsLongestIdle(q, got.value))
            && (got.Some? ==>
                  && got.value in run[i + 1].held && run[i + 1].held[got.value] == peer
                  && !IsQueued(run[i + 1].pool, got.value) && got.value in run[i + 1].pool.open)
  {
    AlwaysConserved(run, ops, i);
    AlwaysConserved(run, ops, i + 1);
    assert StepAt(run, ops, i);
    var peer, alive, created := ops[i].peer, ops[i].alive, ops[i].created;
    var q := QueueOf(run[i].pool, peer);
    var got := Get(run[i].pool, peer, alive, created).1;
    if got != created {
      assert QueueOk(run[i].pool, peer, q);
      assert q[0].fd == got.value;
    }
    if got.Some? {
      QueuedIff(run[i + 1].pool, got.value);
    }
  }

  ghost predicate IsLongestIdle(q: seq<Connection>, fd: nat) {
    exists k :: 0 <= k < |q| && q[k].fd == fd
      && forall l :: 0 <= l < |q| ==> q[k].lastUsed <= q[l].lastUsed
  }

  /** And nothing else is accounted for: what is held or queued is open, with at most five idle
      connections per peer, the longest idle at the front. */
  lemma NothingDangles(run: seq<System>, ops: seq<Operation>, i: nat)
    requires Happens(run, ops) && i < |run|
    ensures var s := run[i].pool;
            && (forall fd :: fd in run[i].held || IsQueued(s, fd) || fd in s.owner ==> fd in s.open)
            && forall p :: p in s.queues ==>
                 && |s.queues[p]| <= MAX_CONNECTIONS_PER_PEER
                 && forall k :: 0 <= k < |s.queues[p]| ==>
                      s.queues[p][0].lastUsed <= s.queues[p][k].lastUsed <= run[i].now
  {
    AlwaysConserved(run, ops, i);
    var s := run[i].pool;
    forall fd | fd in run[i].held || IsQueued(s, fd) || fd in s.owner ensures fd in s.open {
      QueuedIff(s, fd);
    }
    forall p | p in s.queues
      ensures |s.queues[p]| <= MAX_CONNECTIONS_PER_PEER
      ensures forall k :: 0 <= k < |s.queues[p]| ==>
                s.queues[p][0].lastUsed <= s.queues[p][k].lastUsed <= run[i].now
    {
      assert QueueOk(s, p, s.queues[p]);
    }
  }

  /** A descriptor held while the pool stops is closed, and never queued again, when it is
      released, whatever happens in between. */
  lemma {:induction false} HeldAcrossStop(run: seq<System>, ops: seq<Operation>, i: nat, j: nat,
                                          fd: nat)
    requires Happens(run, ops) && i < j < |ops|
    requires ops[i] == Stopping && run[i].pool.running && fd in run[i].held
    requires forall k :: i < k < j ==> !(ops[k].Releasing? && ops[k].fd == fd)
    requires ops[j].Releasing? && ops[j].fd == fd
    ensures fd in run[j].pool.open && fd !in run[j + 1].pool.open
    ensures !IsQueued(run[j + 1].pool, fd)
  {
    StaysOrphan(run, ops, i, j, fd);
    AlwaysConserved(run, ops, j);
    AlwaysConserved(run, ops, j + 1);
    assert StepAt(run, ops, j);
    QueuedIff(run[j + 1].pool, fd);
  }

  lemma {:induction false} StaysOrphan(run: seq<System>, ops: seq<Operation>, i: nat, j: nat,
                                       fd: nat)
    requires Happens(run, ops) && i < j <= |ops|
    requires ops[i] == Stopping && run[i].pool.running && fd in run[i].held
    requires forall k :: i < k < j ==> !(ops[k].Releasing? && ops[k].fd == fd)
    ensures fd in run[j].held && fd !in run[j].pool.owner
  {
    assert StepAt(run, ops, j - 1);
    if j - 1 > i {
      StaysOrphan(run, ops, i, j - 1, fd);
      AlwaysConserved(run, ops, j - 1);
      OrphanStep(run[j - 1], ops[j - 1], fd);
    }
  }

  lemma OrphanStep(sys: System, op: Operation, fd: nat)
    requires Conserved(sys) && Allowed(sys, op) && fd in sys.held && fd !in sys.pool.owner
    requires !(op.Releasing? && op.fd == fd)
    ensures fd in Do(sys, op).held && fd !in Do(sys, op).pool.owner
  {
    if op.Getting? {
      var q := QueueOf(sys.pool, op.peer);
      if q != [] {
        assert q[0] in q;
        assert q[0].fd in FdSet(q);
      }
    }
  }
}
