/** Server-to-server forwarding of STORE and GET (src/server/Connection.cpp) over the router
    views the servers build at start-up (src/server/Server.cpp). Views may disagree. */
module Forwarding {
  import opened RaftTypes
  import opened RaftCluster
  import opened ShardRouting

  type ServerId = string

  /** The router of every server. */
  type Views = map<ServerId, seq<NodeInfo>>

  /** The id is in the view, as a healthy node. */
  ghost predicate Knows(view: seq<NodeInfo>, id: ServerId) {
    exists i :: 0 <= i < |view| && view[i].healthy && view[i].id == id
  }

  /** A server's own entry is in its view and healthy. */
  ghost predicate KnowsItself(views: Views, at: ServerId) {
    at in views && Knows(views[at], at)
  }

  /** A server whose router has a node to pick. */
  ghost predicate CanRoute(views: Views, at: ServerId) {
    at in views && HasHealthy(views[at])
  }

  ghost predicate Sane(views: Views) {
    forall at :: at in views ==> KnowsItself(views, at)
  }

  /** Where a server sends a key: itself when it serves the key. */
  ghost function NextHop(hash: Hash, views: Views, key: string, at: ServerId): ServerId
    requires CanRoute(views, at)
  {
    Pick(hash, views[at], key).id
  }

  /** In every view, healthy nodes that tie for the key stand in the order of one common
      ranking. This holds of any views when no scores tie, and for any scores when all servers
      read the same node list. */
  ghost predicate TiesRanked(hash: Hash, views: Views, key: string, rank: ServerId -> nat) {
    forall at :: at in views ==> ViewRanked(hash, views[at], key, rank)
  }

  ghost predicate ViewRanked(hash: Hash, view: seq<NodeInfo>, key: string, rank: ServerId -> nat) {
    forall i, j ::
      && 0 <= i < j < |view| && view[i].healthy && view[j].healthy && view[i].id != view[j].id
      && Score(hash, key, view[i].id) == Score(hash, key, view[j].id)
      ==> rank(view[i].id) < rank(view[j].id)
  }

  ghost predicate Better(hash: Hash, key: string, rank: ServerId -> nat, a: ServerId, b: ServerId) {
    || Score(hash, key, b) > Score(hash, key, a)
    || (Score(hash, key, b) == Score(hash, key, a) && rank(b) < rank(a))
  }

  /** Every hop goes to a strictly better server. */
  lemma HopImproves(hash: Hash, views: Views, key: string, rank: ServerId -> nat, at: ServerId)
    requires KnowsItself(views, at) && TiesRanked(hash, views, key, rank)
    ensures CanRoute(views, at)
    ensures NextHop(hash, views, key, at) != at ==>
              Better(hash, key, rank, at, NextHop(hash, views, key, at))
  {
    var view := views[at];
    var j :| 0 <= j < |view| && view[j].healthy && view[j].id == at;
    var i := PickIndex(hash, view, key);
    assert HasHealthy(view) && IsPick(hash, view, key, i);
  }

  /** The servers a request visits, starting at `at`. */
  ghost predicate IsTrip(hash: Hash, views: Views, key: string, trip: seq<ServerId>) {
    && |trip| > 0
    && forall k :: 0 <= k < |trip| - 1 ==> HopAt(hash, views, key, trip, k)
  }

  ghost predicate HopAt(hash: Hash, views: Views, key: string, trip: seq<ServerId>, k: nat)
    requires k + 1 < |trip|
  {
    && CanRoute(views, trip[k])
    && NextHop(hash, views, key, trip[k]) == trip[k + 1]
    && trip[k] != trip[k + 1]
  }

  lemma {:induction false} TripImproves(hash: Hash, views: Views, key: string,
                                        rank: ServerId -> nat, trip: seq<ServerId>, i: nat, j: nat)
    requires Sane(views) && TiesRanked(hash, views, key, rank) && IsTrip(hash, views, key, trip)
    requires i < j < |trip|
    ensures Better(hash, key, rank, trip[i], trip[j])
    decreases j
  {
    assert HopAt(hash, views, key, trip, j - 1);
    HopImproves(hash, views, key, rank, trip[j - 1]);
    if i < j - 1 {
      TripImproves(hash, views, key, rank, trip, i, j - 1);
    }
  }

  /** Forwarding terminates if every server knows itself: no server is visited twice, so there are
      fewer hops than servers (the last stop may be a node that is no server, where the
      connection fails). */
  lemma TripsEnd(hash: Hash, views: Views, key: string, rank: ServerId -> nat, trip: seq<ServerId>)
    requires Sane(views) && TiesRanked(hash, views, key, rank) && IsTrip(hash, views, key, trip)
    ensures Distinct(trip)
    ensures |trip| <= |views.Keys| + 1
    ensures trip[|trip| - 1] in views ==> |trip| <= |views.Keys|
  {
    forall i, j | 0 <= i < j < |trip| ensures trip[i] != trip[j] {
      TripImproves(hash, views, key, rank, trip, i, j);
    }
    var firsts := trip[..|trip| - 1];
    forall k | 0 <= k < |firsts| ensures firsts[k] in views.Keys {
      assert HopAt(hash, views, key, trip, k);
    }
    DistinctFits(firsts, views.Keys);
    if trip[|trip| - 1] in views {
      DistinctFits(trip, views.Keys);
    }
  }

  lemma {:induction false} DistinctFits(s: seq<ServerId>, within: set<ServerId>)
    requires Distinct(s) && forall k :: 0 <= k < |s| ==> s[k] in within
    ensures |s| <= |within|
  {
    if s != [] {
      var last := s[|s| - 1];
      DistinctFits(s[..|s| - 1], within - {last});
    }
  }

  ghost function BetterServers(hash: Hash, views: Views, key: string, rank: ServerId -> nat,
                               at: ServerId): set<ServerId> {
    set s | s in views && Better(hash, key, rank, at, s)
  }

  lemma FewerBetter(hash: Hash, views: Views, key: string, rank: ServerId -> nat, at: ServerId,
                    next: ServerId)
    requires next in views && Better(hash, key, rank, at, next)
    ensures BetterServers(hash, views, key, rank, next) < BetterServers(hash, views, key, rank, at)
  {
    assert next in BetterServers(hash, views, key, rank, at);
    assert next !in BetterServers(hash, views, key, rank, next);
  }

  /** The whole trip of a request. */
  ghost function Trip(hash: Hash, views: Views, key: string, rank: ServerId -> nat, at: ServerId)
    : seq<ServerId>
    requires Sane(views) && TiesRanked(hash, views, key, rank)
    decreases BetterServers(hash, views, key, rank, at)
  {
    if at !in views then [at]
    else
      HopImproves(hash, views, key, rank, at);
      var next := NextHop(hash, views, key, at);
      if next == at then [at] else
      if next !in views then [at, next]
      else
        FewerBetter(hash, views, key, rank, at, next);
        [at] + Trip(hash, views, key, rank, next)
  }

  /** It follows the servers' decisions and ends at a server that serves the key itself, or at a
      node that is no server. */
  lemma {:induction false} TripIsTrip(hash: Hash, views: Views, key: string, rank: ServerId -> nat,
                                      at: ServerId)
    requires Sane(views) && TiesRanked(hash, views, key, rank)
    ensures var trip := Trip(hash, views, key, rank, at);
            && IsTrip(hash, views, key, trip) && trip[0] == at
            && var last := trip[|trip| - 1];
            last in views ==> CanRoute(views, last) && NextHop(hash, views, key, last) == last
    decreases BetterServers(hash, views, key, rank, at)
  {
    if at in views {
      HopImproves(hash, views, key, rank, at);
      var next := NextHop(hash, views, key, at);
      if next == at {
      } else if next in views {
        FewerBetter(hash, views, key, rank, at, next);
        TripIsTrip(hash, views, key, rank, next);
        var rest := Trip(hash, views, key, rank, next);
        TripExtends(hash, views, key, at, rest);
        assert ([at] + rest)[|rest|] == rest[|rest| - 1];
      } else {
        assert HopAt(hash, views, key, [at, next], 0);
      }
    }
  }

  lemma TripExtends(hash: Hash, views: Views, key: string, at: ServerId, rest: seq<ServerId>)
    requires IsTrip(hash, views, key, rest) && CanRoute(views, at)
    requires NextHop(hash, views, key, at) == rest[0] != at
    ensures IsTrip(hash, views, key, [at] + rest)
  {
    var trip := [at] + rest;
    forall k | 0 <= k < |trip| - 1 ensures HopAt(hash, views, key, trip, k) {
      if k > 0 {
        assert HopAt(hash, views, key, rest, k - 1);
      }
    }
  }

  // ---------- exactly when forwarding terminates ----------

  ghost predicate TripBounded(hash: Hash, views: Views, key: string, trip: seq<ServerId>) {
    IsTrip(hash, views, key, trip) ==> |trip| <= |views.Keys| + 1
  }

  ghost predicate Terminates(hash: Hash, views: Views, key: string) {
    forall trip :: TripBounded(hash, views, key, trip)
  }

  /** The servers and what their views offer, all among the given ids. */
  ghost predicate Within(views: Views, ids: set<ServerId>) {
    views.Keys <= ids && forall at :: at in views ==> HealthyIds(views[at]) <= ids
  }

  /** Two servers that pick each other forward a request back and forth for ever. */
  lemma TwoLoop(hash: Hash, views: Views, key: string, a: ServerId, b: ServerId)
    requires CanRoute(views, a) && CanRoute(views, b) && a != b && views.Keys == {a, b}
    requires NextHop(hash, views, key, a) == b && NextHop(hash, views, key, b) == a
    ensures !Terminates(hash, views, key)
  {
    var trip := [a, b, a, b];
    assert HopAt(hash, views, key, trip, 0) && HopAt(hash, views, key, trip, 1)
        && HopAt(hash, views, key, trip, 2);
    assert !TripBounded(hash, views, key, trip);
  }

  /** With a tie and views in different orders that happens. */
  lemma TiesCanLoop(hash: Hash, key: string, a: NodeInfo, b: NodeInfo)
    requires a.healthy && b.healthy && a.id != b.id
    requires Score(hash, key, a.id) == Score(hash, key, b.id)
    ensures var views: Views := map[a.id := [b, a], b.id := [a, b]];
            && Sane(views) && CanRoute(views, a.id) && CanRoute(views, b.id)
            && NextHop(hash, views, key, a.id) == b.id && NextHop(hash, views, key, b.id) == a.id
            && !Terminates(hash, views, key)
  {
    var views: Views := map[a.id := [b, a], b.id := [a, b]];
    assert views[a.id][1].id == a.id && views[b.id][1].id == b.id;
    assert KnowsItself(views, a.id) && KnowsItself(views, b.id);
    PickUnique(hash, [b, a], key, 0);
    PickUnique(hash, [a, b], key, 0);
    TwoLoop(hash, views, key, a.id, b.id);
  }

  lemma TieFreeTerminates(hash: Hash, views: Views, key: string, ids: set<ServerId>)
    requires Sane(views) && Within(views, ids) && NoTies(hash, key, ids)
    ensures Terminates(hash, views, key)
  {
    var rank := id => 0;
    NoTiesRanked(hash, views, key, ids, rank);
    forall trip | IsTrip(hash, views, key, trip) ensures |trip| <= |views.Keys| + 1 {
      TripsEnd(hash, views, key, rank, trip);
    }
  }

  /** Forwarding of a key terminates for all views in which the servers know themselves if and
      only if no two of the ids tie for it. */
  lemma TerminatesIffNoTies(hash: Hash, key: string, ids: set<ServerId>)
    ensures (forall views :: Sane(views) && Within(views, ids) ==> Terminates(hash, views, key))
       <==> NoTies(hash, key, ids)
  {
    if NoTies(hash, key, ids) {
      forall views | Sane(views) && Within(views, ids) ensures Terminates(hash, views, key) {
        TieFreeTerminates(hash, views, key, ids);
      }
    } else {
      var a, b :| a in ids && b in ids && a != b && Score(hash, key, a) == Score(hash, key, b);
      var nodeA, nodeB := NodeInfo(a, "", 0, true), NodeInfo(b, "", 0, true);
      TiesCanLoop(hash, key, nodeA, nodeB);
      var views: Views := map[a := [nodeB, nodeA], b := [nodeA, nodeB]];
      assert Within(views, ids);
    }
  }

  /** A number for every string, none twice. */
  ghost function Code(s: string): nat {
    if s == [] then 0 else s[0] as int + 1 + 0x11_0001 * Code(s[1..])
  }

  lemma {:induction false} CodeInjective(a: string, b: string)
    requires Code(a) == Code(b)
    ensures a == b
  {
    if a == [] || b == [] {
    } else {
      DigitsEqual(a[0] as int + 1, Code(a[1..]), b[0] as int + 1, Code(b[1..]));
      CodeInjective(a[1..], b[1..]);
      assert a == [a[0]] + a[1..] && b == [b[0]] + b[1..];
    }
  }

  lemma DigitsEqual(d: nat, q: nat, e: nat, r: nat)
    requires d < 0x11_0001 && e < 0x11_0001 && d + 0x11_0001 * q == e + 0x11_0001 * r
    ensures d == e && q == r
  {
  }

  /** Even hashes without collisions, but for one string an odd one just above the hash of another
      string. */
  ghost function Raised(low: string, high: string): Hash {
    s => if s == high then 2 * Code(low) + 1 else 2 * Code(s)
  }

  lemma RaisedHasNoTies(key: string, low: ServerId, high: ServerId, ids: set<ServerId>)
    ensures NoTies(Raised(key + "#" + low, key + "#" + high), key, ids)
  {
    var hash := Raised(key + "#" + low, key + "#" + high);
    forall a, b | a in ids && b in ids && Score(hash, key, a) == Score(hash, key, b)
      ensures a == b
    {
      var sa, sb := key + "#" + a, key + "#" + b;
      if sa != key + "#" + high && sb != key + "#" + high {
        CodeInjective(sa, sb);
      }
      assert sa == sb;
      SameSuffix(key + "#", a, b);
    }
  }

  lemma SameSuffix(start: string, a: string, b: string)
    requires start + a == start + b
    ensures a == b
  {
    assert a == (start + a)[|start|..] && b == (start + b)[|start|..];
  }

  /** With this view at server `at`, forwarding of the key terminates whatever the hash, as long as
      there are no ties and the other servers know themselves. */
  ghost predicate SafeView(at: ServerId, view: seq<NodeInfo>, key: string) {
    forall hash: Hash, views: Views, ids: set<ServerId> ::
      FitsView(hash, views, key, ids, at, view) ==> Terminates(hash, views, key)
  }

  ghost predicate FitsView(hash: Hash, views: Views, key: string, ids: set<ServerId>, at: ServerId,
                           view: seq<NodeInfo>) {
    && at in views && views[at] == view
    && Within(views, ids) && NoTies(hash, key, ids)
    && forall other :: other in views && other != at ==> KnowsItself(views, other)
  }

  /** A view that offers some node is safe if and only if the server knows itself in it. */
  lemma SafeViewIff(at: ServerId, view: seq<NodeInfo>, key: string)
    requires HasHealthy(view)
    ensures SafeView(at, view, key) <==> Knows(view, at)
  {
    if Knows(view, at) {
      forall hash: Hash, views, ids | FitsView(hash, views, key, ids, at, view)
        ensures Terminates(hash, views, key)
      {
        assert Sane(views);
        TieFreeTerminates(hash, views, key, ids);
      }
    } else {
      UnknownCanLoop(at, view, key);
    }
  }

  /** A server that is missing from its own view picks another one; the hash can be such that this
      one prefers the missing server. */
  lemma UnknownCanLoop(at: ServerId, view: seq<NodeInfo>, key: string)
    requires HasHealthy(view) && !Knows(view, at)
    ensures !SafeView(at, view, key)
  {
    var hash, x := PrefersMissing(at, view, key);
    LoopsBack(hash, at, view, key, x);
  }

  lemma PrefersMissing(at: ServerId, view: seq<NodeInfo>, key: string)
    returns (hash: Hash, x: ServerId)
    requires HasHealthy(view) && !Knows(view, at)
    ensures x != at && x in HealthyIds(view) && Pick(hash, view, key).id == x
    ensures Score(hash, key, x) < Score(hash, key, at)
    ensures forall ids :: NoTies(hash, key, ids)
  {
    var even: Hash := s => 2 * Code(s);
    var p := PickIndex(even, view, key);
    assert IsPick(even, view, key, p);
    x := view[p].id;
    assert view[p] in view && x != at;
    hash := Raised(key + "#" + x, key + "#" + at);
    forall id | id != at ensures Score(hash, key, id) == Score(even, key, id) {
      if key + "#" + id == key + "#" + at {
        SameSuffix(key + "#", id, at);
      }
    }
    RaisedKeepsPick(even, hash, view, key, p, at);
    forall ids ensures NoTies(hash, key, ids) {
      RaisedHasNoTies(key, x, at, ids);
    }
  }

  lemma LoopsBack(hash: Hash, at: ServerId, view: seq<NodeInfo>, key: string, x: ServerId)
    requires HasHealthy(view) && x != at && x in HealthyIds(view) && Pick(hash, view, key).id == x
    requires Score(hash, key, x) < Score(hash, key, at)
    requires forall ids :: NoTies(hash, key, ids)
    ensures !SafeView(at, view, key)
  {
    var back := [NodeInfo(x, "", 0, true), NodeInfo(at, "", 0, true)];
    var views: Views := map[at := view, x := back];
    var ids := {at} + HealthyIds(view) + HealthyIds(back);
    BackFits(hash, views, key, ids, at, view, x, back);
    PicksCross(hash, views, key, at, view, x, back);
  }

  lemma PicksCross(hash: Hash, views: Views, key: string, at: ServerId, view: seq<NodeInfo>,
                   x: ServerId, back: seq<NodeInfo>)
    requires x != at && HasHealthy(view) && Pick(hash, view, key).id == x
    requires back == [NodeInfo(x, "", 0, true), NodeInfo(at, "", 0, true)]
    requires Score(hash, key, x) < Score(hash, key, at)
    requires views == map[at := view, x := back]
    ensures !Terminates(hash, views, key)
  {
    HigherIsPicked(hash, key, back, at);
    TwoLoop(hash, views, key, at, x);
  }

  lemma BackFits(hash: Hash, views: Views, key: string, ids: set<ServerId>, at: ServerId,
                 view: seq<NodeInfo>, x: ServerId, back: seq<NodeInfo>)
    requires x != at && x in HealthyIds(view) && NoTies(hash, key, ids)
    requires |back| > 0 && back[0].healthy && back[0].id == x
    requires views == map[at := view, x := back]
    requires ids == {at} + HealthyIds(view) + HealthyIds(back)
    ensures FitsView(hash, views, key, ids, at, view)
  {
    assert Knows(back, x);
  }

  lemma RaisedKeepsPick(even: Hash, hash: Hash, view: seq<NodeInfo>, key: string, p: nat,
                        at: ServerId)
    requires IsPick(even, view, key, p) && !Knows(view, at)
    requires forall id :: id != at ==> Score(hash, key, id) == Score(even, key, id)
    ensures HasHealthy(view) && PickIndex(hash, view, key) == p
  {
    forall j | 0 <= j < |view| && view[j].healthy
      ensures Score(hash, key, view[j].id) == Score(even, key, view[j].id)
    {
      assert view[j].id != at;
    }
    PickUnique(hash, view, key, p);
  }

  lemma HigherIsPicked(hash: Hash, key: string, back: seq<NodeInfo>, at: ServerId)
    requires |back| == 2 && back[0].healthy && back[1].healthy && back[1].id == at
    requires Score(hash, key, back[0].id) < Score(hash, key, at)
    ensures HasHealthy(back) && Pick(hash, back, key).id == at
  {
    PickUnique(hash, back, key, 1);
  }

  // ---------- agreeing servers ----------

  ghost predicate Agree(views: Views, ids: set<string>) {
    && ids == views.Keys && ids != {}
    && Sane(views)
    && forall at :: at in views ==> HealthyIds(views[at]) == ids
  }

  /** Servers that agree on the healthy set, without ties, send a key to one and the same
      server, which serves it: at most one hop from anywhere. */
  lemma OneHop(hash: Hash, views: Views, key: string, ids: set<string>, a: ServerId, b: ServerId)
    requires Agree(views, ids) && NoTies(hash, key, ids) && a in views && b in views
    ensures CanRoute(views, a) && CanRoute(views, b)
    ensures NextHop(hash, views, key, a) == NextHop(hash, views, key, b)
    ensures var owner := NextHop(hash, views, key, a);
            owner in views && CanRoute(views, owner) && NextHop(hash, views, key, owner) == owner
  {
    assert KnowsItself(views, a) && KnowsItself(views, b);
    assert HasHealthy(views[a]) && HasHealthy(views[b]);
    PickIgnoresOrder(hash, views[a], views[b], key);
    PickIsHealthy(hash, views[a], key);
    var owner := NextHop(hash, views, key, a);
    assert owner in ids && KnowsItself(views, owner) && HasHealthy(views[owner]);
    PickIgnoresOrder(hash, views[a], views[owner], key);
  }

  /** What a server answers to a STORE: where to forward it, and its own store afterwards. */
  ghost function StoreStep(hash: Hash, view: seq<NodeInfo>, id: ServerId, store: Store, key: string,
                           value: string): (Option<ServerId>, Store)
    requires HasHealthy(view)
  {
    var picked := Pick(hash, view, key).id;
    if picked != id then (Some(picked), store) else (None, store[key := value])
  }

  /** What it answers to a GET: where to forward it, or the value it has. */
  ghost function GetStep(hash: Hash, view: seq<NodeInfo>, id: ServerId, store: Store, key: string)
    : (Option<ServerId>, Option<string>)
    requires HasHealthy(view)
  {
    var picked := Pick(hash, view, key).id;
    if picked != id then (Some(picked), None)
    else (None, if key in store then Some(store[key]) else None)
  }

  /** The server that scores highest for the key, and first among equals, serves it: a put is seen by
      the next lookup there and leaves other keys alone, and every other server changes nothing
      and names that one. */
  lemma PickedServes(hash: Hash, view: seq<NodeInfo>, id: ServerId, store: Store, key: string,
                     value: string, i: nat)
    requires IsPick(hash, view, key, i)
    ensures HasHealthy(view)
    ensures var (forwardTo, store') := StoreStep(hash, view, id, store, key, value);
            if view[i].id == id then
              && forwardTo == None && key in store' && store'[key] == value
              && GetStep(hash, view, id, store', key) == (None, Some(value))
              && store' - {key} == store - {key}
            else
              && forwardTo == Some(view[i].id) && store' == store
              && GetStep(hash, view, id, store, key) == (Some(view[i].id), None)
    ensures view[i].id == id && key !in store ==>
              GetStep(hash, view, id, store, key) == (None, None)
  {
    PickUnique(hash, view, key, i);
  }

  /** A server with its router and its own store. */
  class Server {
    const id: ServerId
    const router: ShardRouter
    var store: Store

    constructor (id: ServerId, router: ShardRouter)
      ensures this.id == id && this.router == router && store == map[]
    {
      this.id := id;
      this.router := router;
      store := map[];
    }

    /** Store locally when the router picks this server, otherwise say where to forward. */
    method HandleStore(imageId: string, value: string) returns (forwardTo: Option<ServerId>)
      requires HasHealthy(router.nodes)
      modifies this`store
      ensures (forwardTo, store)
           == StoreStep(router.hash, router.nodes, id, old(store), imageId, value)
    {
      var node := router.PickNode(imageId);
      if node.id != id {
        return Some(node.id);
      }
      store := store[imageId := value];
      return None;
    }

    /** Answer from the local store when the router picks this server. */
    method HandleGet(imageId: string) returns (forwardTo: Option<ServerId>, value: Option<string>)
      requires HasHealthy(router.nodes)
      ensures (forwardTo, value) == GetStep(router.hash, router.nodes, id, store, imageId)
    {
      var node := router.PickNode(imageId);
      if node.id != id {
        return Some(node.id), None;
      }
      value := if imageId in store then Some(store[imageId]) else None;
      forwardTo := None;
    }
  }

  /** The stores of all servers. */
  type Stores = map<ServerId, Store>

  /** A STORE that enters at `at` and goes through: the put happens where the trip ends. */
  ghost function StoreAt(hash: Hash, views: Views, rank: ServerId -> nat, stores: Stores,
                         at: ServerId, key: string, value: string): Stores
    requires Sane(views) && TiesRanked(hash, views, key, rank)
  {
    var trip := Trip(hash, views, key, rank, at);
    var last := trip[|trip| - 1];
    if last in stores then stores[last := stores[last][key := value]] else stores
  }

  ghost function GetAt(hash: Hash, views: Views, rank: ServerId -> nat, stores: Stores,
                       at: ServerId, key: string): Option<string>
    requires Sane(views) && TiesRanked(hash, views, key, rank)
  {
    var trip := Trip(hash, views, key, rank, at);
    var last := trip[|trip| - 1];
    if last in stores && key in stores[last] then Some(stores[last][key]) else None
  }

  /** The same by the servers' own answers: each handles the request or hands it on. */
  ghost function HandStore(hash: Hash, views: Views, rank: ServerId -> nat, stores: Stores,
                           at: ServerId, key: string, value: string): Stores
    requires Sane(views) && TiesRanked(hash, views, key, rank) && stores.Keys == views.Keys
    decreases BetterServers(hash, views, key, rank, at)
  {
    if at !in views then stores
    else
      HopImproves(hash, views, key, rank, at);
      var (forwardTo, store) := StoreStep(hash, views[at], at, stores[at], key, value);
      match forwardTo
      case None => stores[at := store]
      case Some(next) =>
        if next !in views then stores
        else
          FewerBetter(hash, views, key, rank, at, next);
          HandStore(hash, views, rank, stores, next, key, value)
  }

  ghost function HandGet(hash: Hash, views: Views, rank: ServerId -> nat, stores: Stores,
                         at: ServerId, key: string): Option<string>
    requires Sane(views) && TiesRanked(hash, views, key, rank) && stores.Keys == views.Keys
    decreases BetterServers(hash, views, key, rank, at)
  {
    if at !in views then None
    else
      HopImproves(hash, views, key, rank, at);
      var (forwardTo, value) := GetStep(hash, views[at], at, stores[at], key);
      match forwardTo
      case None => value
      case Some(next) =>
        if next !in views then None
        else
          FewerBetter(hash, views, key, rank, at, next);
          HandGet(hash, views, rank, stores, next, key)
  }

  /** The handlers store and answer exactly where the trip ends. */
  lemma {:induction false} HandlersFollowTrip(hash: Hash, views: Views, rank: ServerId -> nat,
                                              stores: Stores, at: ServerId, key: string,
                                              value: string)
    requires Sane(views) && TiesRanked(hash, views, key, rank) && stores.Keys == views.Keys
    ensures HandStore(hash, views, rank, stores, at, key, value)
         == StoreAt(hash, views, rank, stores, at, key, value)
    ensures HandGet(hash, views, rank, stores, at, key)
         == GetAt(hash, views, rank, stores, at, key)
    decreases BetterServers(hash, views, key, rank, at)
  {
    if at in views {
      HopImproves(hash, views, key, rank, at);
      var next := NextHop(hash, views, key, at);
      if next != at && next in views {
        FewerBetter(hash, views, key, rank, at, next);
        HandlersFollowTrip(hash, views, rank, stores, next, key, value);
        var rest := Trip(hash, views, key, rank, next);
        assert Trip(hash, views, key, rank, at) == [at] + rest;
        TripIsTrip(hash, views, key, rank, next);
        assert ([at] + rest)[|rest|] == rest[|rest| - 1];
      }
    }
  }

  lemma NoTiesRanked(hash: Hash, views: Views, key: string, ids: set<string>, rank: ServerId -> nat)
    requires NoTies(hash, key, ids) && forall at :: at in views ==> HealthyIds(views[at]) <= ids
    ensures TiesRanked(hash, views, key, rank)
  {
    forall at | at in views ensures ViewRanked(hash, views[at], key, rank) {
      ViewWithoutTies(hash, views[at], key, ids, rank);
    }
  }

  lemma ViewWithoutTies(hash: Hash, view: seq<NodeInfo>, key: string, ids: set<string>,
                        rank: ServerId -> nat)
    requires NoTies(hash, key, ids) && HealthyIds(view) <= ids
    ensures ViewRanked(hash, view, key, rank)
  {
    forall i, j |
      0 <= i < j < |view| && view[i].healthy && view[j].healthy && view[i].id != view[j].id
      ensures Score(hash, key, view[i].id) != Score(hash, key, view[j].id)
    {
      assert view[i] in view && view[j] in view;
      assert view[i].id in HealthyIds(view) && view[j].id in HealthyIds(view);
    }
  }

  lemma TripToOwner(hash: Hash, views: Views, key: string, rank: ServerId -> nat, at: ServerId,
                    owner: ServerId)
    requires Sane(views) && TiesRanked(hash, views, key, rank)
    requires at in views && owner in views
    requires NextHop(hash, views, key, at) == owner && NextHop(hash, views, key, owner) == owner
    ensures Trip(hash, views, key, rank, at) == if owner == at then [at] else [at, owner]
  {
    assert Trip(hash, views, key, rank, owner) == [owner];
  }

  /** Read your write through any doors: with agreeing servers a value stored through one server
      is what a GET through any other returns. */
  lemma StoreThenGet(hash: Hash, views: Views, ids: set<string>, rank: ServerId -> nat,
                     stores: Stores, a: ServerId, b: ServerId, key: string, value: string)
    requires Agree(views, ids) && NoTies(hash, key, ids) && stores.Keys == views.Keys
    requires a in views && b in views
    ensures TiesRanked(hash, views, key, rank)
    ensures GetAt(hash, views, rank, StoreAt(hash, views, rank, stores, a, key, value), b, key)
         == Some(value)
  {
    NoTiesRanked(hash, views, key, ids, rank);
    OneHop(hash, views, key, ids, a, b);
    var owner := NextHop(hash, views, key, a);
    OwnerServes(hash, views, rank, stores, a, b, owner, key, value);
  }

  lemma OwnerServes(hash: Hash, views: Views, rank: ServerId -> nat, stores: Stores, a: ServerId,
                    b: ServerId, owner: ServerId, key: string, value: string)
    requires Sane(views) && TiesRanked(hash, views, key, rank)
    requires a in views && b in views && owner in views && owner in stores
    requires NextHop(hash, views, key, a) == owner && NextHop(hash, views, key, b) == owner
    requires NextHop(hash, views, key, owner) == owner
    ensures GetAt(hash, views, rank, StoreAt(hash, views, rank, stores, a, key, value), b, key)
         == Some(value)
  {
    TripToOwner(hash, views, key, rank, a, owner);
    TripToOwner(hash, views, key, rank, b, owner);
  }

  // ---------- how a server builds its view ----------

  /** The constructor's loop: the server itself counts as healthy, other nodes as their health
      check says; unhealthy and repeated nodes are left out. */
  ghost function BuiltView(self: ServerId, config: seq<NodeInfo>, checks: seq<bool>): seq<NodeInfo>
    requires |config| == |checks|
  {
    if config == [] then []
    else
      var n := |config| - 1;
      var before := BuiltView(self, config[..n], checks[..n]);
      var node := config[n].(healthy := config[n].id == self || checks[n]);
      if node.healthy then Inserted(before, node) else before
  }

  method BuildRouter(self: ServerId, hash: Hash, config: seq<NodeInfo>, checks: seq<bool>)
    returns (router: ShardRouter)
    requires |config| == |checks|
    ensures fresh(router) && router.hash == hash && router.nodes == BuiltView(self, config, checks)
  {
    router := new ShardRouter(hash, []);
    var i := 0;
    while i < |config|
      invariant i <= |config| && fresh(router) && router.hash == hash
      invariant router.nodes == BuiltView(self, config[..i], checks[..i])
    {
      assert config[..i + 1][..i] == config[..i] && checks[..i + 1][..i] == checks[..i];
      var node := config[i];
      if self == node.id {
        node := node.(healthy := true);
      } else {
        node := node.(healthy := checks[i]);
      }
      if node.healthy {
        var inserted := router.InsertNode(node);
      }
      i := i + 1;
    }
    assert config[..i] == config && checks[..i] == checks;
  }

  /** The view has distinct ids, only healthy nodes, and the server itself if it is in its own
      configuration. */
  lemma {:induction false} BuiltViewIsSane(self: ServerId, config: seq<NodeInfo>, checks: seq<bool>)
    requires |config| == |checks|
    ensures var view := BuiltView(self, config, checks);
            && DistinctIds(view)
            && (forall i :: 0 <= i < |view| ==> view[i].healthy && HasId(config, view[i].id))
            && (HasId(config, self) ==> HasId(view, self))
  {
    if config != [] {
      var n := |config| - 1;
      BuiltViewIsSane(self, config[..n], checks[..n]);
      var before := BuiltView(self, config[..n], checks[..n]);
      var node := config[n].(healthy := config[n].id == self || checks[n]);
      var view := BuiltView(self, config, checks);
      assert node.healthy && !HasId(before, node.id) ==> view == before + [node];
      forall i | 0 <= i < |view| ensures view[i].healthy && HasId(config, view[i].id) {
        if i < |before| {
          var k :| 0 <= k < n && config[..n][k].id == before[i].id;
          assert config[k].id == view[i].id;
        } else {
          assert config[n].id == view[i].id;
        }
      }
      if HasId(config, self) {
        ViewHasSelf(self, config, before, node, view);
      }
    }
  }

  /** Entry i of the node list is the server itself or passed its check. */
  ghost predicate Passes(self: ServerId, config: seq<NodeInfo>, checks: seq<bool>, i: nat)
    requires |config| == |checks|
  {
    i < |config| && (config[i].id == self || checks[i])
  }

  /** The node is the first entry of its id that passes, marked healthy. */
  ghost predicate FirstPassing(self: ServerId, config: seq<NodeInfo>, checks: seq<bool>, i: nat,
                               node: NodeInfo)
    requires |config| == |checks|
  {
    && Passes(self, config, checks, i) && node == config[i].(healthy := true)
    && forall k :: 0 <= k < i && config[k].id == node.id ==> !Passes(self, config, checks, k)
  }

  ghost predicate Listed(self: ServerId, config: seq<NodeInfo>, checks: seq<bool>, node: NodeInfo)
    requires |config| == |checks|
  {
    exists i: nat :: FirstPassing(self, config, checks, i, node)
  }

  /** The view holds exactly the listed nodes that are the server itself or passed their check, each
      id once, as it first passed. */
  lemma {:induction false} BuiltViewHolds(self: ServerId, config: seq<NodeInfo>, checks: seq<bool>,
                                          node: NodeInfo)
    requires |config| == |checks|
    ensures node in BuiltView(self, config, checks) <==> Listed(self, config, checks, node)
  {
    if config != [] {
      var n := |config| - 1;
      var before, last := BuiltView(self, config[..n], checks[..n]), config[n].(healthy := true);
      BuiltViewHolds(self, config[..n], checks[..n], node);
      ListedSoFar(self, config, checks, node);
      if Passes(self, config, checks, n) {
        IdListedIff(self, config[..n], checks[..n], last.id);
        LastListed(self, config, checks);
      }
    }
  }

  /** An id is in the view if and only if some entry with it is the server itself or passed. */
  lemma {:induction false} IdListedIff(self: ServerId, config: seq<NodeInfo>, checks: seq<bool>,
                                       id: string)
    requires |config| == |checks|
    ensures HasId(BuiltView(self, config, checks), id)
       <==> SomePasses(self, config, checks, id)
  {
    var view := BuiltView(self, config, checks);
    if config != [] {
      var n := |config| - 1;
      var before := BuiltView(self, config[..n], checks[..n]);
      IdListedIff(self, config[..n], checks[..n], id);
      SomePassesSoFar(self, config, checks, id);
      InsertedHas(before, config[n].(healthy := true), id);
      if Passes(self, config, checks, n) {
        assert view == Inserted(before, config[n].(healthy := true));
      }
    }
  }

  ghost predicate SomePasses(self: ServerId, config: seq<NodeInfo>, checks: seq<bool>, id: string)
    requires |config| == |checks|
  {
    exists i: nat :: Passes(self, config, checks, i) && config[i].id == id
  }

  lemma SomePassesSoFar(self: ServerId, config: seq<NodeInfo>, checks: seq<bool>, id: string)
    requires |config| == |checks| && config != []
    ensures var n := |config| - 1;
            SomePasses(self, config, checks, id)
            <==> SomePasses(self, config[..n], checks[..n], id)
                 || (Passes(self, config, checks, n) && config[n].id == id)
  {
    var n := |config| - 1;
    if i: nat :| Passes(self, config, checks, i) && config[i].id == id {
      assert i < n ==> Passes(self, config[..n], checks[..n], i) && config[..n][i].id == id;
    }
    if i: nat :| Passes(self, config[..n], checks[..n], i) && config[..n][i].id == id {
      assert Passes(self, config, checks, i) && config[i].id == id;
    }
  }

  lemma InsertedHas(nodes: seq<NodeInfo>, node: NodeInfo, id: string)
    ensures HasId(Inserted(nodes, node), id) <==> HasId(nodes, id) || id == node.id
  {
    var nodes' := Inserted(nodes, node);
    if i :| 0 <= i < |nodes| && nodes[i].id == id {
      assert nodes'[i].id == id;
    }
    if !HasId(nodes, node.id) {
      assert nodes'[|nodes|] == node;
    }
  }

  /** The entries before the last are listed as before. */
  lemma ListedSoFar(self: ServerId, config: seq<NodeInfo>, checks: seq<bool>, node: NodeInfo)
    requires |config| == |checks| && config != []
    ensures var n := |config| - 1;
            Listed(self, config, checks, node)
            <==> Listed(self, config[..n], checks[..n], node)
                 || FirstPassing(self, config, checks, n, node)
  {
    var n := |config| - 1;
    forall i: nat | i < n
      ensures FirstPassing(self, config, checks, i, node)
         <==> FirstPassing(self, config[..n], checks[..n], i, node)
    {
      forall k: nat | k <= i
        ensures Passes(self, config, checks, k) <==> Passes(self, config[..n], checks[..n], k)
      {
      }
    }
  }

  /** The last entry is listed by itself exactly when no earlier one with its id passed. */
  lemma LastListed(self: ServerId, config: seq<NodeInfo>, checks: seq<bool>)
    requires |config| == |checks| && config != [] && Passes(self, config, checks, |config| - 1)
    ensures var n := |config| - 1;
            FirstPassing(self, config, checks, n, config[n].(healthy := true))
            <==> !SomePasses(self, config[..n], checks[..n], config[n].id)
  {
    var n := |config| - 1;
    if SomePasses(self, config[..n], checks[..n], config[n].id) {
      var k: nat :| Passes(self, config[..n], checks[..n], k) && config[..n][k].id == config[n].id;
      assert Passes(self, config, checks, k) && config[k].id == config[n].id;
    }
    if !FirstPassing(self, config, checks, n, config[n].(healthy := true)) {
      var k: nat :| k < n && config[k].id == config[n].id && Passes(self, config, checks, k);
      assert Passes(self, config[..n], checks[..n], k) && config[..n][k].id == config[n].id;
    }
  }

  /** A server knows itself after start-up if and only if its own node list names it. */
  lemma KnowsItselfIffListed(self: ServerId, config: seq<NodeInfo>, checks: seq<bool>)
    requires |config| == |checks|
    ensures Knows(BuiltView(self, config, checks), self) <==> HasId(config, self)
  {
    BuiltViewIsSane(self, config, checks);
  }

  lemma ViewHasSelf(self: ServerId, config: seq<NodeInfo>, before: seq<NodeInfo>, node: NodeInfo,
                    view: seq<NodeInfo>)
    requires config != [] && HasId(config, self)
    requires HasId(config[..|config| - 1], self) ==> HasId(before, self)
    requires node.id == config[|config| - 1].id && (node.id == self ==> node.healthy)
    requires view == if node.healthy then Inserted(before, node) else before
    ensures HasId(view, self)
  {
    var n := |config| - 1;
    var k :| 0 <= k < |config| && config[k].id == self;
    if k < n {
      assert config[..n][k].id == self;
    }
    if HasId(before, self) {
      var j :| 0 <= j < |before| && before[j].id == self;
      assert view[j].id == self;
    } else {
      assert view[|view| - 1].id == self;
    }
  }

  /** The peers handed to the Raft node: every other node of the view, in order. */
  function PeerIds(self: ServerId, view: seq<NodeInfo>): seq<NodeId> {
    if view == [] then []
    else
      var before := PeerIds(self, view[..|view| - 1]);
      if view[|view| - 1].id != self then before + [view[|view| - 1].id] else before
  }

  lemma {:induction false} PeerIdsAre(self: ServerId, view: seq<NodeInfo>)
    requires DistinctIds(view)
    ensures Distinct(PeerIds(self, view))
    ensures forall id :: id in PeerIds(self, view) <==> id != self && HasId(view, id)
  {
    if view != [] {
      var n := |view| - 1;
      var before := view[..n];
      PeerIdsAre(self, before);
      forall id ensures HasId(view, id) <==> HasId(before, id) || id == view[n].id {
        if HasId(view, id) {
          var k :| 0 <= k < |view| && view[k].id == id;
          assert k < n ==> before[k].id == id;
        }
        if HasId(before, id) {
          var k :| 0 <= k < n && before[k].id == id;
          assert view[k].id == id;
        }
      }
      assert !HasId(before, view[n].id);
    }
  }

  /** When every check of another node fails, the server is alone: it serves every key itself, and
      its Raft node has no peers. */
  lemma {:induction false} FailedChecksLeaveAlone(self: ServerId, config: seq<NodeInfo>,
                                                  checks: seq<bool>)
    requires |config| == |checks|
    requires forall i :: 0 <= i < |config| && config[i].id != self ==> !checks[i]
    ensures var view := BuiltView(self, config, checks);
            && |view| <= 1 && (forall i :: 0 <= i < |view| ==> view[i].id == self)
            && PeerIds(self, view) == []
            && (HasId(config, self) ==>
                  HasHealthy(view) && forall hash, key :: Pick(hash, view, key).id == self)
  {
    var view := BuiltView(self, config, checks);
    OnlySelf(self, config, checks);
    BuiltViewIsSane(self, config, checks);
    if |view| == 1 {
      assert PeerIds(self, view[..0]) == [];
    }
    if HasId(config, self) {
      assert view[0].healthy;
      forall hash, key ensures Pick(hash, view, key).id == self {
        assert IsPick(hash, view, key, 0);
        PickUnique(hash, view, key, 0);
      }
    }
  }

  lemma {:induction false} OnlySelf(self: ServerId, config: seq<NodeInfo>, checks: seq<bool>)
    requires |config| == |checks|
    requires forall i :: 0 <= i < |config| && config[i].id != self ==> !checks[i]
    ensures var view := BuiltView(self, config, checks);
            |view| <= 1 && forall i :: 0 <= i < |view| ==> view[i].id == self
  {
    if config != [] {
      var n := |config| - 1;
      OnlySelf(self, config[..n], checks[..n]);
      var before := BuiltView(self, config[..n], checks[..n]);
      if before != [] {
        assert before[0].id == self && HasId(before, self);
      }
    }
  }

  /** Servers whose views have the same ids give the Raft cluster a valid membership. */
  lemma AgreeingViewsMakeACluster(views: Views, sendsEntries: bool, matchesReplies: bool)
    requires NO_VOTE !in views
    requires forall at :: at in views ==>
               DistinctIds(views[at]) && forall id :: HasId(views[at], id) <==> id in views
    ensures ValidConfig(Config(map at | at in views :: PeerIds(at, views[at]), sendsEntries,
                               matchesReplies))
  {
    var cfg := Config(map at | at in views :: PeerIds(at, views[at]), sendsEntries, matchesReplies);
    forall n | n in cfg.peers
      ensures Distinct(cfg.peers[n]) && SeqSet(cfg.peers[n]) == cfg.peers.Keys - {n}
    {
      PeerIdsAre(n, views[n]);
    }
  }

  // ---------- one node list, any health ----------

  /** The position at which the id first occurs in the node list. */
  ghost function Position(config: seq<NodeInfo>, id: string): nat {
    if config == [] then 0
    else if HasId(config[..|config| - 1], id) then Position(config[..|config| - 1], id)
    else |config| - 1
  }

  lemma {:induction false} PositionBelow(config: seq<NodeInfo>, id: string)
    requires HasId(config, id)
    ensures Position(config, id) < |config|
  {
    if config != [] && HasId(config[..|config| - 1], id) {
      PositionBelow(config[..|config| - 1], id);
    }
  }

  ghost predicate Before(config: seq<NodeInfo>, a: string, b: string) {
    Position(config, a) < Position(config, b)
  }

  ghost predicate Ascends(config: seq<NodeInfo>, view: seq<NodeInfo>) {
    forall i, j :: 0 <= i < j < |view| ==> Before(config, view[i].id, view[j].id)
  }

  /** A view lists its nodes in the order of the node list it was built from. */
  lemma {:induction false} BuiltViewAscends(self: ServerId, config: seq<NodeInfo>, checks: seq<bool>)
    requires |config| == |checks| && DistinctIds(config)
    ensures Ascends(config, BuiltView(self, config, checks))
  {
    if config != [] {
      var n := |config| - 1;
      BuiltViewAscends(self, config[..n], checks[..n]);
      BuiltViewIsSane(self, config[..n], checks[..n]);
      var before := BuiltView(self, config[..n], checks[..n]);
      forall i | 0 <= i < |before|
        ensures Position(config, before[i].id) == Position(config[..n], before[i].id) < n
      {
        PositionBelow(config[..n], before[i].id);
      }
      assert !HasId(config[..n], config[n].id);
      var view := BuiltView(self, config, checks);
      forall i, j | 0 <= i < j < |view| ensures Before(config, view[i].id, view[j].id) {
        if j < |before| {
          assert Before(config[..n], before[i].id, before[j].id);
        }
      }
    }
  }

  lemma BuiltViewRanked(hash: Hash, self: ServerId, config: seq<NodeInfo>, checks: seq<bool>,
                        key: string, rank: ServerId -> nat)
    requires |config| == |checks| && DistinctIds(config)
    requires forall id :: rank(id) == Position(config, id)
    ensures ViewRanked(hash, BuiltView(self, config, checks), key, rank)
  {
    var view := BuiltView(self, config, checks);
    BuiltViewAscends(self, config, checks);
    forall i, j | 0 <= i < j < |view| ensures rank(view[i].id) < rank(view[j].id) {
      assert Before(config, view[i].id, view[j].id);
    }
  }

  ghost predicate SharedList(views: Views, config: seq<NodeInfo>) {
    forall at :: at in views ==>
      && HasId(config, at)
      && exists checks :: |checks| == |config| && views[at] == BuiltView(at, config, checks)
  }

  /** Servers that start from one node list rank ties alike, whatever their health checks say;
      so forwarding between them terminates even when scores tie. */
  lemma SharedListTerminates(hash: Hash, views: Views, key: string, config: seq<NodeInfo>,
                             trip: seq<ServerId>)
    requires SharedList(views, config) && DistinctIds(config)
    requires IsTrip(hash, views, key, trip)
    ensures Sane(views)
    ensures Distinct(trip) && |trip| <= |views.Keys| + 1
  {
    forall at | at in views ensures KnowsItself(views, at) {
      var checks :| |checks| == |config| && views[at] == BuiltView(at, config, checks);
      BuiltViewIsSane(at, config, checks);
    }
    var rank := id => Position(config, id);
    forall at | at in views ensures ViewRanked(hash, views[at], key, rank) {
      var checks :| |checks| == |config| && views[at] == BuiltView(at, config, checks);
      BuiltViewRanked(hash, at, config, checks, key, rank);
    }
    TripsEnd(hash, views, key, rank, trip);
  }
}
