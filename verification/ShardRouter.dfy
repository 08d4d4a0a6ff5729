/** Rendezvous routing (src/cluster/ShardRouter.cpp). The hash is any function on strings. */
module ShardRouting {
  import opened RaftTypes

  datatype NodeInfo = NodeInfo(id: string, host: string, port: int, healthy: bool)

  type Hash = string -> nat

  function Score(hash: Hash, key: string, id: string): nat {
    hash(key + "#" + id)
  }

  ghost predicate HasHealthy(nodes: seq<NodeInfo>) {
    exists i :: 0 <= i < |nodes| && nodes[i].healthy
  }

  /** Position i is the pick: healthy, with the highest score among the healthy nodes, and the
      first of those that share it. */
  ghost predicate IsPick(hash: Hash, nodes: seq<NodeInfo>, key: string, i: nat) {
    && i < |nodes| && nodes[i].healthy
    && forall j :: 0 <= j < |nodes| && nodes[j].healthy ==>
         && Score(hash, key, nodes[j].id) <= Score(hash, key, nodes[i].id)
         && (j < i ==> Score(hash, key, nodes[j].id) < Score(hash, key, nodes[i].id))
  }

  /** The position of the pick, -1 when no node is healthy. */
  function PickIndex(hash: Hash, nodes: seq<NodeInfo>, key: string): (i: int)
    ensures HasHealthy(nodes) ==> i >= 0 && IsPick(hash, nodes, key, i)
    ensures !HasHealthy(nodes) ==> i == -1
  {
    if nodes == [] then -1
    else
      var n := |nodes| - 1;
      var before := PickIndex(hash, nodes[..n], key);
      assert forall j :: 0 <= j < n ==> nodes[..n][j] == nodes[j];
      if nodes[n].healthy
         && (before < 0 || Score(hash, key, nodes[n].id) > Score(hash, key, nodes[before].id))
      then n else before
  }

  ghost function Pick(hash: Hash, nodes: seq<NodeInfo>, key: string): NodeInfo
    requires HasHealthy(nodes)
  {
    nodes[PickIndex(hash, nodes, key)]
  }

  lemma PickUnique(hash: Hash, nodes: seq<NodeInfo>, key: string, i: nat)
    requires IsPick(hash, nodes, key, i)
    ensures HasHealthy(nodes) && PickIndex(hash, nodes, key) == i
  {
    var p := PickIndex(hash, nodes, key);
    assert IsPick(hash, nodes, key, p);
    assert nodes[p].healthy && nodes[i].healthy;
  }

  ghost predicate DistinctIds(nodes: seq<NodeInfo>) {
    forall i, j :: 0 <= i < j < |nodes| ==> nodes[i].id != nodes[j].id
  }

  class ShardRouter {
    const hash: Hash
    var nodes: seq<NodeInfo>

    constructor (hash: Hash, nodes: seq<NodeInfo>)
      ensures this.hash == hash && this.nodes == nodes
    {
      this.hash := hash;
      this.nodes := nodes;
    }

    method PickNode(key: string) returns (node: NodeInfo)
      requires HasHealthy(nodes)
      ensures node == Pick(hash, nodes, key)
    {
      var bestScore := 0;
      var best := -1;
      var i := 0;
      while i < |nodes|
        invariant i <= |nodes|
        invariant best == PickIndex(hash, nodes[..i], key) < i
        invariant best >= 0 ==> bestScore == Score(hash, key, nodes[best].id)
      {
        assert nodes[..i + 1][..i] == nodes[..i];
        if nodes[i].healthy {
          var score := Score(hash, key, nodes[i].id);
          if best < 0 || score > bestScore {
            bestScore := score;
            best := i;
          }
        }
        i := i + 1;
      }
      assert nodes[..i] == nodes;
      node := nodes[best];
    }

    method InsertNode(node: NodeInfo) returns (inserted: bool)
      modifies this
      ensures nodes == Inserted(old(nodes), node)
      ensures inserted <==> |nodes| == |old(nodes)| + 1
    {
      var i := 0;
      while i < |nodes|
        invariant i <= |nodes|
        invariant forall j :: 0 <= j < i ==> nodes[j].id != node.id
      {
        if nodes[i].id == node.id {
          return false;
        }
        i := i + 1;
      }
      nodes := nodes + [node];
      return true;
    }
  }

  ghost predicate HasId(nodes: seq<NodeInfo>, id: string) {
    exists i :: 0 <= i < |nodes| && nodes[i].id == id
  }

  ghost function Inserted(nodes: seq<NodeInfo>, node: NodeInfo): seq<NodeInfo> {
    if HasId(nodes, node.id) then nodes else nodes + [node]
  }

  /** Minimal disruption of joining: ids stay unique, and the pick is the old one unless the
      newcomer is healthy and scores strictly higher. */
  lemma JoinMovesOnlyToNewcomer(hash: Hash, nodes: seq<NodeInfo>, key: string, node: NodeInfo)
    requires DistinctIds(nodes) && HasHealthy(nodes)
    ensures DistinctIds(Inserted(nodes, node)) && HasHealthy(Inserted(nodes, node))
    ensures var was := Pick(hash, nodes, key);
            Pick(hash, Inserted(nodes, node), key)
            == if !HasId(nodes, node.id) && node.healthy
                  && Score(hash, key, node.id) > Score(hash, key, was.id)
               then node else was
  {
    var after := Inserted(nodes, node);
    if !HasId(nodes, node.id) {
      assert after[..|nodes|] == nodes;
      var h :| 0 <= h < |nodes| && nodes[h].healthy;
      assert after[h].healthy;
      assert PickIndex(hash, nodes, key) >= 0;
    }
  }

  ghost function Without(nodes: seq<NodeInfo>, r: nat): seq<NodeInfo>
    requires r < |nodes|
  {
    nodes[..r] + nodes[r + 1..]
  }

  /** Minimal disruption of leaving: dropping a node moves only the keys that it owned. */
  lemma LeaveMovesOnlyOwnKeys(hash: Hash, nodes: seq<NodeInfo>, key: string, r: nat)
    requires r < |nodes| && HasHealthy(nodes) && PickIndex(hash, nodes, key) != r
    ensures HasHealthy(Without(nodes, r))
    ensures Pick(hash, Without(nodes, r), key) == Pick(hash, nodes, key)
  {
    var p := PickIndex(hash, nodes, key);
    var rest := Without(nodes, r);
    var p' := if p < r then p else p - 1;
    WithoutKeepsBest(hash, nodes, key, r, p, p');
    PickUnique(hash, rest, key, p');
  }

  lemma WithoutKeepsBest(hash: Hash, nodes: seq<NodeInfo>, key: string, r: nat, p: nat, p': nat)
    requires r < |nodes| && IsPick(hash, nodes, key, p) && p != r
    requires p' == if p < r then p else p - 1
    ensures IsPick(hash, Without(nodes, r), key, p') && Without(nodes, r)[p'] == nodes[p]
  {
    var rest := Without(nodes, r);
    assert rest[p'] == nodes[p];
    forall j | 0 <= j < |rest| && rest[j].healthy
      ensures Score(hash, key, rest[j].id) <= Score(hash, key, nodes[p].id)
      ensures j < p' ==> Score(hash, key, rest[j].id) < Score(hash, key, nodes[p].id)
    {
      var k := if j < r then j else j + 1;
      assert rest[j] == nodes[k];
    }
  }

  // ---------- agreement ----------

  ghost function HealthyIds(nodes: seq<NodeInfo>): set<string> {
    set n | n in nodes && n.healthy :: n.id
  }

  ghost predicate NoTies(hash: Hash, key: string, ids: set<string>) {
    forall a, b :: a in ids && b in ids && a != b ==> Score(hash, key, a) != Score(hash, key, b)
  }

  lemma PickIsHealthy(hash: Hash, nodes: seq<NodeInfo>, key: string)
    requires HasHealthy(nodes)
    ensures Pick(hash, nodes, key).id in HealthyIds(nodes)
    ensures forall id :: id in HealthyIds(nodes) ==>
              Score(hash, key, id) <= Score(hash, key, Pick(hash, nodes, key).id)
  {
    var p := PickIndex(hash, nodes, key);
    assert IsPick(hash, nodes, key, p) && nodes[p] in nodes;
    forall id | id in HealthyIds(nodes)
      ensures Score(hash, key, id) <= Score(hash, key, nodes[p].id)
    {
      var n :| n in nodes && n.healthy && n.id == id;
      var j :| 0 <= j < |nodes| && nodes[j] == n;
    }
  }

  /** Without ties the order of the list is irrelevant: routers that agree on the healthy ids
      agree on the pick. */
  lemma PickIgnoresOrder(hash: Hash, a: seq<NodeInfo>, b: seq<NodeInfo>, key: string)
    requires HasHealthy(a) && HealthyIds(a) == HealthyIds(b)
    requires NoTies(hash, key, HealthyIds(a))
    ensures HasHealthy(b) && Pick(hash, a, key).id == Pick(hash, b, key).id
  {
    PickIsHealthy(hash, a, key);
    var n :| n in b && n.healthy && n.id == Pick(hash, a, key).id;
    var j :| 0 <= j < |b| && b[j] == n;
    assert HasHealthy(b);
    PickIsHealthy(hash, b, key);
  }
}
