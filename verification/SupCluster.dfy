/**
 The table of the nodes of a cluster (csupd/src/sup_cluster.c).
 */
module SupCluster {
  import opened Common
  import SupView

  datatype Node = Node(id: nat, incarnation: nat, view: SupView.View, lastSeen: nat)

  /** sup_node_init */
  const UNDEFINED := Node(NO_NODE, 0, SupView.INITIAL, 0)

  datatype Status = Done | Invalid | NoSpace | Exists | NoEntry

  /** A set of ids below n has all of them when it has n. */
  lemma FullMeansAll(s: set<nat>, n: nat, x: nat)
    requires (forall i | i in s :: i < n) && x < n
    ensures |s| <= n && (|s| == n ==> x in s)
  {
    var rest := Below(n) - s;
    assert Below(n) == rest + s && rest !! s;
    assert x in rest || x in s;
  }

  class Cluster {
    const nodes: array<Node>
    var known: set<nat>
    var numNodes: nat

    /** A slot is in use exactly when its id is known, and the counter counts. */
    ghost predicate Valid()
      reads this, nodes
    {
      && nodes.Length == MAX_NODES
      && (forall i | 0 <= i < MAX_NODES :: nodes[i].id == i || nodes[i] == UNDEFINED)
      && (forall i: nat | i < MAX_NODES :: nodes[i].id == i <==> i in known)
      && (forall i | i in known :: i < MAX_NODES)
      && numNodes == |known|
    }

    constructor ()
      ensures Valid() && fresh(nodes) && known == {}
    {
      nodes := new Node[MAX_NODES](i => UNDEFINED);
      known, numNodes := {}, 0;
    }

    /** sup_cluster_node */
    method Find(id: nat) returns (found: bool)
      requires Valid() && id < MAX_NODES
      ensures found == (id in known)
    {
      found := nodes[id].id != NO_NODE;
    }

    /** sup_cluster_add_node. NoSpace can only hide Exists. */
    method AddNode(id: nat) returns (status: Status)
      requires Valid()
      modifies this, nodes
      ensures Valid()
      ensures status == Done <==> id < MAX_NODES && id !in old(known)
      ensures status == Invalid <==> id >= MAX_NODES
      ensures status == NoSpace <==> id < MAX_NODES && |old(known)| == MAX_NODES
      ensures status == Exists <==> id in old(known) && |old(known)| < MAX_NODES
      ensures known == if status == Done then old(known) + {id} else old(known)
      ensures forall i: nat | i < MAX_NODES && !(status == Done && i == id) :: nodes[i] == old(nodes[i])
      ensures status == Done ==> nodes[id] == UNDEFINED.(id := id)
    {
      if id >= MAX_NODES {
        return Invalid;
      }
      FullMeansAll(known, MAX_NODES, id);
      if numNodes == MAX_NODES {
        return NoSpace;
      }
      if nodes[id].id != NO_NODE {
        return Exists;
      }
      nodes[id] := UNDEFINED.(id := id);
      known := known + {id};
      numNodes := numNodes + 1;
      status := Done;
    }

    /** sup_cluster_del_node */
    method DelNode(id: nat) returns (status: Status)
      requires Valid() && id < MAX_NODES
      modifies this, nodes
      ensures Valid()
      ensures status == (if id in old(known) then Done else NoEntry)
      ensures known == old(known) - {id}
      ensures forall i: nat | i < MAX_NODES && i != id :: nodes[i] == old(nodes[i])
      ensures nodes[id] == UNDEFINED
    {
      if numNodes == 0 {
        assert known == {};
        return NoEntry;
      }
      if nodes[id].id == NO_NODE {
        return NoEntry;
      }
      nodes[id] := UNDEFINED;
      known := known - {id};
      numNodes := numNodes - 1;
      status := Done;
    }
  }
}
