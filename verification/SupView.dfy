/**
 A node's view of the cluster (csupd/src/sup_view.c).
 */
module SupView {
  import opened Common

  datatype State = Unknown | Change | Accept | Commit

  datatype View = View(
    state: State,
    numSeen: nat,          // one past the highest id seen
    nodesSeen: set<nat>,
    clique: set<nat>,
    coord: nat,
    accepted: nat,         // generation of the last accepted membership
    committed: nat)        // generation of the last committed membership

  const INITIAL := View(Unknown, 0, {}, {}, NO_NODE, 0, 0)

  /** n is one past the highest member of s, or 0 when s is empty. */
  predicate Tight(s: set<nat>, n: nat) {
    && (forall x | x in s :: x < n)
    && (n > 0 ==> n - 1 in s)
  }

  /** The largest k <= n with k == 0 or k - 1 in s. */
  function Shrunk(s: set<nat>, n: nat): (k: nat)
    ensures k <= n && (k > 0 ==> k - 1 in s)
    ensures forall x | k <= x < n :: x !in s
  {
    if n == 0 || n - 1 in s then n else Shrunk(s, n - 1)
  }

  /** Views are compared by coordinator and nodes seen only. */
  predicate SameView(v: View, w: View) {
    v.coord == w.coord && v.nodesSeen == w.nodesSeen
  }

  function Added(v: View, id: nat): (w: View)
    ensures Tight(v.nodesSeen, v.numSeen) ==> Tight(w.nodesSeen, w.numSeen)
  {
    v.(nodesSeen := v.nodesSeen + {id}, numSeen := if id >= v.numSeen then id + 1 else v.numSeen)
  }

  function Deleted(v: View, ids: set<nat>): (w: View)
    ensures Tight(v.nodesSeen, v.numSeen) ==> Tight(w.nodesSeen, w.numSeen)
  {
    v.(nodesSeen := v.nodesSeen - ids, numSeen := Shrunk(v.nodesSeen - ids, v.numSeen))
  }

  /** sup_view_add_node */
  method AddNode(v: View, id: nat) returns (w: View)
    requires Tight(v.nodesSeen, v.numSeen)
    ensures Tight(w.nodesSeen, w.numSeen)
    ensures w == v.(nodesSeen := v.nodesSeen + {id}, numSeen := w.numSeen)
    ensures w == Added(v, id)
  {
    w := v.(nodesSeen := v.nodesSeen + {id});
    if id >= w.numSeen {
      w := w.(numSeen := id + 1);
    }
  }

  /** sup_view_del_node */
  method DelNode(v: View, id: nat) returns (w: View)
    requires Tight(v.nodesSeen, v.numSeen)
    ensures Tight(w.nodesSeen, w.numSeen)
    ensures w == v.(nodesSeen := v.nodesSeen - {id}, numSeen := w.numSeen)
    ensures w == Deleted(v, {id})
  {
    w := v.(nodesSeen := v.nodesSeen - {id});
    if id == w.numSeen - 1 {
      var n := id;
      while n > 0 && n !in w.nodesSeen
        invariant n <= id
        invariant forall x | n < x :: x !in w.nodesSeen
      {
        n := n - 1;
      }
      if n in w.nodesSeen {
        w := w.(numSeen := n + 1);
      } else {
        w := w.(numSeen := 0);
      }
    }
    TightIsUnique(w.nodesSeen, w.numSeen, Shrunk(w.nodesSeen, v.numSeen));
  }

  lemma TightIsUnique(s: set<nat>, m: nat, n: nat)
    requires Tight(s, m) && Tight(s, n)
    ensures m == n
  {
  }
}
