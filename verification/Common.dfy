/**
 Types and constants that several parts share.
 */
module Common {

  datatype Option<T> = None | Some(value: T)

  type Byte = x: int | 0 <= x < 256

  /** Largest number of nodes in a cluster (EXA_MAX_NODES_NUMBER). */
  const MAX_NODES: nat := 128

  /** EXA_NODEID_LOCALHOST */
  const LOCALHOST: nat := 129

  /** EXA_NODEID_NONE */
  const NO_NODE: nat := 133

  function Min(a: nat, b: nat): nat {
    if a < b then a else b
  }

  /** The numbers from 0 to n - 1. */
  function Below(n: nat): (r: set<int>)
    ensures |r| == n
    ensures forall i :: i in r <==> 0 <= i < n
  {
    if n == 0 then {} else Below(n - 1) + {n - 1}
  }
}
