/**
 Clique computation of the cluster supervisor (csupd/src/sup_clique.c).

 The input is the table of what every known node sees. The known nodes are
 the keys of the table. Nodes are taken in the order of node_mship_cmp and
 packed greedily into cliques; the result is the clique that holds the local
 node.
 */
module Clique {
  import opened Common

  /** What every known node sees. */
  type Sight = map<nat, set<nat>>

  predicate InRange(s: set<nat>) {
    forall n | n in s :: n < MAX_NODES
  }

  /** Every known node sees itself. */
  predicate SelfSeeing(t: Sight) {
    forall n | n in t :: n in t[n]
  }

  // ---------------------------------------------------------------- ordering

  /** a sees fewer nodes than b, or as many and has the lower id. */
  predicate Before(t: Sight, a: nat, b: nat)
    requires a in t && b in t
  {
    |t[a]| < |t[b]| || (|t[a]| == |t[b]| && a < b)
  }

  /** node_mship_cmp: by number of nodes seen, then by id. */
  function Compare(t: Sight, a: nat, b: nat): int
    requires a in t && b in t
  {
    if |t[a]| != |t[b]| then |t[a]| - |t[b]| else a - b
  }

  predicate Known(t: Sight, o: seq<nat>) {
    forall i | 0 <= i < |o| :: o[i] in t
  }

  predicate Increasing(t: Sight, o: seq<nat>)
    requires Known(t, o)
  {
    forall i, j | 0 <= i < j < |o| :: Compare(t, o[i], o[j]) < 0
  }

  /** The order of the passes: all known nodes, strictly increasing. */
  predicate IsOrder(t: Sight, o: seq<nat>) {
    && Known(t, o)
    && Increasing(t, o)
    && (forall n | n in t :: n in o)
  }

  /** The members of s from k on, in ascending order (exa_nodeset_foreach). */
  function Ids(s: set<nat>, k: nat): (ids: seq<nat>)
    ensures forall i | 0 <= i < |ids| :: k <= ids[i] && ids[i] in s
    ensures forall n | n in s && k <= n < MAX_NODES :: n in ids
    ensures forall i, j | 0 <= i < j < |ids| :: ids[i] < ids[j]
    decreases MAX_NODES - k
  {
    if k >= MAX_NODES then []
    else if k in s then [k] + Ids(s, k + 1)
    else Ids(s, k + 1)
  }

  lemma PrependKeepsIncreasing(t: Sight, h: nat, r: seq<nat>)
    requires h in t && Known(t, r) && Increasing(t, r)
    requires forall y | y in r :: Compare(t, h, y) < 0
    ensures Known(t, [h] + r) && Increasing(t, [h] + r)
    ensures forall y :: y in [h] + r <==> y in r || y == h
  {
  }

  function Insert(t: Sight, o: seq<nat>, x: nat): (r: seq<nat>)
    requires Known(t, o) && Increasing(t, o) && x in t && x !in o
    ensures Known(t, r) && Increasing(t, r)
    ensures forall y :: y in r <==> y in o || y == x
  {
    if o == [] then [x]
    else if Compare(t, x, o[0]) < 0 then
      PrependKeepsIncreasing(t, x, o);
      [x] + o
    else
      var r := Insert(t, o[1..], x);
      PrependKeepsIncreasing(t, o[0], r);
      [o[0]] + r
  }

  /** qsort with node_mship_cmp. OrderIsUnique shows that every sorting
      algorithm gives this result. */
  function Sort(t: Sight, ids: seq<nat>): (r: seq<nat>)
    requires Known(t, ids)
    requires forall i, j | 0 <= i < j < |ids| :: ids[i] != ids[j]
    ensures Known(t, r) && Increasing(t, r)
    ensures forall y :: y in r <==> y in ids
  {
    if ids == [] then []
    else
      assert forall y :: y in ids <==> y in ids[1..] || y == ids[0];
      Insert(t, Sort(t, ids[1..]), ids[0])
  }

  function Order(t: Sight): (o: seq<nat>)
    requires InRange(t.Keys)
    ensures IsOrder(t, o)
    ensures forall i, j | 0 <= i < j < |o| :: Before(t, o[i], o[j])
  {
    Sort(t, Ids(t.Keys, 0))
  }

  /** The comparison leaves one possible order, so the choice of sorting
      algorithm cannot make two nodes disagree. */
  lemma {:induction false} OrderIsUnique(t: Sight, o: seq<nat>, p: seq<nat>)
    requires IsOrder(t, o) && IsOrder(t, p)
    ensures o == p
  {
    SameElements(t, o, p);
  }

  lemma NonEmptyHasMember(p: seq<nat>)
    ensures p == [] || exists n :: n in p
  {
    if p != [] { assert p[0] in p; }
  }

  lemma {:induction false} SameElements(t: Sight, o: seq<nat>, p: seq<nat>)
    requires Known(t, o) && Increasing(t, o) && Known(t, p) && Increasing(t, p)
    requires forall n :: n in o <==> n in p
    ensures o == p
  {
    if o == [] {
      NonEmptyHasMember(p);
    } else {
      assert o[0] in p && p[0] in o;
      assert o[0] == p[0];
      forall n ensures n in o[1..] <==> n in p[1..] {
        assert n in o <==> n in o[1..] || n == o[0];
        assert n in p <==> n in p[1..] || n == p[0];
      }
      SameElements(t, o[1..], p[1..]);
      assert o == [o[0]] + o[1..] && p == [p[0]] + p[1..];
    }
  }

  // ------------------------------------------------------------ one pass

  /** One pass over the sorted nodes: rem are the nodes not yet in a clique,
      impossible those that some member of result does not see. */
  function Pass(t: Sight, o: seq<nat>, rem: set<nat>, result: set<nat>, impossible: set<nat>): (r: set<nat>)
    requires Known(t, o)
    ensures result <= r
    ensures forall n | n in r :: n in result || (n in rem && n in o)
  {
    if o == [] then result
    else
      var n := o[0];
      if n !in rem || n in impossible then Pass(t, o[1..], rem, result, impossible)
      else
        var unseen := t.Keys - t[n];
        if unseen * (result + {n}) == {} then Pass(t, o[1..], rem, result + {n}, impossible + unseen)
        else Pass(t, o[1..], rem, result, impossible)
  }

  predicate Mutual(t: Sight, a: nat, b: nat)
    requires a in t && b in t
  {
    b in t[a] && a in t[b]
  }

  /** All members are known and see each other. */
  predicate IsClique(t: Sight, k: set<nat>) {
    && k <= t.Keys
    && (forall a, b | a in k && b in k :: b in t[a])
  }

  /** Some member does not see n, or n does not see some member. */
  predicate Blocked(t: Sight, k: set<nat>, n: nat)
    requires k <= t.Keys && n in t
  {
    exists m :: m in k && !Mutual(t, m, n)
  }

  ghost predicate ImpossibleFor(t: Sight, result: set<nat>, impossible: set<nat>)
    requires result <= t.Keys
  {
    forall x :: x in impossible <==> x in t && exists m :: m in result && x !in t[m]
  }

  lemma {:induction false} PassIsClique(t: Sight, o: seq<nat>, rem: set<nat>, result: set<nat>, impossible: set<nat>)
    requires Known(t, o) && IsClique(t, result) && ImpossibleFor(t, result, impossible)
    ensures IsClique(t, Pass(t, o, rem, result, impossible))
  {
    if o != [] {
      var n := o[0];
      var unseen := t.Keys - t[n];
      if n in rem && n !in impossible && unseen * (result + {n}) == {} {
        StepKeepsImpossible(t, n, result, impossible);
        forall m | m in result + {n} ensures m in t[n] {
          assert m !in unseen * (result + {n});
        }
        PassIsClique(t, o[1..], rem, result + {n}, impossible + unseen);
      } else {
        PassIsClique(t, o[1..], rem, result, impossible);
      }
    }
  }

  lemma StepKeepsImpossible(t: Sight, n: nat, result: set<nat>, impossible: set<nat>)
    requires n in t && result <= t.Keys && ImpossibleFor(t, result, impossible)
    ensures ImpossibleFor(t, result + {n}, impossible + (t.Keys - t[n]))
  {
    forall x
      ensures x in impossible + (t.Keys - t[n]) <==> x in t && exists m :: m in result + {n} && x !in t[m]
    {
      if x in t && x !in t[n] { assert n in result + {n}; }
      if x in impossible {
        var m :| m in result && x !in t[m];
        assert m in result + {n};
      }
    }
  }

  /** A remaining node that a pass leaves out could not have been added. */
  lemma {:induction false} PassIsMaximal(t: Sight, o: seq<nat>, rem: set<nat>, result: set<nat>,
          impossible: set<nat>, x: nat)
    requires Known(t, o) && SelfSeeing(t) && result <= t.Keys && ImpossibleFor(t, result, impossible)
    requires x in o && x in rem && x !in Pass(t, o, rem, result, impossible)
    ensures Pass(t, o, rem, result, impossible) <= t.Keys
    ensures Blocked(t, Pass(t, o, rem, result, impossible), x)
  {
    var n := o[0];
    var r := Pass(t, o, rem, result, impossible);
    var unseen := t.Keys - t[n];
    if n in rem && n !in impossible && unseen * (result + {n}) == {} {
      StepKeepsImpossible(t, n, result, impossible);
      assert x in o[1..];
      PassIsMaximal(t, o[1..], rem, result + {n}, impossible + unseen, x);
    } else if x in o[1..] {
      PassIsMaximal(t, o[1..], rem, result, impossible, x);
    } else {
      assert x == n;
      if n in impossible {
        var m :| m in result && n !in t[m];
        assert m in r && !Mutual(t, m, n);
      } else {
        var m :| m in unseen * (result + {n});
        assert m in result && m in r && !Mutual(t, m, n);
      }
    }
  }

  lemma {:induction false} PassIsNonEmpty(t: Sight, o: seq<nat>, rem: set<nat>, x: nat)
    requires Known(t, o) && SelfSeeing(t) && x in o && x in rem
    ensures Pass(t, o, rem, {}, {}) != {}
  {
    var n := o[0];
    if n in rem {
      assert (t.Keys - t[n]) * ({} + {n}) == {};
      assert n in Pass(t, o[1..], rem, {} + {n}, {} + (t.Keys - t[n]));
    } else {
      assert x in o[1..];
      PassIsNonEmpty(t, o[1..], rem, x);
    }
  }

  // ------------------------------------------------------- the partition

  /** The clique of self when the nodes of rem are still to be placed. */
  function CliqueFrom(t: Sight, rem: set<nat>, self: nat): (k: set<nat>)
    requires InRange(t.Keys) && SelfSeeing(t) && self in rem && rem <= t.Keys
    ensures self in k && k <= rem
    decreases rem
  {
    var r := Pass(t, Order(t), rem, {}, {});
    if self in r then r
    else
      PassIsNonEmpty(t, Order(t), rem, self);
      CliqueFrom(t, rem - r, self)
  }

  /** The clique that sup_clique_compute finds for self. */
  function CliqueOf(t: Sight, self: nat): (k: set<nat>)
    requires InRange(t.Keys) && SelfSeeing(t) && self in t
    ensures self in k && k <= t.Keys
  {
    CliqueFrom(t, t.Keys, self)
  }

  /** The nodes that the passes before the one that places self leave over. */
  ghost function Remaining(t: Sight, rem: set<nat>, self: nat): (left: set<nat>)
    requires InRange(t.Keys) && SelfSeeing(t) && self in rem && rem <= t.Keys
    ensures left <= rem
    decreases rem
  {
    var r := Pass(t, Order(t), rem, {}, {});
    if self in r then rem
    else
      PassIsNonEmpty(t, Order(t), rem, self);
      Remaining(t, rem - r, self)
  }

  /** Correctness of one result: the members see each other, and no node left
      over by the earlier passes could be added. */
  lemma {:induction false} CliqueIsMaximal(t: Sight, rem: set<nat>, self: nat)
    requires InRange(t.Keys) && SelfSeeing(t) && self in rem && rem <= t.Keys
    ensures IsClique(t, CliqueFrom(t, rem, self))
    ensures CliqueFrom(t, rem, self) <= Remaining(t, rem, self)
    ensures forall x | x in Remaining(t, rem, self) - CliqueFrom(t, rem, self) ::
              Blocked(t, CliqueFrom(t, rem, self), x)
    decreases rem
  {
    var r := Pass(t, Order(t), rem, {}, {});
    if self in r {
      PassIsClique(t, Order(t), rem, {}, {});
      forall x | x in rem - r ensures Blocked(t, r, x) {
        PassIsMaximal(t, Order(t), rem, {}, {}, x);
      }
    } else {
      PassIsNonEmpty(t, Order(t), rem, self);
      CliqueIsMaximal(t, rem - r, self);
    }
  }

  /** o is in the order of the passes. */
  predicate Ordered(t: Sight, o: seq<nat>)
    requires Known(t, o)
  {
    forall i, j | 0 <= i < j < |o| :: Before(t, o[i], o[j])
  }

  /** All nodes of k come before those of o. */
  predicate AllBefore(t: Sight, k: set<nat>, o: seq<nat>)
    requires k <= t.Keys && Known(t, o)
  {
    forall m, i | m in k && 0 <= i < |o| :: Before(t, m, o[i])
  }

  lemma TailIsOrdered(t: Sight, k: set<nat>, o: seq<nat>)
    requires k <= t.Keys && Known(t, o) && o != [] && Ordered(t, o) && AllBefore(t, k, o)
    ensures Known(t, o[1..]) && Ordered(t, o[1..])
    ensures AllBefore(t, k, o[1..]) && AllBefore(t, k + {o[0]}, o[1..])
    ensures o[0] !in o[1..] && o[0] !in k
  {
    assert forall i | 0 <= i < |o[1..]| :: o[1..][i] == o[i + 1];
  }

  /** What a pass over o[1..] adds to k comes after o[0]. */
  lemma EarlierIsKept(t: Sight, k: set<nat>, o: seq<nat>, r: set<nat>, m: nat)
    requires k <= t.Keys && Known(t, o) && o != [] && Ordered(t, o)
    requires m in r && (forall n | n in r :: n in k || n in o[1..]) && m in t && Before(t, m, o[0])
    ensures m in k
  {
    assert forall i | 0 <= i < |o[1..]| :: o[1..][i] == o[i + 1];
  }

  /** The pass is greedy: with the nodes before x decided, x is taken exactly
      when it and every node taken before it see each other. */
  lemma {:induction false} PassIsGreedy(t: Sight, o: seq<nat>, rem: set<nat>, result: set<nat>,
                                        impossible: set<nat>, x: nat)
    requires Known(t, o) && SelfSeeing(t) && result <= t.Keys && ImpossibleFor(t, result, impossible)
    requires Ordered(t, o) && AllBefore(t, result, o) && x in o && x in rem
    ensures Pass(t, o, rem, result, impossible) <= t.Keys
    ensures x in Pass(t, o, rem, result, impossible) <==> FitsInto(t, Pass(t, o, rem, result, impossible), x)
  {
    var n := o[0];
    TailIsOrdered(t, result, o);
    if x == n {
      FirstIsDecided(t, o, rem, result, impossible);
    } else if n in rem && n !in impossible && (t.Keys - t[n]) * (result + {n}) == {} {
      StepKeepsImpossible(t, n, result, impossible);
      PassIsGreedy(t, o[1..], rem, result + {n}, impossible + (t.Keys - t[n]), x);
    } else {
      PassIsGreedy(t, o[1..], rem, result, impossible, x);
    }
  }

  /** Node x and every node of k before it see each other. */
  predicate FitsInto(t: Sight, k: set<nat>, x: nat)
    requires k <= t.Keys && x in t
  {
    forall m | m in k && Before(t, m, x) :: Mutual(t, m, x)
  }

  lemma FirstIsDecided(t: Sight, o: seq<nat>, rem: set<nat>, result: set<nat>, impossible: set<nat>)
    requires Known(t, o) && o != [] && SelfSeeing(t) && result <= t.Keys && ImpossibleFor(t, result, impossible)
    requires Ordered(t, o) && AllBefore(t, result, o) && o[0] in rem
    ensures Pass(t, o, rem, result, impossible) <= t.Keys
    ensures o[0] in Pass(t, o, rem, result, impossible) <==> FitsInto(t, Pass(t, o, rem, result, impossible), o[0])
  {
    var n := o[0];
    TailIsOrdered(t, result, o);
    if n !in impossible && (t.Keys - t[n]) * (result + {n}) == {} {
      var r := Pass(t, o[1..], rem, result + {n}, impossible + (t.Keys - t[n]));
      forall m | m in r && Before(t, m, n) ensures Mutual(t, m, n) {
        EarlierIsKept(t, result + {n}, o, r, m);
        assert m !in (t.Keys - t[n]) * (result + {n});
      }
    } else {
      var m := BlockerOf(t, n, result, impossible);
      assert m in Pass(t, o[1..], rem, result, impossible) && Before(t, m, o[0]);
    }
  }

  /** A node that a pass skips has a member in its way. */
  lemma BlockerOf(t: Sight, n: nat, result: set<nat>, impossible: set<nat>) returns (m: nat)
    requires n in t && SelfSeeing(t) && result <= t.Keys && ImpossibleFor(t, result, impossible)
    requires n in impossible || (t.Keys - t[n]) * (result + {n}) != {}
    ensures m in result && !Mutual(t, m, n)
  {
    if n in impossible {
      m :| m in result && n !in t[m];
    } else {
      m :| m in (t.Keys - t[n]) * (result + {n});
    }
  }

  /** lead is the member of k that sees the fewest nodes, the lowest id first. */
  predicate Leads(t: Sight, k: set<nat>, lead: nat) {
    k <= t.Keys && lead in k && forall n | n in k && n != lead :: Before(t, lead, n)
  }

  /** The first remaining node is always placed. */
  lemma {:induction false} FirstIsPlaced(t: Sight, o: seq<nat>, rem: set<nat>, x: nat)
    requires Known(t, o) && SelfSeeing(t) && rem <= t.Keys && (forall n | n in rem :: n in o)
    requires Ordered(t, o) && Leads(t, rem, x)
    ensures x in Pass(t, o, rem, {}, {})
  {
    PassIsGreedy(t, o, rem, {}, {}, x);
    forall m | m in Pass(t, o, rem, {}, {}) && Before(t, m, x) ensures Mutual(t, m, x) {
      assert m in rem;
    }
  }

  /** Of the nodes left over by the earlier passes, the one that sees the fewest
      nodes, the lowest id first, is in the clique. */
  lemma {:induction false} FewestSeenIsPlaced(t: Sight, rem: set<nat>, self: nat, x: nat)
    requires InRange(t.Keys) && SelfSeeing(t) && self in rem && rem <= t.Keys
    requires Leads(t, Remaining(t, rem, self), x)
    ensures x in CliqueFrom(t, rem, self)
    decreases rem
  {
    var r := Pass(t, Order(t), rem, {}, {});
    if self in r {
      FirstIsPlaced(t, Order(t), rem, x);
    } else {
      PassIsNonEmpty(t, Order(t), rem, self);
      FewestSeenIsPlaced(t, rem - r, self, x);
    }
  }

  lemma {:induction false} HasLead(t: Sight, k: set<nat>) returns (lead: nat)
    requires k <= t.Keys && k != {}
    ensures Leads(t, k, lead)
  {
    var x :| x in k;
    if k == {x} {
      lead := x;
    } else {
      assert k - {x} != {};
      var y := HasLead(t, k - {x});
      lead := if Before(t, x, y) then x else y;
      forall n | n in k && n != lead ensures Before(t, lead, n) {
        assert n == x || n in k - {x};
      }
    }
  }

  /** What leads the result of a pass leads all that remained. */
  lemma PassHasLead(t: Sight, rem: set<nat>, lead: nat)
    requires InRange(t.Keys) && SelfSeeing(t) && rem <= t.Keys
    requires Leads(t, Pass(t, Order(t), rem, {}, {}), lead)
    ensures Leads(t, rem, lead)
  {
    var x := HasLead(t, rem);
    FirstIsPlaced(t, Order(t), rem, x);
  }

  /** The greedy packing, said of the results alone: a node whose clique is not
      led by an earlier node is in the clique of a if and only if it and every
      member before it see each other. */
  lemma {:induction false} CliquesAreGreedy(t: Sight, rem: set<nat>, a: nat, b: nat, la: nat, lb: nat)
    requires InRange(t.Keys) && SelfSeeing(t) && a in rem && b in rem && rem <= t.Keys
    requires Leads(t, CliqueFrom(t, rem, a), la) && Leads(t, CliqueFrom(t, rem, b), lb) && !Before(t, lb, la)
    ensures b in CliqueFrom(t, rem, a) <==>
            forall m | m in CliqueFrom(t, rem, a) && Before(t, m, b) :: Mutual(t, m, b)
    decreases rem
  {
    var r := Pass(t, Order(t), rem, {}, {});
    if a in r {
      PassIsGreedy(t, Order(t), rem, {}, {}, b);
    } else if b in r {
      PassHasLead(t, rem, lb);
      assert false;
    } else {
      PassIsNonEmpty(t, Order(t), rem, a);
      CliquesAreGreedy(t, rem - r, a, b, la, lb);
    }
  }

  /** A node sees all nodes of its own clique. */
  lemma CliqueIsSeen(t: Sight, self: nat)
    requires InRange(t.Keys) && SelfSeeing(t) && self in t
    ensures CliqueOf(t, self) <= t[self]
  {
    CliqueIsMaximal(t, t.Keys, self);
  }

  /** The passes define one partition: nodes with the same table compute equal
      or disjoint cliques, and every member of a clique computes that clique. */
  lemma {:induction false} CliquesPartition(t: Sight, rem: set<nat>, a: nat, b: nat)
    requires InRange(t.Keys) && SelfSeeing(t) && a in rem && b in rem && rem <= t.Keys
    ensures CliqueFrom(t, rem, a) == CliqueFrom(t, rem, b) || CliqueFrom(t, rem, a) !! CliqueFrom(t, rem, b)
    ensures b in CliqueFrom(t, rem, a) <==> CliqueFrom(t, rem, b) == CliqueFrom(t, rem, a)
    decreases rem
  {
    var r := Pass(t, Order(t), rem, {}, {});
    if a in r {
      assert b !in r ==> CliqueFrom(t, rem, b) <= rem - r;
    } else if b in r {
      assert CliqueFrom(t, rem, a) <= rem - r;
    } else {
      PassIsNonEmpty(t, Order(t), rem, a);
      CliquesPartition(t, rem - r, a, b);
    }
  }

  /** Of two nodes in different cliques at least one cannot be moved into the
      clique of the other. */
  lemma {:induction false} CliquesAreApart(t: Sight, rem: set<nat>, a: nat, b: nat)
    requires InRange(t.Keys) && SelfSeeing(t) && a in rem && b in rem && rem <= t.Keys
    requires CliqueFrom(t, rem, a) != CliqueFrom(t, rem, b)
    ensures Blocked(t, CliqueFrom(t, rem, a), b) || Blocked(t, CliqueFrom(t, rem, b), a)
    decreases rem
  {
    var r := Pass(t, Order(t), rem, {}, {});
    if a in r {
      PassIsMaximal(t, Order(t), rem, {}, {}, b);
    } else if b in r {
      PassIsMaximal(t, Order(t), rem, {}, {}, a);
    } else {
      PassIsNonEmpty(t, Order(t), rem, a);
      CliquesAreApart(t, rem - r, a, b);
    }
  }

  /** A cleanly split cluster: seeing each other is an equivalence. */
  predicate CleanSplit(t: Sight) {
    && SelfSeeing(t)
    && (forall a, b | a in t && b in t && b in t[a] :: a in t[b])
    && (forall a, b, c | a in t && b in t && c in t && b in t[a] && c in t[b] :: c in t[a])
  }

  /** In a cleanly split cluster the clique of a node is its whole side. */
  lemma CleanSplitGivesSides(t: Sight, self: nat)
    requires InRange(t.Keys) && self in t && CleanSplit(t)
    ensures CliqueOf(t, self) == t.Keys * t[self]
  {
    CliqueIsMaximal(t, t.Keys, self);
    forall x | x in t && x in t[self] ensures x in CliqueOf(t, self) {
      CliquesPartition(t, t.Keys, self, x);
      if x !in CliqueOf(t, self) {
        CliqueIsMaximal(t, t.Keys, x);
        CliquesAreApart(t, t.Keys, self, x);
        assert false;
      }
    }
  }

  /** The inner loop of sup_clique_compute: one pass over the sorted nodes. */
  method ComputePass(t: Sight, sorted: seq<nat>, rem: set<nat>) returns (result: set<nat>)
    requires Known(t, sorted)
    ensures result == Pass(t, sorted, rem, {}, {})
  {
    var impossible: set<nat> := {};
    result := {};
    for i := 0 to |sorted|
      invariant Pass(t, sorted[i..], rem, result, impossible) == Pass(t, sorted, rem, {}, {})
    {
      assert sorted[i..][1..] == sorted[i + 1..];
      if sorted[i] !in rem || sorted[i] in impossible {
        continue;
      }
      var unseen := t.Keys - t[sorted[i]];
      if unseen * (result + {sorted[i]}) == {} {
        result := result + {sorted[i]};
        impossible := impossible + unseen;
      }
    }
  }

  /** sup_clique_compute. Its last assertion, reached when no pass places the
      local node, cannot be reached. */
  method ComputeClique(t: Sight, self: nat) returns (result: set<nat>)
    requires InRange(t.Keys) && SelfSeeing(t) && self in t
    ensures result == CliqueOf(t, self)
  {
    var sorted := Order(t);
    var rem := t.Keys;
    result := {};
    while |rem| > 0
      invariant self in rem && rem <= t.Keys
      invariant CliqueFrom(t, rem, self) == CliqueOf(t, self)
      decreases rem
    {
      result := ComputePass(t, sorted, rem);
      if self in result {
        return;
      }
      PassIsNonEmpty(t, sorted, rem, self);
      rem := rem - result;
    }
    assert false;
  }
}
