/**
 First-in first-out lists threaded through one array of next indices
 (common/lib/exa_nbd_list.c). List 0 is the list of free elements.
 */
module NbdList {
  import opened Common

  const NO_MORE_ELT := -1
  const NOT_IN_LIST := -2
  const NO_TAG := -1

  /** The head of a list; a list that is not alive has been closed. */
  datatype Head = Head(first: int, last: int, alive: bool)

  // ------------------------------------------------------- what the array means

  /** The elements of c, in order, are the chain from first to last. */
  ghost predicate IsChain(next: seq<int>, h: Head, c: seq<int>) {
    && Linked(next, c)
    && (h.alive ==> h.first == (if c == [] then NO_MORE_ELT else c[0]))
    && (h.alive ==> h.last == (if c == [] then NO_MORE_ELT else c[|c| - 1]))
    && (!h.alive ==> c == [])
  }

  ghost predicate Linked(next: seq<int>, c: seq<int>) {
    forall p | 0 <= p < |c| :: LinkedAt(next, c, p)
  }

  predicate LinkedAt(next: seq<int>, c: seq<int>, p: nat)
    requires p < |c|
  {
    0 <= c[p] < |next| && next[c[p]] == (if p + 1 < |c| then c[p + 1] else NO_MORE_ELT)
  }

  predicate Apart(a: seq<int>, b: seq<int>) {
    forall x | x in a :: x !in b
  }

  ghost predicate Listed(chains: seq<seq<int>>, e: int) {
    exists l | 0 <= l < |chains| :: e in chains[l]
  }

  /** Every list is a chain, no two share an element, and an element is marked
      NOT_IN_LIST exactly when it is in none. */
  ghost predicate Threaded(next: seq<int>, heads: seq<Head>, chains: seq<seq<int>>) {
    && |heads| == |chains|
    && (forall l | 0 <= l < |chains| :: IsChain(next, heads[l], chains[l]))
    && (forall l, m | 0 <= l < |chains| && 0 <= m < |chains| && l != m :: Apart(chains[l], chains[m]))
    && (forall e | 0 <= e < |next| :: next[e] == NOT_IN_LIST <==> !Listed(chains, e))
  }

  /** A chain that ends is acyclic. */
  lemma {:induction false} ChainHasNoRepeats(next: seq<int>, c: seq<int>, p: nat, q: nat)
    requires Linked(next, c) && p < q < |c|
    ensures c[p] != c[q]
    decreases |c| - q
  {
    assert LinkedAt(next, c, p) && LinkedAt(next, c, q);
    if q + 1 < |c| {
      ChainHasNoRepeats(next, c, p + 1, q + 1);
    } else {
      assert LinkedAt(next, c, p + 1);
    }
  }

  // ------------------------------------------------------------- conservation

  function Total(chains: seq<seq<int>>): nat {
    if chains == [] then 0 else Total(chains[..|chains| - 1]) + |chains[|chains| - 1]|
  }

  ghost function Elements(c: seq<int>): set<int> {
    set x | x in c
  }

  ghost function AllListed(chains: seq<seq<int>>): set<int> {
    if chains == [] then {} else AllListed(chains[..|chains| - 1]) + Elements(chains[|chains| - 1])
  }

  lemma {:induction false} AllListedIsListed(chains: seq<seq<int>>, x: int)
    ensures x in AllListed(chains) <==> Listed(chains, x)
  {
    if chains != [] {
      var k := |chains| - 1;
      var rest := chains[..k];
      AllListedIsListed(rest, x);
      if Listed(rest, x) {
        var l :| 0 <= l < |rest| && x in rest[l];
        assert x in chains[l];
      }
      if Listed(chains, x) && x !in chains[k] {
        var l :| 0 <= l < |chains| && x in chains[l];
        assert x in rest[l];
      }
    }
  }

  ghost function CheckedOut(next: seq<int>): set<int> {
    set e | 0 <= e < |next| && next[e] == NOT_IN_LIST
  }

  lemma {:induction false} ElementCount(c: seq<int>)
    requires forall p, q | 0 <= p < q < |c| :: c[p] != c[q]
    ensures |Elements(c)| == |c|
  {
    if c != [] {
      var rest, x := c[..|c| - 1], c[|c| - 1];
      ElementCount(rest);
      assert Elements(c) == Elements(rest) + {x};
    }
  }

  lemma {:induction false} ListedCount(chains: seq<seq<int>>)
    requires forall l | 0 <= l < |chains| :: |Elements(chains[l])| == |chains[l]|
    requires forall l, m | 0 <= l < |chains| && 0 <= m < |chains| && l != m :: Apart(chains[l], chains[m])
    ensures |AllListed(chains)| == Total(chains)
  {
    if chains != [] {
      var k := |chains| - 1;
      var rest := chains[..k];
      ListedCount(rest);
      forall x | x in AllListed(rest)
        ensures x !in Elements(chains[k])
      {
        AllListedIsListed(rest, x);
        var l :| 0 <= l < |rest| && x in rest[l];
        assert Apart(chains[l], chains[k]);
      }
    }
  }

  /** The elements in lists and those checked out are all the elements, each
      counted once. */
  lemma ElementsAreConserved(next: seq<int>, heads: seq<Head>, chains: seq<seq<int>>)
    requires Threaded(next, heads, chains)
    ensures Total(chains) + |CheckedOut(next)| == |next|
  {
    forall l | 0 <= l < |chains|
      ensures |Elements(chains[l])| == |chains[l]|
    {
      var c := chains[l];
      assert IsChain(next, heads[l], c);
      forall p, q | 0 <= p < q < |c|
        ensures c[p] != c[q]
      {
        ChainHasNoRepeats(next, c, p, q);
      }
      ElementCount(c);
    }
    ListedCount(chains);
    ListedIsInRange(next, heads, chains);
    assert Below(|next|) == AllListed(chains) + CheckedOut(next);
  }

  lemma ListedIsInRange(next: seq<int>, heads: seq<Head>, chains: seq<seq<int>>)
    requires Threaded(next, heads, chains)
    ensures forall e | 0 <= e < |next| :: e in AllListed(chains) <==> e !in CheckedOut(next)
    ensures forall x | x in AllListed(chains) :: 0 <= x < |next|
  {
    forall x | x in AllListed(chains)
      ensures 0 <= x < |next|
    {
      AllListedIsListed(chains, x);
      var l :| 0 <= l < |chains| && x in chains[l];
      assert IsChain(next, heads[l], chains[l]);
      var p :| 0 <= p < |chains[l]| && chains[l][p] == x;
      assert LinkedAt(next, chains[l], p);
    }
    forall e | 0 <= e < |next|
      ensures e in AllListed(chains) <==> e !in CheckedOut(next)
    {
      AllListedIsListed(chains, e);
    }
  }

  // -------------------------------------------------------------------- steps

  /** The array after element e is appended to the chain c. */
  function Appended(next: seq<int>, c: seq<int>, e: nat): seq<int>
    requires e < |next| && (c != [] ==> 0 <= c[|c| - 1] < |next|)
  {
    if c == [] then next[e := NO_MORE_ELT] else next[e := NO_MORE_ELT][c[|c| - 1] := e]
  }

  function PushHead(h: Head, e: nat): Head {
    h.(first := if h.first == NO_MORE_ELT then e else h.first, last := e)
  }

  lemma AppendedChain(next: seq<int>, h: Head, c: seq<int>, e: nat)
    requires IsChain(next, h, c) && h.alive && e < |next| && e !in c
    ensures c != [] ==> 0 <= c[|c| - 1] < |next|
    ensures IsChain(Appended(next, c, e), PushHead(h, e), c + [e])
  {
    var d := c + [e];
    if c != [] {
      assert LinkedAt(next, c, |c| - 1);
      assert LinkedAt(next, c, 0);
    }
    var t := Appended(next, c, e);
    forall p | 0 <= p < |d|
      ensures LinkedAt(t, d, p)
    {
      if p < |c| {
        assert LinkedAt(next, c, p);
        if p + 1 < |c| { ChainHasNoRepeats(next, c, p, |c| - 1); }
      }
    }
  }

  lemma FirstTellsEmpty(next: seq<int>, h: Head, c: seq<int>)
    requires IsChain(next, h, c) && h.alive
    ensures h.first == NO_MORE_ELT <==> c == []
  {
    if c != [] {
      assert LinkedAt(next, c, 0);
    }
  }

  /** A chain that shares nothing with what changed is the chain it was. */
  lemma OtherChain(next: seq<int>, t: seq<int>, h: Head, c: seq<int>)
    requires IsChain(next, h, c) && |t| == |next|
    requires forall e | 0 <= e < |next| && e in c :: t[e] == next[e]
    ensures IsChain(t, h, c)
  {
    forall p | 0 <= p < |c|
      ensures LinkedAt(t, c, p)
    {
      assert LinkedAt(next, c, p);
    }
  }

  lemma PostKeeps(next: seq<int>, heads: seq<Head>, chains: seq<seq<int>>, l: nat, e: nat)
    requires Threaded(next, heads, chains) && l < |heads| && heads[l].alive
    requires e < |next| && next[e] == NOT_IN_LIST
    ensures chains[l] != [] ==> 0 <= chains[l][|chains[l]| - 1] < |next|
    ensures Threaded(Appended(next, chains[l], e), heads[l := PushHead(heads[l], e)], chains[l := chains[l] + [e]])
  {
    var c := chains[l];
    assert !Listed(chains, e);
    assert IsChain(next, heads[l], c);
    assert e !in c;
    AppendedChain(next, heads[l], c, e);
    var t, hs, cs := Appended(next, c, e), heads[l := PushHead(heads[l], e)], chains[l := c + [e]];
    forall m | 0 <= m < |cs|
      ensures IsChain(t, hs[m], cs[m])
    {
      if m != l {
        assert Apart(chains[l], chains[m]) && e !in chains[m];
        OtherChain(next, t, heads[m], chains[m]);
      }
    }
    forall m, k | 0 <= m < |cs| && 0 <= k < |cs| && m != k
      ensures Apart(cs[m], cs[k])
    {
      assert Apart(chains[m], chains[k]) && e !in chains[m] && e !in chains[k];
    }
    PostKeepsMarks(next, heads, chains, l, e);
  }

  lemma PostKeepsMarks(next: seq<int>, heads: seq<Head>, chains: seq<seq<int>>, l: nat, e: nat)
    requires Threaded(next, heads, chains) && l < |heads| && e < |next|
    requires chains[l] != [] ==> 0 <= chains[l][|chains[l]| - 1] < |next|
    ensures forall x | 0 <= x < |next| ::
              Appended(next, chains[l], e)[x] == NOT_IN_LIST <==> !Listed(chains[l := chains[l] + [e]], x)
  {
    var c := chains[l];
    var t, cs := Appended(next, c, e), chains[l := c + [e]];
    forall x | 0 <= x < |next|
      ensures t[x] == NOT_IN_LIST <==> !Listed(cs, x)
    {
      assert next[x] == NOT_IN_LIST <==> !Listed(chains, x);
      if x == e || x in c {
        assert x in cs[l];
      }
      if Listed(chains, x) {
        var m :| 0 <= m < |chains| && x in chains[m];
        assert x in cs[m];
      }
      if Listed(cs, x) && x != e {
        var m :| 0 <= m < |cs| && x in cs[m];
        assert x in chains[m];
      }
    }
  }

  lemma RemoveKeeps(next: seq<int>, heads: seq<Head>, chains: seq<seq<int>>, l: nat)
    requires Threaded(next, heads, chains) && l < |heads| && chains[l] != []
    ensures 0 <= chains[l][0] < |next| && heads[l].first == chains[l][0]
    ensures next[heads[l].first] == NO_MORE_ELT ==> heads[l].last == heads[l].first
    ensures Threaded(next[chains[l][0] := NOT_IN_LIST], heads[l := PopHead(next, heads[l])], chains[l := chains[l][1..]])
  {
    var c := chains[l];
    assert IsChain(next, heads[l], c);
    assert LinkedAt(next, c, 0);
    if |c| > 1 { assert LinkedAt(next, c, 1); }
    var e := c[0];
    var t, hs, cs := next[e := NOT_IN_LIST], heads[l := PopHead(next, heads[l])], chains[l := c[1..]];
    RemovedChain(next, heads[l], c);
    forall m | 0 <= m < |cs|
      ensures IsChain(t, hs[m], cs[m])
    {
      if m != l {
        assert Apart(chains[l], chains[m]);
        OtherChain(next, t, heads[m], chains[m]);
      }
    }
    forall m, k | 0 <= m < |cs| && 0 <= k < |cs| && m != k
      ensures Apart(cs[m], cs[k])
    {
      assert Apart(chains[m], chains[k]);
    }
    RemoveKeepsMarks(next, heads, chains, l, t, cs);
  }

  function PopHead(next: seq<int>, h: Head): Head {
    if 0 <= h.first < |next| && next[h.first] != NO_MORE_ELT then h.(first := next[h.first])
    else h.(first := NO_MORE_ELT, last := NO_MORE_ELT)
  }

  lemma RemovedChain(next: seq<int>, h: Head, c: seq<int>)
    requires IsChain(next, h, c) && c != [] && 0 <= c[0] < |next|
    ensures IsChain(next[c[0] := NOT_IN_LIST], PopHead(next, h), c[1..])
  {
    var t, d := next[c[0] := NOT_IN_LIST], c[1..];
    assert LinkedAt(next, c, 0);
    forall p | 0 <= p < |d|
      ensures LinkedAt(t, d, p)
    {
      assert LinkedAt(next, c, p + 1);
      ChainHasNoRepeats(next, c, 0, p + 1);
    }
    if |c| > 1 { assert LinkedAt(next, c, 1); }
  }

  lemma RemoveKeepsMarks(next: seq<int>, heads: seq<Head>, chains: seq<seq<int>>, l: nat, t: seq<int>, cs: seq<seq<int>>)
    requires Threaded(next, heads, chains) && l < |heads| && chains[l] != [] && 0 <= chains[l][0] < |next|
    requires t == next[chains[l][0] := NOT_IN_LIST] && cs == chains[l := chains[l][1..]]
    ensures forall x | 0 <= x < |next| :: t[x] == NOT_IN_LIST <==> !Listed(cs, x)
  {
    var c := chains[l];
    forall x | 0 <= x < |next|
      ensures t[x] == NOT_IN_LIST <==> !Listed(cs, x)
    {
      assert next[x] == NOT_IN_LIST <==> !Listed(chains, x);
      if x == c[0] {
        FirstIsGone(next, heads, chains, l);
      } else {
        OthersStay(chains, l, x);
      }
    }
  }

  lemma FirstIsGone(next: seq<int>, heads: seq<Head>, chains: seq<seq<int>>, l: nat)
    requires Threaded(next, heads, chains) && l < |heads| && chains[l] != []
    ensures !Listed(chains[l := chains[l][1..]], chains[l][0])
  {
    var c, cs := chains[l], chains[l := chains[l][1..]];
    assert IsChain(next, heads[l], c);
    forall m | 0 <= m < |cs|
      ensures c[0] !in cs[m]
    {
      if m == l {
        forall p | 0 <= p < |cs[l]|
          ensures cs[l][p] != c[0]
        {
          ChainHasNoRepeats(next, c, 0, p + 1);
        }
      } else {
        assert Apart(chains[l], chains[m]);
      }
    }
  }

  lemma OthersStay(chains: seq<seq<int>>, l: nat, x: int)
    requires l < |chains| && chains[l] != [] && x != chains[l][0]
    ensures Listed(chains[l := chains[l][1..]], x) <==> Listed(chains, x)
  {
    var c, cs := chains[l], chains[l := chains[l][1..]];
    assert c == [c[0]] + c[1..];
    assert x in c <==> x in c[1..];
    forall m | 0 <= m < |cs|
      ensures x in cs[m] <==> x in chains[m]
    {
    }
  }

  lemma NewListKeeps(next: seq<int>, heads: seq<Head>, chains: seq<seq<int>>)
    requires Threaded(next, heads, chains)
    ensures Threaded(next, heads + [Head(NO_MORE_ELT, NO_MORE_ELT, true)], chains + [[]])
  {
    var cs := chains + [[]];
    forall x | 0 <= x < |next|
      ensures next[x] == NOT_IN_LIST <==> !Listed(cs, x)
    {
      assert next[x] == NOT_IN_LIST <==> !Listed(chains, x);
      if Listed(chains, x) {
        var l :| 0 <= l < |chains| && x in chains[l];
        assert x in cs[l];
      }
    }
  }

  /** Closing a list that has been emptied. */
  lemma CloseKeeps(next: seq<int>, heads: seq<Head>, chains: seq<seq<int>>, l: nat, h: Head)
    requires Threaded(next, heads, chains) && l < |heads| && chains[l] == [] && !h.alive
    ensures Threaded(next, heads[l := h], chains)
  {
  }

  /** The tags when the first k elements of c have lost theirs. */
  ghost function Untagged(tags: seq<int>, c: seq<int>, k: nat): (r: seq<int>)
    requires k <= |c|
    ensures |r| == |tags|
  {
    seq(|tags|, e requires 0 <= e < |tags| => if e in c[..k] then NO_TAG else tags[e])
  }

  lemma UntaggedMore(tags: seq<int>, c: seq<int>, k: nat)
    requires k < |c| && 0 <= c[k] < |tags|
    ensures Untagged(tags, c, k + 1) == Untagged(tags, c, k)[c[k] := NO_TAG]
  {
    assert c[..k + 1] == c[..k] + [c[k]];
  }

  /** The lists when the first k elements of list l have gone to the free list. */
  ghost function Returned(chains: seq<seq<int>>, l: nat, k: nat): seq<seq<int>>
    requires 0 < l < |chains| && k <= |chains[l]|
  {
    chains[0 := chains[0] + chains[l][..k]][l := chains[l][k..]]
  }

  lemma ReturnedNothing(chains: seq<seq<int>>, l: nat)
    requires l < |chains|
    ensures l != 0 ==> Returned(chains, l, 0) == chains
  {
    assert chains[0] + [] == chains[0];
  }

  lemma ReturnedMore(chains: seq<seq<int>>, l: nat, k: nat)
    requires 0 < l < |chains| && k < |chains[l]|
    ensures var cs := Returned(chains, l, k);
            var ds := cs[l := cs[l][1..]];
            cs[l] != [] && ds[0 := ds[0] + [cs[l][0]]] == Returned(chains, l, k + 1)
  {
    var c := chains[l];
    assert chains[0] + c[..k] + [c[k]] == chains[0] + c[..k + 1];
    assert c[k..][1..] == c[k + 1..];
  }

  // ---------------------------------------------------------------- the lists

  /** A root list with the lists attached to it. chains is what each list holds. */
  class Root {
    const next: array<int>
    const tag: array<int>
    var heads: seq<Head>
    ghost var chains: seq<seq<int>>

    ghost predicate Valid()
      reads this, next
    {
      && (next as object) != tag && next.Length == tag.Length
      && Threaded(next[..], heads, chains)
      && |heads| > 0 && heads[0].alive
    }

    /** Elements are neither lost nor duplicated: whatever has been called, those
        in lists and those checked out add up to all. */
    lemma Conserved()
      requires Valid()
      ensures Total(chains) + |CheckedOut(next[..])| == next.Length
    {
      ElementsAreConserved(next[..], heads, chains);
    }

    lemma ConservedOut()
      requires Valid()
      ensures Total(chains) + |Out(chains, next.Length)| == next.Length
    {
      Conserved();
      assert Out(chains, next.Length) == CheckedOut(next[..]);
    }

    /** Whether the program accepts the call: it asserts that an element that is
        posted is not in a list, and a closed list takes none. */
    predicate Accepts(op: Op)
      reads this, next
    {
      match op
      case New => true
      case Post(l, e) => l < |heads| && heads[l].alive && e < next.Length && next[e] == NOT_IN_LIST
      case Remove(l) => l < |heads|
      case Close(l) => l < |heads|
      case SetTag(e, _) => e < next.Length
    }

    /** __nbd_init_root: all elements are in the free list, in order. */
    constructor (n: nat)
      ensures Valid() && next.Length == n && fresh(next) && fresh(tag)
      ensures |chains| == 1 && |chains[0]| == n && (forall i | 0 <= i < n :: chains[0][i] == i)
    {
      next := new int[n](i => NOT_IN_LIST);
      tag := new int[n](i => NO_TAG);
      heads := [Head(NO_MORE_ELT, NO_MORE_ELT, true)];
      chains := [[]];
      new;
      for i := 0 to n
        invariant Valid() && |chains| == 1 && |chains[0]| == i
        invariant forall j | 0 <= j < i :: chains[0][j] == j
        invariant forall j | i <= j < n :: next[j] == NOT_IN_LIST
      {
        Post(0, i);
      }
    }

    /** __nbd_init_list */
    method InitList() returns (l: nat)
      requires Valid()
      modifies this
      ensures Valid() && l == |old(chains)| && chains == old(chains) + [[]] && heads[l].alive
    {
      NewListKeeps(next[..], heads, chains);
      l := |heads|;
      heads := heads + [Head(NO_MORE_ELT, NO_MORE_ELT, true)];
      chains := chains + [[]];
    }

    /** The body of nbd_list_post. shown is how the heads would be if no list
        was being closed. */
    method Append(l: nat, e: nat, ghost shown: seq<Head>)
      requires (next as object) != tag && next.Length == tag.Length
      requires Threaded(next[..], shown, chains) && l < |heads| == |shown| && heads[l] == shown[l] && heads[l].alive
      requires e < next.Length && next[e] == NOT_IN_LIST
      modifies this, next, tag
      ensures Threaded(next[..], shown[l := PushHead(shown[l], e)], chains)
      ensures chains == old(chains)[l := old(chains)[l] + [e]]
      ensures heads == old(heads)[l := PushHead(old(heads)[l], e)]
      ensures tag[..] == old(tag[..])[e := NO_TAG]
    {
      PostKeeps(next[..], shown, chains, l, e);
      ghost var t := Appended(next[..], chains[l], e);
      FirstTellsEmpty(next[..], shown[l], chains[l]);
      tag[e] := NO_TAG;
      next[e] := NO_MORE_ELT;
      var h := heads[l];
      if h.first == NO_MORE_ELT {
        heads := heads[l := h.(first := e, last := e)];
      } else {
        next[h.last] := e;
        heads := heads[l := h.(last := e)];
      }
      assert next[..] == t;
      chains := chains[l := chains[l] + [e]];
    }

    /** nbd_list_post on a live list: the element goes to the end. */
    method Post(l: nat, e: nat)
      requires Valid() && l < |heads| && heads[l].alive
      requires e < next.Length && next[e] == NOT_IN_LIST
      modifies this, next, tag
      ensures Valid() && chains == old(chains)[l := old(chains)[l] + [e]]
      ensures tag[..] == old(tag[..])[e := NO_TAG]
    {
      Append(l, e, heads);
    }

    /** nbd_list_remove_no_lock: the element at the front is checked out. */
    method Remove(l: nat) returns (r: Option<nat>)
      requires Valid() && l < |heads|
      modifies this, next, tag
      ensures Valid()
      ensures r == None <==> old(chains)[l] == []
      ensures r == None ==> chains == old(chains)
      ensures r.Some? ==> r.value == old(chains)[l][0] && chains == old(chains)[l := old(chains)[l][1..]]
      ensures r.Some? ==> r.value < next.Length
      ensures tag[..] == if r.Some? then old(tag[..])[r.value := NO_TAG] else old(tag[..])
    {
      assert IsChain(next[..], heads[l], chains[l]);
      if heads[l].alive { FirstTellsEmpty(next[..], heads[l], chains[l]); }
      if !heads[l].alive || heads[l].first == NO_MORE_ELT {
        return None;
      }
      RemoveKeeps(next[..], heads, chains, l);
      var e := heads[l].first;
      tag[e] := NO_TAG;
      var h := heads[l].(first := next[e]);
      if h.first == NO_MORE_ELT {
        assert h.last == e;
        h := h.(last := NO_MORE_ELT);
      }
      assert h == PopHead(next[..], heads[l]);
      ghost var t := next[..][e := NOT_IN_LIST];
      next[e] := NOT_IN_LIST;
      assert next[..] == t;
      heads := heads[l := h];
      chains := chains[l := chains[l][1..]];
      r := Some(e);
    }

    /** One turn of the loop of nbd_close_list. */
    method GiveBack(l: nat, find: int, ghost shown: seq<Head>) returns (after: int, ghost rest: seq<Head>)
      requires (next as object) != tag && next.Length == tag.Length
      requires Threaded(next[..], shown, chains) && 0 < l < |heads| == |shown| && heads == shown[l := heads[l]]
      requires heads[0].alive && shown[l].alive && shown[l].first == find && chains[l] != []
      modifies this, next, tag
      ensures |heads| == |shown| == |rest| && heads == rest[l := old(heads)[l]] && heads[0].alive
      ensures Threaded(next[..], rest, chains) && rest[l].alive && rest[l].first == after
      ensures var cs := old(chains)[l := old(chains)[l][1..]]; chains == cs[0 := cs[0] + [old(chains)[l][0]]]
      ensures 0 <= find < next.Length && find == old(chains)[l][0] && tag[..] == old(tag[..])[find := NO_TAG]
    {
      RemoveKeeps(next[..], shown, chains, l);
      after := next[find];
      rest := shown[l := PopHead(next[..], shown[l])];
      ghost var t := next[..][find := NOT_IN_LIST];
      next[find] := NOT_IN_LIST;
      assert next[..] == t;
      chains := chains[l := chains[l][1..]];
      Append(0, find, rest);
      rest := rest[0 := PushHead(rest[0], find)];
    }

    /** nbd_close_list: the elements of the list go to the end of the free list,
        in their order. Neither the free list nor a closed list is affected. */
    method Close(l: nat)
      requires Valid() && l < |heads|
      modifies this, next, tag
      ensures Valid()
      ensures l == 0 ==> chains == old(chains)
      ensures l != 0 ==> |heads| == |old(heads)| && !heads[l].alive && chains == Returned(old(chains), l, |old(chains)[l]|)
      ensures tag[..] == if l == 0 then old(tag[..]) else Untagged(old(tag[..]), old(chains)[l], |old(chains)[l]|)
    {
      ReturnedNothing(chains, l);
      if l == 0 || !heads[l].alive {
        assert IsChain(next[..], heads[l], chains[l]);
        return;
      }
      ghost var c, k, shown := chains[l], 0, heads;
      heads := heads[l := heads[l].(alive := false)];
      var find := heads[l].first;
      assert IsChain(next[..], shown[l], chains[l]);
      while find != NO_MORE_ELT
        invariant 0 <= k <= |c| && |heads| == |chains| == |old(chains)|
        invariant Threaded(next[..], shown, chains)
        invariant chains == Returned(old(chains), l, k)
        invariant shown[l].alive && shown[l].first == find
        invariant !heads[l].alive && heads == shown[l := heads[l]] && heads[0].alive
        invariant tag[..] == Untagged(old(tag[..]), c, k)
        decreases |c| - k
      {
        FirstTellsEmpty(next[..], shown[l], chains[l]);
        ReturnedMore(old(chains), l, k);
        ghost var e := find;
        find, shown := GiveBack(l, find, shown);
        assert e == c[k];
        UntaggedMore(old(tag[..]), c, k);
        k := k + 1;
      }
      assert IsChain(next[..], shown[l], chains[l]);
      FirstTellsEmpty(next[..], shown[l], chains[l]);
      CloseKeeps(next[..], shown, chains, l, heads[l]);
    }

    /** nbd_set_tag */
    method SetTag(e: nat, t: int)
      requires Valid() && e < next.Length
      modifies tag
      ensures Valid() && tag[..] == old(tag[..])[e := t]
    {
      tag[e] := t;
    }

    /** nbd_get_next_by_tag: the checked-out element of the lowest index with
        the tag. */
    method NextByTag(t: int) returns (r: Option<nat>)
      requires Valid()
      ensures r == None <==> forall e | 0 <= e < next.Length :: !(tag[e] == t && next[e] == NOT_IN_LIST)
      ensures r.Some? ==> r.value < next.Length && tag[r.value] == t && next[r.value] == NOT_IN_LIST
      ensures r.Some? ==> forall e | 0 <= e < r.value :: !(tag[e] == t && next[e] == NOT_IN_LIST)
    {
      for e := 0 to next.Length
        invariant forall i | 0 <= i < e :: !(tag[i] == t && next[i] == NOT_IN_LIST)
      {
        if tag[e] == t && next[e] == NOT_IN_LIST {
          return Some(e);
        }
      }
      r := None;
    }
  }

  // ------------------------------------------------------------ runs of calls

  datatype Op =
    | New
    | Post(list: nat, elt: nat)
    | Remove(list: nat)
    | Close(list: nat)
    | SetTag(elt: nat, tag: int)

  /** What a call does to the contents of the lists, and the element it gives. */
  ghost predicate ListStep(chains: seq<seq<int>>, op: Op, r: Option<nat>, after: seq<seq<int>>) {
    match op
    case New => r == None && after == chains + [[]]
    case Post(l, e) => r == None && l < |chains| && !Listed(chains, e) && after == chains[l := chains[l] + [e]]
    case Remove(l) =>
      && l < |chains|
      && if chains[l] == [] then r == None && after == chains
         else r.Some? && r.value == chains[l][0] && after == chains[l := chains[l][1..]]
    case Close(l) =>
      && r == None && l < |chains|
      && after == if l == 0 then chains else Returned(chains, l, |chains[l]|)
    case SetTag(_, _) => r == None && after == chains
  }

  /** The call puts element e into a list or takes it out of one. */
  predicate Moves(chains: seq<seq<int>>, op: Op, r: Option<nat>, e: nat) {
    match op
    case Post(_, x) => x == e
    case Remove(_) => r == Some(e)
    case Close(l) => 0 < l < |chains| && e in chains[l]
    case _ => false
  }

  /** The tag of element e after a call: one that is moved loses its tag. */
  function TagAfter(chains: seq<seq<int>>, op: Op, r: Option<nat>, e: nat, tag: int): int {
    if op.SetTag? && op.elt == e then op.tag else if Moves(chains, op, r, e) then NO_TAG else tag
  }

  ghost predicate TagStep(chains: seq<seq<int>>, op: Op, r: Option<nat>, tags: seq<int>, after: seq<int>) {
    |after| == |tags| && forall e: nat | e < |tags| :: after[e] == TagAfter(chains, op, r, e, tags[e])
  }

  ghost predicate ListRun(states: seq<seq<seq<int>>>, ops: seq<Op>, results: seq<Option<nat>>) {
    && |states| == |ops| + 1 && |results| == |ops|
    && (forall i | 0 <= i < |ops| :: ListStep(states[i], ops[i], results[i], states[i + 1]))
  }

  ghost predicate TagRun(states: seq<seq<seq<int>>>, ops: seq<Op>, results: seq<Option<nat>>, tags: seq<seq<int>>) {
    && |states| == |ops| + 1 && |results| == |ops| && |tags| == |ops| + 1
    && (forall i | 0 <= i < |ops| :: TagStep(states[i], ops[i], results[i], tags[i], tags[i + 1]))
  }

  /** The elements below n that are in no list. */
  ghost function Out(chains: seq<seq<int>>, n: nat): set<int> {
    set e | e in Below(n) && !Listed(chains, e)
  }

  ghost predicate AllConserved(states: seq<seq<seq<int>>>, n: nat) {
    forall i | 0 <= i < |states| :: Total(states[i]) + |Out(states[i], n)| == n
  }

  method Call(root: Root, op: Op) returns (r: Option<nat>)
    requires root.Valid() && root.Accepts(op)
    modifies root, root.next, root.tag
    ensures root.Valid() && ListStep(old(root.chains), op, r, root.chains)
    ensures TagStep(old(root.chains), op, r, old(root.tag[..]), root.tag[..])
  {
    r := None;
    match op {
      case New => var l := root.InitList();
      case Post(l, e) => root.Post(l, e);
      case Remove(l) => r := root.Remove(l);
      case Close(l) => root.Close(l);
      case SetTag(e, t) => root.SetTag(e, t);
    }
  }

  /** Every sequence of calls, up to the first that the program does not accept,
      is one of queues; and after every call the elements in lists and those
      checked out are all the elements, each counted once. */
  method Calls(root: Root, ops: seq<Op>)
    returns (results: seq<Option<nat>>, ghost states: seq<seq<seq<int>>>, ghost tags: seq<seq<int>>)
    requires root.Valid()
    modifies root, root.next, root.tag
    ensures root.Valid() && |results| <= |ops| && ListRun(states, ops[..|results|], results)
    ensures states[0] == old(root.chains) && states[|results|] == root.chains
    ensures |results| < |ops| ==> !root.Accepts(ops[|results|])
    ensures AllConserved(states, root.next.Length)
    ensures TagRun(states, ops[..|results|], results, tags)
    ensures tags[0] == old(root.tag[..]) && tags[|results|] == root.tag[..]
  {
    results, states, tags := [], [root.chains], [root.tag[..]];
    root.ConservedOut();
    var n := 0;
    while n < |ops| && root.Accepts(ops[n])
      invariant root.Valid() && n <= |ops| && |results| == n
      invariant ListRun(states, ops[..n], results)
      invariant states[0] == old(root.chains) && states[n] == root.chains
      invariant AllConserved(states, root.next.Length)
      invariant TagRun(states, ops[..n], results, tags)
      invariant tags[0] == old(root.tag[..]) && tags[n] == root.tag[..]
      decreases |ops| - n
    {
      var r := Call(root, ops[n]);
      root.ConservedOut();
      RunGrows(states, ops, results, n, r, root.chains);
      TagRunGrows(states, ops, results, tags, n, r, root.chains, root.tag[..]);
      results, states, tags, n := results + [r], states + [root.chains], tags + [root.tag[..]], n + 1;
    }
  }

  lemma TagRunGrows(states: seq<seq<seq<int>>>, ops: seq<Op>, results: seq<Option<nat>>, tags: seq<seq<int>>, n: nat,
                    r: Option<nat>, chains: seq<seq<int>>, after: seq<int>)
    requires n < |ops| && TagRun(states, ops[..n], results, tags) && TagStep(states[n], ops[n], r, tags[n], after)
    ensures TagRun(states + [chains], ops[..n + 1], results + [r], tags + [after])
  {
    var ss, os, rs, ts := states + [chains], ops[..n + 1], results + [r], tags + [after];
    forall i | 0 <= i < n + 1
      ensures TagStep(ss[i], os[i], rs[i], ts[i], ts[i + 1])
    {
      if i < n {
        assert TagStep(states[i], ops[..n][i], results[i], tags[i], tags[i + 1]);
      }
    }
  }

  /** Over any calls, an element has the tag that was set last since it was last
      put into a list or taken out of one, and none when there was none. */
  lemma {:induction false} TagsAreOfThisUse(states: seq<seq<seq<int>>>, ops: seq<Op>, results: seq<Option<nat>>,
                                            tags: seq<seq<int>>, e: nat, i: nat, j: nat)
    requires TagRun(states, ops, results, tags) && i < j <= |ops| && e < |tags[0]|
    requires (ops[i].SetTag? && ops[i].elt == e) || Moves(states[i], ops[i], results[i], e)
    requires forall k | i < k < j :: !(ops[k].SetTag? && ops[k].elt == e) && !Moves(states[k], ops[k], results[k], e)
    ensures e < |tags[j]| && tags[j][e] == if ops[i].SetTag? then ops[i].tag else NO_TAG
    decreases j
  {
    TagsKeepLength(states, ops, results, tags, j);
    TagsKeepLength(states, ops, results, tags, j - 1);
    assert TagStep(states[j - 1], ops[j - 1], results[j - 1], tags[j - 1], tags[j]);
    if i < j - 1 {
      TagsAreOfThisUse(states, ops, results, tags, e, i, j - 1);
    }
  }

  lemma {:induction false} TagsKeepLength(states: seq<seq<seq<int>>>, ops: seq<Op>, results: seq<Option<nat>>,
                                          tags: seq<seq<int>>, j: nat)
    requires TagRun(states, ops, results, tags) && j <= |ops|
    ensures |tags[j]| == |tags[0]|
  {
    if j > 0 {
      TagsKeepLength(states, ops, results, tags, j - 1);
      assert TagStep(states[j - 1], ops[j - 1], results[j - 1], tags[j - 1], tags[j]);
    }
  }

  lemma RunGrows(states: seq<seq<seq<int>>>, ops: seq<Op>, results: seq<Option<nat>>, n: nat,
                 r: Option<nat>, chains: seq<seq<int>>)
    requires n < |ops| && ListRun(states, ops[..n], results) && ListStep(states[n], ops[n], r, chains)
    ensures ListRun(states + [chains], ops[..n + 1], results + [r])
  {
    var ss, os, rs := states + [chains], ops[..n + 1], results + [r];
    forall i | 0 <= i < n + 1
      ensures ListStep(ss[i], os[i], rs[i], ss[i + 1])
    {
      if i < n {
        assert ListStep(states[i], ops[..n][i], results[i], states[i + 1]);
      }
    }
  }

  /** What a call adds to list l: closing a list adds its elements to the free
      list. */
  ghost function Gain(chains: seq<seq<int>>, op: Op, l: nat): seq<int> {
    match op
    case Post(k, e) => if k == l then [e] else []
    case Close(k) => if l == 0 && 0 < k < |chains| then chains[k] else []
    case _ => []
  }

  /** What a call takes from list l: closing it takes all its elements. */
  ghost function Loss(chains: seq<seq<int>>, op: Op, r: Option<nat>, l: nat): seq<int> {
    match op
    case Remove(k) => if k == l && r.Some? then [r.value] else []
    case Close(k) => if k == l && 0 < l < |chains| then chains[l] else []
    case _ => []
  }

  /** What calls i to j - 1 add to list l and take from it. */
  ghost function Gains(states: seq<seq<seq<int>>>, ops: seq<Op>, l: nat, i: nat, j: nat): seq<int>
    requires i <= j <= |ops| && |states| == |ops| + 1
  {
    if i == j then [] else Gains(states, ops, l, i, j - 1) + Gain(states[j - 1], ops[j - 1], l)
  }

  ghost function Losses(states: seq<seq<seq<int>>>, ops: seq<Op>, results: seq<Option<nat>>, l: nat, i: nat, j: nat): seq<int>
    requires i <= j <= |ops| == |results| && |states| == |ops| + 1
  {
    if i == j then [] else Losses(states, ops, results, l, i, j - 1) + Loss(states[j - 1], ops[j - 1], results[j - 1], l)
  }

  lemma QueueStep(chains: seq<seq<int>>, op: Op, r: Option<nat>, after: seq<seq<int>>, l: nat)
    requires ListStep(chains, op, r, after) && l < |chains|
    ensures l < |after| && chains[l] + Gain(chains, op, l) == Loss(chains, op, r, l) + after[l]
  {
    if op.Close? && op.list != 0 {
      assert chains[op.list][..|chains[op.list]|] == chains[op.list];
    }
  }

  /** First in, first out, over any calls: what was in a list followed by what is
      added to it is what is taken from it followed by what is left in it. */
  lemma {:induction false} FirstInFirstOut(states: seq<seq<seq<int>>>, ops: seq<Op>, results: seq<Option<nat>>,
                                           l: nat, i: nat, j: nat)
    requires ListRun(states, ops, results) && i <= j <= |ops| && l < |states[i]|
    ensures l < |states[j]|
    ensures states[i][l] + Gains(states, ops, l, i, j) == Losses(states, ops, results, l, i, j) + states[j][l]
    decreases j
  {
    if i < j {
      FirstInFirstOut(states, ops, results, l, i, j - 1);
      var op, r := ops[j - 1], results[j - 1];
      assert ListStep(states[j - 1], op, r, states[j]);
      QueueStep(states[j - 1], op, r, states[j], l);
      Rejoin(states[i][l], Gains(states, ops, l, i, j - 1), Losses(states, ops, results, l, i, j - 1), states[j - 1][l],
             Gain(states[j - 1], op, l), Loss(states[j - 1], op, r, l), states[j][l]);
    }
  }

  lemma Rejoin(a: seq<int>, p: seq<int>, r: seq<int>, b: seq<int>, p': seq<int>, r': seq<int>, c: seq<int>)
    requires a + p == r + b && b + p' == r' + c
    ensures a + (p + p') == (r + r') + c
  {
    calc {
      a + (p + p');
      (a + p) + p';
      (r + b) + p';
      r + (b + p');
      r + (r' + c);
      (r + r') + c;
    }
  }
}
