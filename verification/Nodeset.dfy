/**
 Sets of nodes as two 64-bit cells (common/lib/exa_nodeset.c).
 */
module Nodeset {
  import opened Bits
  import opened Common

  const BITS_PER_CELL := 64

  /** cells[i / 64] has bit i % 64. */
  predicate Has(cells: seq<nat>, n: nat)
    requires |cells| == 2
  {
    n < MAX_NODES && Bit(cells[n / BITS_PER_CELL], n % BITS_PER_CELL)
  }

  ghost predicate IsCells(cells: seq<nat>) {
    |cells| == 2 && Fits(cells[0], BITS_PER_CELL) && Fits(cells[1], BITS_PER_CELL)
  }

  /** The finite set that the cells stand for. */
  ghost function SetOf(cells: seq<nat>): (s: set<nat>)
    requires |cells| == 2
    ensures forall n :: n in s <==> Has(cells, n)
    ensures forall n | n in s :: n < MAX_NODES
  {
    set n: nat | n < MAX_NODES && Has(cells, n)
  }

  /** Two arrays of cells that stand for the same set are equal. */
  lemma SetDetermines(a: seq<nat>, b: seq<nat>)
    requires IsCells(a) && IsCells(b) && SetOf(a) == SetOf(b)
    ensures a == b
  {
    forall k | 0 <= k < 2
      ensures a[k] == b[k]
    {
      forall i: nat | i < BITS_PER_CELL
        ensures Bit(a[k], i) == Bit(b[k], i)
      {
        SameMember(a, b, k, i);
      }
      BitsDetermine(a[k], b[k], BITS_PER_CELL);
    }
  }

  lemma SameMember(a: seq<nat>, b: seq<nat>, k: nat, i: nat)
    requires |a| == 2 && |b| == 2 && SetOf(a) == SetOf(b) && k < 2 && i < BITS_PER_CELL
    ensures Bit(a[k], i) == Bit(b[k], i)
  {
    var n := BITS_PER_CELL * k + i;
    assert n / BITS_PER_CELL == k && n % BITS_PER_CELL == i;
    assert n in SetOf(a) <==> n in SetOf(b);
    assert Has(a, n) <==> Has(b, n);
  }

  lemma OrIsUnion(a: seq<nat>, b: seq<nat>, c: seq<nat>)
    requires |a| == 2 && |b| == 2 && c == [Or(a[0], b[0]), Or(a[1], b[1])]
    ensures SetOf(c) == SetOf(a) + SetOf(b)
  {
    forall n: nat | n < MAX_NODES
      ensures Has(c, n) <==> Has(a, n) || Has(b, n)
    {
      OrBit(a[n / BITS_PER_CELL], b[n / BITS_PER_CELL], n % BITS_PER_CELL);
    }
  }

  lemma AndIsIntersection(a: seq<nat>, b: seq<nat>, c: seq<nat>)
    requires |a| == 2 && |b| == 2 && c == [And(a[0], b[0]), And(a[1], b[1])]
    ensures SetOf(c) == SetOf(a) * SetOf(b)
  {
    forall n: nat | n < MAX_NODES
      ensures Has(c, n) <==> Has(a, n) && Has(b, n)
    {
      AndBit(a[n / BITS_PER_CELL], b[n / BITS_PER_CELL], n % BITS_PER_CELL);
    }
  }

  lemma NotIsComplementSet(b: seq<nat>, c: seq<nat>, n: nat)
    requires |b| == 2 && c == [Not(b[0], BITS_PER_CELL), Not(b[1], BITS_PER_CELL)] && n < MAX_NODES
    ensures Has(c, n) <==> !Has(b, n)
  {
    NotBit(b[n / BITS_PER_CELL], BITS_PER_CELL, n % BITS_PER_CELL);
  }

  lemma AndNotIsDifference(a: seq<nat>, b: seq<nat>, c: seq<nat>)
    requires |a| == 2 && |b| == 2
    requires c == [And(a[0], Not(b[0], BITS_PER_CELL)), And(a[1], Not(b[1], BITS_PER_CELL))]
    ensures SetOf(c) == SetOf(a) - SetOf(b)
  {
    var d := [Not(b[0], BITS_PER_CELL), Not(b[1], BITS_PER_CELL)];
    AndIsIntersection(a, d, c);
    forall n: nat | n < MAX_NODES
      ensures Has(d, n) <==> !Has(b, n)
    {
      NotIsComplementSet(b, d, n);
    }
  }

  lemma SameCell(m: nat, n: nat)
    requires m / BITS_PER_CELL == n / BITS_PER_CELL
    ensures m % BITS_PER_CELL == n % BITS_PER_CELL <==> m == n
  {
  }

  lemma AddedCells(a: seq<nat>, node: nat, b: seq<nat>)
    requires IsCells(a) && node < MAX_NODES
    requires b == a[node / BITS_PER_CELL := Or(a[node / BITS_PER_CELL], Pow2(node % BITS_PER_CELL))]
    ensures IsCells(b) && SetOf(b) == SetOf(a) + {node}
  {
    var k, p := node / BITS_PER_CELL, Pow2(node % BITS_PER_CELL);
    PowFits(node % BITS_PER_CELL, BITS_PER_CELL);
    OrFits(a[k], p, BITS_PER_CELL);
    forall m: nat | m < MAX_NODES
      ensures Has(b, m) <==> Has(a, m) || m == node
    {
      if m / BITS_PER_CELL == k {
        SameCell(m, node);
        SetBit(a[k], node % BITS_PER_CELL, m % BITS_PER_CELL);
      }
    }
  }

  lemma ClearedCell(a: seq<nat>, node: nat, d: nat)
    requires |a| == 2 && node < MAX_NODES
    requires forall i: nat | i < BITS_PER_CELL ::
               Bit(d, i) <==> Bit(a[node / BITS_PER_CELL], i) && i != node % BITS_PER_CELL
    ensures SetOf(a[node / BITS_PER_CELL := d]) == SetOf(a) - {node}
  {
    var b := a[node / BITS_PER_CELL := d];
    forall m: nat | m < MAX_NODES
      ensures Has(b, m) <==> Has(a, m) && m != node
    {
      if m / BITS_PER_CELL == node / BITS_PER_CELL {
        SameCell(m, node);
        assert Bit(d, m % BITS_PER_CELL) <==> Has(b, m);
      }
    }
  }

  lemma DeletedCells(a: seq<nat>, node: nat, d: nat)
    requires IsCells(a) && node < MAX_NODES
    requires d == And(a[node / BITS_PER_CELL], Not(Pow2(node % BITS_PER_CELL), BITS_PER_CELL))
    ensures Fits(d, BITS_PER_CELL)
    ensures SetOf(a[node / BITS_PER_CELL := d]) == SetOf(a) - {node}
  {
    ClearBits(a[node / BITS_PER_CELL], BITS_PER_CELL, node % BITS_PER_CELL, d);
    ClearedCell(a, node, d);
  }

  lemma NoneBelow(s: set<nat>)
    requires forall n | n in s :: n < MAX_NODES
    ensures (forall n: nat | n < MAX_NODES :: n !in s) ==> s == {}
  {
    if s != {} {
      var n :| n in s;
    }
  }

  lemma NothingShared(a: set<nat>, b: set<nat>)
    ensures a !! b <==> a * b == {}
  {
    forall n | n in a && n in b
      ensures n in a * b
    {
    }
  }

  // ------------------------------------------------------------ hexadecimal

  function ToHexOf(cells: seq<nat>): (h: string)
    requires |cells| == 2
    ensures |h| == 32
  {
    Print(cells[1], 16) + Print(cells[0], 16)
  }

  /** exa_nodeset_from_hex, which fails unless there are 32 digits. */
  function FromHexOf(h: string): Option<seq<nat>> {
    if |h| == 32 && IsHex(h) then Some([Scan(h[16..]), Scan(h[..16])]) else None
  }

  /** Parsing what was printed gives the set back. */
  lemma PrintedIsParsed(cells: seq<nat>)
    requires IsCells(cells)
    ensures FromHexOf(ToHexOf(cells)) == Some(cells)
  {
    var high, low := Print(cells[1], 16), Print(cells[0], 16);
    HexIsBits(cells[0], 16);
    HexIsBits(cells[1], 16);
    ScanPrint(cells[0], 16);
    ScanPrint(cells[1], 16);
    JoinIsParsed(high, low);
    assert cells == [cells[0], cells[1]];
  }

  lemma JoinIsParsed(high: string, low: string)
    requires |high| == 16 && |low| == 16 && IsHex(high) && IsHex(low)
    ensures FromHexOf(high + low) == Some([Scan(low), Scan(high)])
  {
    assert (high + low)[..16] == high && (high + low)[16..] == low;
  }

  /** Printing what was parsed gives the text back. */
  lemma ParsedIsPrinted(h: string)
    requires FromHexOf(h).Some?
    ensures IsCells(FromHexOf(h).value) && ToHexOf(FromHexOf(h).value) == h
  {
    HalfIsPrinted(h[16..]);
    HalfIsPrinted(h[..16]);
    assert h == h[..16] + h[16..];
  }

  lemma HalfIsPrinted(h: string)
    requires |h| == 16 && IsHex(h)
    ensures Print(Scan(h), 16) == h && Fits(Scan(h), BITS_PER_CELL)
  {
    PrintScan(h);
    HexIsBits(Scan(h), |h|);
  }

  // ------------------------------------------------------------------ counting

  ghost function MembersBelow(s: set<nat>, k: nat): set<nat> {
    set n | n in s && n < k
  }

  lemma OneMoreBelow(s: set<nat>, k: nat)
    ensures MembersBelow(s, k + 1) == if k in s then MembersBelow(s, k) + {k} else MembersBelow(s, k)
  {
  }

  // ------------------------------------------------------------- enumeration

  predicate Ascending(v: seq<nat>) {
    forall i, j | 0 <= i < j < |v| :: v[i] < v[j]
  }

  /** v lists the members of s, each once, in ascending order. */
  ghost predicate Lists(v: seq<nat>, s: set<nat>) {
    Ascending(v) && forall n :: n in v <==> n in s
  }

  lemma AscendingExtends(v: seq<nat>, n: nat)
    requires Ascending(v) && forall m | m in v :: m < n
    ensures Ascending(v + [n])
  {
    forall i | 0 <= i < |v|
      ensures v[i] < n
    {
      assert v[i] in v;
    }
  }

  /** There is one such list. */
  lemma {:induction false} ListIsUnique(v: seq<nat>, w: seq<nat>, s: set<nat>)
    requires Lists(v, s) && Lists(w, s)
    ensures v == w
    decreases |v|
  {
    SameEmpty(v, w);
    if v != [] {
      assert v[|v| - 1] in v && v[|v| - 1] in w;
      SameLast(v, w);
      var last := v[|v| - 1];
      DropLast(v, s);
      DropLast(w, s);
      ListIsUnique(v[..|v| - 1], w[..|w| - 1], s - {last});
    }
  }

  lemma SameEmpty(v: seq<nat>, w: seq<nat>)
    requires forall n :: n in v <==> n in w
    ensures v == [] <==> w == []
  {
    if v != [] {
      assert v[0] in v && v[0] in w;
    }
    if w != [] {
      assert w[0] in w && w[0] in v;
    }
  }

  lemma SameLast(v: seq<nat>, w: seq<nat>)
    requires Ascending(v) && Ascending(w) && v != [] && w != [] && (forall n :: n in v <==> n in w)
    ensures v[|v| - 1] == w[|w| - 1]
  {
    assert v[|v| - 1] in v && w[|w| - 1] in w;
    var i :| 0 <= i < |w| && w[i] == v[|v| - 1];
    var j :| 0 <= j < |v| && v[j] == w[|w| - 1];
  }

  lemma DropLast(v: seq<nat>, s: set<nat>)
    requires Lists(v, s) && v != []
    ensures Lists(v[..|v| - 1], s - {v[|v| - 1]})
  {
    var rest, last := v[..|v| - 1], v[|v| - 1];
    assert v == rest + [last];
    forall n
      ensures n in rest <==> n in s - {last}
    {
      assert n in v <==> n in rest || n == last;
    }
  }

  // ------------------------------------------------------------ the node set

  class Bitset {
    const cells: array<nat>

    ghost predicate Valid()
      reads this, cells
    {
      cells.Length == 2 && IsCells(cells[..])
    }

    ghost function Members(): set<nat>
      requires Valid()
      reads this, cells
    {
      SetOf(cells[..])
    }

    constructor ()
      ensures Valid() && fresh(cells) && Members() == {}
    {
      cells := new nat[2](i => 0);
      new;
      ZeroFits(BITS_PER_CELL);
      forall n: nat | n < MAX_NODES
        ensures !Has(cells[..], n)
      {
        ZeroHasNoBit(n % BITS_PER_CELL);
      }
    }

    method Add(node: nat)
      requires Valid() && node < MAX_NODES
      modifies cells
      ensures Valid() && Members() == old(Members()) + {node}
    {
      var k := node / BITS_PER_CELL;
      cells[k] := Or(cells[k], Pow2(node % BITS_PER_CELL));
      AddedCells(old(cells[..]), node, cells[..]);
    }

    method Del(node: nat)
      requires Valid() && node < MAX_NODES
      modifies cells
      ensures Valid() && Members() == old(Members()) - {node}
    {
      var k := node / BITS_PER_CELL;
      cells[k] := And(cells[k], Not(Pow2(node % BITS_PER_CELL), BITS_PER_CELL));
      DeletedCells(old(cells[..]), node, cells[k]);
      assert cells[..] == old(cells[..])[k := cells[k]];
    }

    method Contains(node: nat) returns (r: bool)
      requires Valid() && (node < MAX_NODES || node == NO_NODE || node == LOCALHOST)
      ensures r == (node in Members())
    {
      if node == NO_NODE || node == LOCALHOST {
        return false;
      }
      var k, m := node / BITS_PER_CELL, Pow2(node % BITS_PER_CELL);
      MeetsPow(cells[k], node % BITS_PER_CELL);
      r := And(cells[k], m) != 0;
    }

    method IsEmpty() returns (r: bool)
      requires Valid()
      ensures r == (Members() == {})
    {
      for i := 0 to 2
        invariant forall j | 0 <= j < i :: cells[j] == 0
      {
        if cells[i] != 0 {
          EmptyMeansZero(cells[..]);
          return false;
        }
      }
      r := true;
      EmptyMeansZero(cells[..]);
    }

    method Equals(other: Bitset) returns (r: bool)
      requires Valid() && other.Valid()
      ensures r == (Members() == other.Members())
    {
      for i := 0 to 2
        invariant forall j | 0 <= j < i :: cells[j] == other.cells[j]
      {
        if cells[i] != other.cells[i] {
          if Members() == other.Members() { SetDetermines(cells[..], other.cells[..]); }
          return false;
        }
      }
      r := true;
      assert cells[..] == other.cells[..];
    }

    method Sum(from: Bitset)
      requires Valid() && from.Valid()
      modifies cells
      ensures Valid() && Members() == old(Members()) + old(from.Members())
    {
      ghost var a, b := cells[..], from.cells[..];
      for i := 0 to 2
        invariant forall j | 0 <= j < i :: cells[j] == Or(a[j], b[j])
        invariant forall j | i <= j < 2 :: cells[j] == a[j] && from.cells[j] == b[j]
      {
        cells[i] := Or(cells[i], from.cells[i]);
      }
      OrFits(a[0], b[0], BITS_PER_CELL);
      OrFits(a[1], b[1], BITS_PER_CELL);
      OrIsUnion(a, b, cells[..]);
    }

    method Subtract(from: Bitset)
      requires Valid() && from.Valid()
      modifies cells
      ensures Valid() && Members() == old(Members()) - old(from.Members())
    {
      ghost var a, b := cells[..], from.cells[..];
      for i := 0 to 2
        invariant forall j | 0 <= j < i :: cells[j] == And(a[j], Not(b[j], BITS_PER_CELL))
        invariant forall j | i <= j < 2 :: cells[j] == a[j] && from.cells[j] == b[j]
      {
        cells[i] := And(cells[i], Not(from.cells[i], BITS_PER_CELL));
      }
      AndFits(a[0], Not(b[0], BITS_PER_CELL), BITS_PER_CELL);
      AndFits(a[1], Not(b[1], BITS_PER_CELL), BITS_PER_CELL);
      AndNotIsDifference(a, b, cells[..]);
    }

    method Intersect(from: Bitset)
      requires Valid() && from.Valid()
      modifies cells
      ensures Valid() && Members() == old(Members()) * old(from.Members())
    {
      ghost var a, b := cells[..], from.cells[..];
      for i := 0 to 2
        invariant forall j | 0 <= j < i :: cells[j] == And(a[j], b[j])
        invariant forall j | i <= j < 2 :: cells[j] == a[j] && from.cells[j] == b[j]
      {
        cells[i] := And(cells[i], from.cells[i]);
      }
      AndFits(a[0], b[0], BITS_PER_CELL);
      AndFits(a[1], b[1], BITS_PER_CELL);
      AndIsIntersection(a, b, cells[..]);
    }

    method Copy() returns (r: Bitset)
      requires Valid()
      ensures r.Valid() && fresh(r) && fresh(r.cells) && r.Members() == Members()
    {
      r := new Bitset();
      r.cells[0], r.cells[1] := cells[0], cells[1];
      assert r.cells[..] == cells[..];
    }

    method Included(b: Bitset) returns (r: bool)
      requires Valid() && b.Valid()
      ensures r == (Members() <= b.Members())
    {
      var s := Copy();
      s.Intersect(b);
      r := s.Equals(this);
    }

    method Disjoint(b: Bitset) returns (r: bool)
      requires Valid() && b.Valid()
      ensures r == (Members() !! b.Members())
    {
      var s := Copy();
      s.Intersect(b);
      r := s.IsEmpty();
      NothingShared(Members(), b.Members());
    }

    method Count() returns (count: nat)
      requires Valid()
      ensures count == |Members()|
    {
      count := 0;
      assert MembersBelow(Members(), 0) == {};
      for node := 0 to MAX_NODES
        invariant count == |MembersBelow(Members(), node)|
      {
        OneMoreBelow(Members(), node);
        var present := Contains(node);
        if present {
          count := count + 1;
        }
      }
      assert MembersBelow(Members(), MAX_NODES) == Members();
    }

    /** The smallest member that is not less than node, or MAX_NODES. */
    method FirstAt(node: nat) returns (r: nat)
      requires Valid() && node < MAX_NODES
      ensures node <= r <= MAX_NODES && (r < MAX_NODES ==> r in Members())
      ensures forall n: nat | node <= n < r :: n !in Members()
    {
      r := node;
      while r < MAX_NODES
        invariant node <= r <= MAX_NODES
        invariant forall n: nat | node <= n < r :: n !in Members()
      {
        var present := Contains(r);
        if present {
          return;
        }
        r := r + 1;
      }
    }

    /** exa_nodeset_foreach visits the members, each once, in ascending order. */
    method ForEach() returns (visited: seq<nat>)
      requires Valid()
      ensures Lists(visited, Members())
    {
      ghost var s := Members();
      visited := [];
      var node := FirstAt(0);
      while node < MAX_NODES
        invariant node <= MAX_NODES && (node < MAX_NODES ==> node in s)
        invariant s == Members() && Ascending(visited)
        invariant forall n: nat | n in visited :: n in s && n < node
        invariant forall n: nat | n in s && n < node :: n in visited
        decreases MAX_NODES - node
      {
        AscendingExtends(visited, node);
        visited := visited + [node];
        assert forall n: nat | n in s && n <= node :: n in visited by {
          assert visited[|visited| - 1] == node;
        }
        if node + 1 < MAX_NODES {
          node := FirstAt(node + 1);
        } else {
          node := node + 1;
        }
      }
    }

    /** exa_nodeset_iter takes the smallest member out. */
    method Iter() returns (node: Option<nat>)
      requires Valid()
      modifies cells
      ensures Valid()
      ensures node == None <==> old(Members()) == {}
      ensures node == None ==> Members() == {}
      ensures node.Some? ==> node.value in old(Members()) && Members() == old(Members()) - {node.value}
      ensures node.Some? ==> forall n | n in Members() :: node.value < n
    {
      var first := FirstAt(0);
      if first >= MAX_NODES {
        NoneBelow(Members());
        return None;
      }
      Del(first);
      node := Some(first);
    }

    /** A loop over exa_nodeset_iter ends, and visits the members, each once, in
        ascending order. */
    method Iterate() returns (visited: seq<nat>)
      requires Valid()
      modifies cells
      ensures Valid() && Members() == {}
      ensures Lists(visited, old(Members()))
    {
      ghost var s := Members();
      visited := [];
      var more := true;
      while more
        invariant Valid() && (!more ==> Members() == {})
        invariant Ascending(visited)
        invariant forall m, n | m in visited && n in Members() :: m < n
        invariant forall n :: n in s <==> n in visited || n in Members()
        decreases more, Members()
      {
        var next := Iter();
        if next == None {
          more := false;
        } else {
          AscendingExtends(visited, next.value);
          visited := visited + [next.value];
        }
      }
    }

    method ToHex() returns (h: string)
      requires Valid()
      ensures h == ToHexOf(cells[..])
    {
      h := "";
      var i := 2;
      while i > 0
        invariant 0 <= i <= 2
        invariant h == (if i == 2 then "" else if i == 1 then Print(cells[1], 16) else ToHexOf(cells[..]))
      {
        i := i - 1;
        h := h + Print(cells[i], 16);
      }
    }

    method FromHex(h: string) returns (ok: bool)
      requires Valid()
      modifies cells
      ensures Valid() && ok == FromHexOf(h).Some?
      ensures ok ==> cells[..] == FromHexOf(h).value
      ensures !ok ==> cells[..] == old(cells[..])
    {
      if |h| != 32 {
        return false;
      }
      if !IsHex(h) {
        return false;
      }
      var at, i := 0, 2;
      while i > 0
        invariant 0 <= i <= 2 && at == 16 * (2 - i)
        invariant i < 2 ==> cells[1] == Scan(h[..16])
        invariant i < 1 ==> cells[0] == Scan(h[16..])
      {
        i := i - 1;
        assert h[16..32] == h[16..] && h[0..16] == h[..16];
        cells[i] := Scan(h[at..at + 16]);
        at := at + 16;
      }
      ok := true;
      ParsedIsPrinted(h);
      assert cells[..] == [cells[0], cells[1]];
    }
  }

  lemma {:induction false} MeetsPow(c: nat, i: nat)
    ensures And(c, Pow2(i)) != 0 <==> Bit(c, i)
    decreases i
  {
    if i == 0 {
      AndZeroRight(c / 2);
    } else {
      MeetsPow(c / 2, i - 1);
    }
  }

  lemma {:induction false} AndZeroRight(c: nat)
    ensures And(c, 0) == 0
  {
    if c > 0 {
      AndZeroRight(c / 2);
    }
  }

  lemma EmptyMeansZero(cells: seq<nat>)
    requires IsCells(cells)
    ensures SetOf(cells) == {} <==> cells[0] == 0 && cells[1] == 0
  {
    forall n: nat | n < MAX_NODES
      ensures !Has([0, 0], n)
    {
      ZeroHasNoBit(n % BITS_PER_CELL);
    }
    assert SetOf([0, 0]) == {};
    ZeroFits(BITS_PER_CELL);
    assert cells[0] == 0 && cells[1] == 0 ==> cells == [0, 0];
    if SetOf(cells) == {} {
      SetDetermines(cells, [0, 0]);
    }
  }
}
