/**
 Sixteen-bit sequence numbers of the multicast protocol (examsgd/network.c).
 Messages of a sender are numbered without bound; the wire carries the number
 modulo 65536.
 */
module SequenceNumbers {

  const MODULUS := 0x10000

  /** mseq_t */
  type Mseq = n: nat | n < MODULUS

  function Wrap(n: int): Mseq {
    n % MODULUS
  }

  function Abs(n: int): nat {
    if n < 0 then -n else n
  }

  predicate Far(a: Mseq, b: Mseq) {
    Abs(a - b) > 32767
  }

  /** mseq_after */
  predicate After(a: Mseq, b: Mseq) {
    (a - b > 0) != Far(a, b)
  }

  /** mseq_after_eq */
  predicate AfterEq(a: Mseq, b: Mseq) {
    (a - b >= 0) != Far(a, b)
  }

  /** mseq_before */
  predicate Before(a: Mseq, b: Mseq) {
    After(b, a)
  }

  /** mseq_dist */
  function Dist(a: Mseq, b: Mseq): nat {
    var x: int := if Before(a, b) then a else b;
    var y: int := if Before(a, b) then b else a;
    if x <= y then y - x else y + 0xFFFF - x + 1
  }

  /** Two numbers are near when the wire can tell their order. */
  predicate Near(x: int, y: int) {
    -32767 <= x - y <= 32767
  }

  lemma WrapDifference(x: int, y: int)
    requires Near(x, y)
    ensures var d := Wrap(x) - Wrap(y); d == x - y || d == x - y + MODULUS || d == x - y - MODULUS
  {
    var p, q := x / MODULUS, y / MODULUS;
    assert x == MODULUS * p + Wrap(x) && y == MODULUS * q + Wrap(y);
    assert -1 <= p - q <= 1;
  }

  /** Wrapping order. On near numbers the comparisons on the wire and the
      distance agree with the integers. */
  lemma OrderAgrees(x: int, y: int)
    requires Near(x, y)
    ensures After(Wrap(x), Wrap(y)) <==> x > y
    ensures Before(Wrap(x), Wrap(y)) <==> x < y
    ensures AfterEq(Wrap(x), Wrap(y)) <==> x >= y
    ensures Dist(Wrap(x), Wrap(y)) == Abs(x - y)
    ensures Wrap(x) == Wrap(y) <==> x == y
  {
    WrapDifference(x, y);
    WrapDifference(y, x);
  }

  /** Numbers less than a whole turn apart differ on the wire. */
  lemma WrapDiffers(x: int, y: int)
    requires -MODULUS < x - y < MODULUS && x != y
    ensures Wrap(x) != Wrap(y)
  {
    var p, q := x / MODULUS, y / MODULUS;
    assert x == MODULUS * p + Wrap(x) && y == MODULUS * q + Wrap(y);
  }

  lemma WrapSum(x: int, n: int)
    ensures Wrap(Wrap(x) + n) == Wrap(x + n)
  {
    var p := x / MODULUS;
    assert Wrap(x) + n == x + n - MODULUS * p;
    ModShift(x + n, p);
  }

  lemma ModShift(x: int, p: int)
    ensures (x - MODULUS * p) % MODULUS == x % MODULUS
  {
    var q := x / MODULUS;
    assert x - MODULUS * p == MODULUS * (q - p) + x % MODULUS;
  }

  /** What checkseq makes of a message. */
  datatype Class = InSequence | Duplicate | Lost | Fatal

  /** checkseq: count is the number on the wire, last the last one received,
      ring the number of messages the sender keeps. */
  function Classify(count: Mseq, last: Mseq, ring: nat): Class {
    if Dist(count, last) == 1 && Before(last, count) then InSequence
    else if Before(count, Wrap(last + 1)) then Duplicate
    else if Before(count, Wrap(last + ring)) then Lost
    else Fatal
  }

  /** The classes of checkseq are the ranges of integers meant, for every
      message in the window of 65534 numbers around the last one received. */
  lemma ClassesAreRanges(n: int, last: int, ring: nat)
    requires -32766 <= n - last <= 32767 && 1 <= ring <= 32767
    ensures Classify(Wrap(n), Wrap(last), ring) ==
            if n == last + 1 then InSequence
            else if n <= last then Duplicate
            else if n < last + ring then Lost
            else Fatal
  {
    OrderAgrees(n, last);
    OrderAgrees(last, n);
    WrapSum(last, 1);
    WrapSum(last, ring);
    OrderAgrees(n, last + 1);
    if n > last {
      OrderAgrees(n, last + ring);
    }
  }
}
