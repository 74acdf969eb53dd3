/**
 The incremental checksum (common/lib/checksum.c): the one's-complement sum of
 section 1 of RFC 1071 over little-endian 16-bit words, in a 32-bit sum.
 */
module Checksum {
  import opened Common

  const WORD_MAX := 0xFFFF
  const TWO_32 := 0x1_0000_0000

  function Word(a: Byte, b: Byte): nat {
    a + 256 * b
  }

  /** The unbounded sum of the complete words of s. */
  function WordSum(s: seq<Byte>): nat {
    if |s| < 2 then 0 else Word(s[0], s[1]) + WordSum(s[2..])
  }

  function Padded(s: seq<Byte>): seq<Byte> {
    if |s| % 2 == 0 then s else s + [0]
  }

  /** The value of x in 32 bits: whole multiples of 2^32 are dropped. */
  function Low32(x: nat): (r: nat)
    ensures r < TWO_32
  {
    if x < TWO_32 then x else Low32(x - TWO_32)
  }

  lemma {:induction false} Low32IsRemainder(x: nat)
    ensures Low32(x) == x % TWO_32
  {
    if x >= TWO_32 {
      Low32IsRemainder(x - TWO_32);
    }
  }

  /** The loop that adds the carries back. */
  function Fold(sum: nat): nat {
    if sum / 0x10000 == 0 then sum else Fold(sum % 0x10000 + sum / 0x10000)
  }

  /** exa_checksum, of a whole buffer. */
  function Value(s: seq<Byte>): int {
    if s == [] then 0 else WORD_MAX - Fold(Low32(WordSum(Padded(s))))
  }

  // ---------------------------------------------------------------- arithmetic

  /** Folding keeps the remainder by 65535, and only zero folds to zero. */
  lemma {:induction false} FoldIsRemainder(sum: nat)
    ensures Fold(sum) == if sum == 0 then 0 else 1 + (sum - 1) % WORD_MAX
  {
    if sum / 0x10000 != 0 {
      var q, r := sum / 0x10000, sum % 0x10000;
      FoldIsRemainder(r + q);
      SameRemainder(r + q - 1, q);
    }
  }

  lemma SameRemainder(a: nat, q: nat)
    ensures (a + WORD_MAX * q) % WORD_MAX == a % WORD_MAX
    decreases q
  {
    if q > 0 {
      SameRemainder(a, q - 1);
      assert a + WORD_MAX * q == a + WORD_MAX * (q - 1) + WORD_MAX;
    }
  }

  lemma {:induction false} Low32Later(x: nat, y: nat)
    ensures Low32(Low32(x) + y) == Low32(x + y)
    decreases x
  {
    if x >= TWO_32 {
      Low32Later(x - TWO_32, y);
    }
  }

  lemma {:induction false} WordSumSplits(a: seq<Byte>, b: seq<Byte>)
    requires |a| % 2 == 0
    ensures WordSum(a + b) == WordSum(a) + WordSum(b)
  {
    if a == [] {
      assert a + b == b;
    } else {
      WordSumSplits(a[2..], b);
      assert (a + b)[2..] == a[2..] + b;
    }
  }

  lemma {:induction false} WordSumBound(s: seq<Byte>)
    ensures WordSum(s) <= |s| / 2 * WORD_MAX
  {
    if |s| >= 2 {
      WordSumBound(s[2..]);
    }
  }

  lemma FoldIsMax(sum: nat)
    ensures Fold(sum) == WORD_MAX <==> sum != 0 && sum % WORD_MAX == 0
    ensures 0 <= Fold(sum) <= WORD_MAX
  {
    FoldIsRemainder(sum);
    if sum > 0 {
      var k, r := (sum - 1) / WORD_MAX, (sum - 1) % WORD_MAX;
      assert sum == r + 1 + WORD_MAX * k;
      SameRemainder(r + 1, k);
    }
  }

  /** The check value is zero exactly when the sum is a multiple of 65535 other
      than zero. */
  lemma ZeroMeansMultiple(s: seq<Byte>)
    requires s != []
    ensures var sum := Low32(WordSum(Padded(s)));
            Value(s) == 0 <==> sum != 0 && sum % WORD_MAX == 0
    ensures 0 <= Value(s) <= WORD_MAX
  {
    FoldIsMax(Low32(WordSum(Padded(s))));
  }

  // -------------------------------------------------------------- self-checking

  /** s with the word at position at replaced. */
  function Store(s: seq<Byte>, at: nat, w: nat): seq<Byte>
    requires at + 1 < |s| && w <= WORD_MAX
  {
    s[at := w % 256][at + 1 := w / 256]
  }

  function WordAt(s: seq<Byte>, at: nat): nat
    requires at + 1 < |s|
  {
    Word(s[at], s[at + 1])
  }

  lemma StoreChangesSum(s: seq<Byte>, at: nat, w: nat)
    requires at % 2 == 0 && at + 1 < |s| && w <= WORD_MAX
    ensures WordSum(Padded(Store(s, at, w))) == WordSum(Padded(s)) - WordAt(s, at) + w
  {
    var p, q := Padded(s), Padded(Store(s, at, w));
    assert p == p[..at] + p[at..];
    assert q == p[..at] + q[at..];
    WordSumSplits(p[..at], p[at..]);
    WordSumSplits(p[..at], q[at..]);
    assert p[at..][2..] == q[at..][2..];
  }

  lemma StoredSum(sum: nat)
    requires sum < TWO_32
    ensures var t := sum + WORD_MAX - Fold(sum);
            0 < t < TWO_32 && t % WORD_MAX == 0
  {
    FoldIsRemainder(sum);
    if sum > 0 {
      var k := (sum - 1) / WORD_MAX;
      assert sum + WORD_MAX - Fold(sum) == WORD_MAX * (k + 1);
      assert k <= 65536;
    }
  }

  lemma Low32Sum(sum: nat, c: nat)
    requires Low32(sum) + c < TWO_32
    ensures Low32(sum + c) == Low32(sum) + c
  {
    Low32Later(sum, c);
  }

  /** A buffer that holds its checksum in an aligned field, which was zero when
      the checksum was computed, has checksum zero. This holds for buffers of
      any size, even or odd, and when the 32-bit sum wraps around. */
  lemma StoredChecksumChecks(s: seq<Byte>, at: nat)
    requires at % 2 == 0 && at + 1 < |s| && WordAt(s, at) == 0
    ensures 0 <= Value(s) <= WORD_MAX
    ensures Value(Store(s, at, Value(s))) == 0
  {
    ZeroMeansMultiple(s);
    SumBecomesMultiple(WordSum(Padded(s)), Value(s));
    StoreChangesSum(s, at, Value(s));
    ZeroMeansMultiple(Store(s, at, Value(s)));
  }

  lemma SumBecomesMultiple(sum: nat, c: nat)
    requires c == WORD_MAX - Fold(Low32(sum))
    ensures Low32(sum + c) != 0 && Low32(sum + c) % WORD_MAX == 0
  {
    Low32IsRemainder(sum);
    StoredSum(Low32(sum));
    Low32Sum(sum, c);
  }

  lemma MultiplesApart(a: nat, b: nat, v: nat, w: nat)
    requires a % WORD_MAX == 0 && b % WORD_MAX == 0 && b == a - v + w
    requires v <= WORD_MAX && w <= WORD_MAX && v != w
    ensures (v == 0 && w == WORD_MAX) || (v == WORD_MAX && w == 0)
  {
    var i, j := a / WORD_MAX, b / WORD_MAX;
    assert WORD_MAX * (j - i) == w - v;
  }

  lemma NoWrap(s: seq<Byte>)
    requires |s| <= 131074
    ensures Low32(WordSum(Padded(s))) == WordSum(Padded(s))
  {
    WordSumBound(Padded(s));
  }

  lemma ChangedSum(a: nat, v: nat, w: nat)
    requires v <= a && v <= WORD_MAX && w <= WORD_MAX && v != w && a != 0 && a % WORD_MAX == 0
    ensures var b := a - v + w;
            b != 0 && b % WORD_MAX == 0 <==> (v == 0 && w == WORD_MAX) || (v == WORD_MAX && w == 0 && a != WORD_MAX)
  {
    var b := a - v + w;
    if b % WORD_MAX == 0 {
      MultiplesApart(a, b, v, w);
    }
    if v == 0 && w == WORD_MAX {
      SameRemainder(a, 1);
    }
    if v == WORD_MAX && w == 0 {
      SameRemainder(b, 1);
    }
  }

  /** In a buffer of at most 131074 bytes, where the sum cannot wrap around, and
      that has checksum zero, a change of one aligned word goes unnoticed if and
      only if it is from 0 to 65535, or back in a buffer with other words that
      are not zero. */
  lemma WordChangeIsUnseenIff(s: seq<Byte>, at: nat, w: nat)
    requires at % 2 == 0 && at + 1 < |s| <= 131074 && w <= WORD_MAX && w != WordAt(s, at) && Value(s) == 0
    ensures Value(Store(s, at, w)) == 0 <==>
            (WordAt(s, at) == 0 && w == WORD_MAX) || (WordAt(s, at) == WORD_MAX && w == 0 && WordSum(Padded(s)) != WORD_MAX)
  {
    StoreChangesSum(s, at, 0);
    StoreChangesSum(s, at, w);
    NoWrap(s);
    NoWrap(Store(s, at, w));
    ZeroMeansMultiple(s);
    ZeroMeansMultiple(Store(s, at, w));
    ChangedSum(WordSum(Padded(s)), WordAt(s, at), w);
  }

  // -------------------------------------------------------------- the context

  /** A checksumming context; contents is what it has been fed. */
  class Context {
    var totalSize: nat
    var latchedByte: Byte
    var latched: bool
    var sum: nat
    ghost var contents: seq<Byte>

    ghost predicate Valid()
      reads this
    {
      && totalSize == |contents|
      && latched == (|contents| % 2 == 1)
      && (latched ==> latchedByte == contents[|contents| - 1])
      && sum == Low32(WordSum(Whole(contents)))
    }

    /** checksum_reset */
    constructor ()
      ensures Valid() && contents == []
    {
      totalSize, latchedByte, latched, sum := 0, 0, false, 0;
      contents := [];
    }

    static method AddPair(sum: nat, a: Byte, b: Byte) returns (r: nat)
      ensures r == Low32(sum + Word(a, b))
    {
      Low32IsRemainder(sum + Word(a, b));
      r := (sum + (a + 256 * b)) % TWO_32;
    }

    /** __chksum_array, on the size bytes from position at. */
    static method AddArray(sum: nat, buf: array<Byte>, at: nat, size: nat) returns (r: nat)
      requires at + size <= buf.Length && sum < TWO_32
      ensures r == Low32(sum + WordSum(buf[..][at..at + size - size % 2]))
    {
      var n := if size % 2 != 0 then size - 1 else size;
      ghost var s, k := buf[..], 0;
      ghost var words := size / 2;
      assert n == 2 * words && n == size - size % 2;
      var i := 0;
      r := sum;
      while i < n
        invariant i == 2 * k && 0 <= k <= words
        invariant r == SumOfWords(sum, s, at, k)
      {
        OneMoreWord(sum, s, at, k);
        r := AddPair(r, buf[at + i], buf[at + i + 1]);
        i := i + 2;
        k := k + 1;
      }
    }

    /** The new sum when a byte is latched: it makes a word with the first. */
    method SumAfterLatch(buf: array<Byte>) returns (r: nat)
      requires Valid() && latched && buf.Length > 0
      ensures r == Low32(WordSum(Whole(contents + buf[..])))
    {
      var size := buf.Length;
      var n := if size % 2 == 0 then size - 2 else size - 1;
      var first := AddPair(sum, latchedByte, buf[0]);
      r := AddArray(first, buf, 1, n);
      LatchedSum(contents, buf[..], n);
      Low32Twice(WordSum(Whole(contents)), Word(latchedByte, buf[0]), WordSum(buf[..][1..1 + n]));
    }

    /** The new sum when no byte is latched. */
    method SumAfterWords(buf: array<Byte>) returns (r: nat)
      requires Valid() && !latched && buf.Length > 0
      ensures r == Low32(WordSum(Whole(contents + buf[..])))
    {
      var size := buf.Length;
      var n := if size % 2 == 0 then size else size - 1;
      r := AddArray(sum, buf, 0, n);
      AlignedSum(contents, buf[..], n);
      Low32Later(WordSum(Whole(contents)), WordSum(buf[..][0..n]));
    }

    /** checksum_feed */
    method Feed(buf: array<Byte>)
      requires Valid()
      modifies this
      ensures Valid() && contents == old(contents) + buf[..]
    {
      var size := buf.Length;
      if size == 0 {
        assert contents == contents + buf[..];
        return;
      }
      ghost var joined := contents + buf[..];
      ParityAdds(|contents|, size);
      assert joined[|joined| - 1] == buf[size - 1];
      if latched {
        sum := SumAfterLatch(buf);
      } else {
        sum := SumAfterWords(buf);
      }
      if latched == (size % 2 == 0) {
        latchedByte := buf[size - 1];
        latched := true;
      } else {
        latched := false;
      }
      totalSize := totalSize + size;
      contents := joined;
    }

    /** The loop of checksum_get_value. */
    static method AddCarries(sum: nat) returns (r: nat)
      ensures r == Fold(sum)
    {
      r := sum;
      while r / 0x10000 != 0
        invariant Fold(r) == Fold(sum)
        decreases r
      {
        FoldStops(r);
        r := r % 0x10000 + r / 0x10000;
      }
    }

    /** The sum with a padding zero; the program asserts that a byte is latched
        when the size is odd. */
    method PaddedTotal() returns (r: nat)
      requires Valid()
      ensures r == Low32(WordSum(Padded(contents)))
    {
      if totalSize % 2 != 0 {
        assert latched;
        r := AddPair(sum, latchedByte, 0);
        PaddedSum(contents);
        Low32Later(WordSum(Whole(contents)), Word(latchedByte, 0));
      } else {
        r := sum;
        assert Whole(contents) == Padded(contents);
      }
    }

    /** checksum_get_value */
    method GetValue() returns (r: int)
      requires Valid()
      ensures r == Value(contents)
    {
      if totalSize == 0 {
        return 0;
      }
      var total := PaddedTotal();
      var folded := AddCarries(total);
      r := WORD_MAX - folded;
    }
  }

  /** However a buffer is cut into pieces, feeding the pieces one by one gives
      the checksum of the whole. */
  method ChecksumOfPieces(pieces: seq<array<Byte>>) returns (r: int)
    ensures r == Value(Joined(pieces, |pieces|))
  {
    var ctx := new Context();
    for i := 0 to |pieces|
      invariant ctx.Valid() && ctx.contents == Joined(pieces, i) && fresh(ctx)
    {
      ctx.Feed(pieces[i]);
    }
    r := ctx.GetValue();
  }

  ghost function Joined(pieces: seq<array<Byte>>, n: nat): seq<Byte>
    requires n <= |pieces|
    reads pieces
  {
    if n == 0 then [] else Joined(pieces, n - 1) + pieces[n - 1][..]
  }

  lemma ParityAdds(a: nat, b: nat)
    ensures (a + b) % 2 == 1 <==> (a % 2 == 1) != (b % 2 == 1)
  {
  }

  lemma AlignedSum(c: seq<Byte>, d: seq<Byte>, n: nat)
    requires |c| % 2 == 0 && n == (if |d| % 2 == 0 then |d| else |d| - 1)
    ensures n % 2 == 0
    ensures WordSum(Whole(c + d)) == WordSum(Whole(c)) + WordSum(d[0..n])
  {
    FedAfterWords(c, d);
    assert d[0..n] == Whole(d);
  }

  lemma LatchedSum(c: seq<Byte>, d: seq<Byte>, n: nat)
    requires |c| % 2 == 1 && d != [] && n == (if |d| % 2 == 0 then |d| - 2 else |d| - 1)
    ensures n % 2 == 0
    ensures WordSum(Whole(c + d)) == WordSum(Whole(c)) + Word(c[|c| - 1], d[0]) + WordSum(d[1..1 + n])
  {
    FedAfterLatch(c, d);
    assert d[1..1 + n] == Whole(d[1..]);
  }

  lemma FoldStops(sum: nat)
    ensures sum / 0x10000 != 0 ==> sum % 0x10000 + sum / 0x10000 < sum
  {
  }

  lemma Low32Twice(x: nat, y: nat, z: nat)
    ensures Low32(Low32(Low32(x) + y) + z) == Low32(x + y + z)
  {
    Low32Later(x, y);
    Low32Later(x + y, z);
  }

  lemma PaddedSum(s: seq<Byte>)
    requires |s| % 2 == 1
    ensures WordSum(Padded(s)) == WordSum(Whole(s)) + Word(s[|s| - 1], 0)
  {
    FedAfterLatch(s, [0]);
    assert Whole(s + [0]) == Padded(s);
    assert [0][1..] == [];
  }

  /** The sum after the first k words from position at. */
  ghost function SumOfWords(sum: nat, s: seq<Byte>, at: nat, k: nat): nat
    requires at + 2 * k <= |s|
  {
    Low32(sum + WordSum(s[at..at + 2 * k]))
  }

  lemma OneMoreWord(sum: nat, s: seq<Byte>, at: nat, k: nat)
    requires at + 2 * k + 2 <= |s|
    ensures SumOfWords(sum, s, at, k + 1) == Low32(SumOfWords(sum, s, at, k) + Word(s[at + 2 * k], s[at + 2 * k + 1]))
  {
    WordSumGrows(s, at, 2 * k);
    Low32Later(sum + WordSum(s[at..at + 2 * k]), Word(s[at + 2 * k], s[at + 2 * k + 1]));
  }

  lemma WordSumGrows(s: seq<Byte>, at: nat, i: nat)
    requires i % 2 == 0 && at + i + 2 <= |s|
    ensures WordSum(s[at..at + i + 2]) == WordSum(s[at..at + i]) + Word(s[at + i], s[at + i + 1])
  {
    var w := [s[at + i], s[at + i + 1]];
    assert s[at..at + i + 2] == s[at..at + i] + w;
    WordSumSplits(s[at..at + i], w);
    assert WordSum(w) == Word(w[0], w[1]) + WordSum(w[2..]);
  }

  /** The complete words of s. */
  function Whole(s: seq<Byte>): seq<Byte> {
    s[..|s| - |s| % 2]
  }

  lemma FedAfterWords(c: seq<Byte>, d: seq<Byte>)
    requires |c| % 2 == 0
    ensures WordSum(Whole(c + d)) == WordSum(Whole(c)) + WordSum(Whole(d))
  {
    assert Whole(c + d) == Whole(c) + Whole(d);
    WordSumSplits(Whole(c), Whole(d));
  }

  lemma FedAfterLatch(c: seq<Byte>, d: seq<Byte>)
    requires |c| % 2 == 1 && d != []
    ensures WordSum(Whole(c + d)) == WordSum(Whole(c)) + Word(c[|c| - 1], d[0]) + WordSum(Whole(d[1..]))
  {
    var e := c + [d[0]];
    assert c + d == e + d[1..];
    FedAfterWords(e, d[1..]);
    assert Whole(e) == e && e[0..|c| + 1] == e && e[0..|c| - 1] == Whole(c);
    WordSumGrows(e, 0, |c| - 1);
  }
}
