/**
 The unsigned 64-bit cells of a node set: the bits of a number, the operations
 |, & and ~ bit by bit, and hexadecimal digits.
 */
module Bits {

  /** 1ull << i */
  function Pow2(i: nat): (p: nat)
    ensures p > 0
  {
    if i == 0 then 1 else 2 * Pow2(i - 1)
  }

  predicate Bit(c: nat, i: nat) {
    if i == 0 then c % 2 == 1 else Bit(c / 2, i - 1)
  }

  /** c has no bit from n on. */
  predicate Fits(c: nat, n: nat) {
    if n == 0 then c == 0 else Fits(c / 2, n - 1)
  }

  lemma {:induction false} FitsIsBound(c: nat, n: nat)
    ensures Fits(c, n) <==> c < Pow2(n)
    decreases n
  {
    if n > 0 {
      FitsIsBound(c / 2, n - 1);
    }
  }

  function Or(c: nat, d: nat): nat {
    if c == 0 && d == 0 then 0
    else (if c % 2 == 1 || d % 2 == 1 then 1 else 0) + 2 * Or(c / 2, d / 2)
  }

  function And(c: nat, d: nat): nat {
    if c == 0 && d == 0 then 0
    else (if c % 2 == 1 && d % 2 == 1 then 1 else 0) + 2 * And(c / 2, d / 2)
  }

  /** The complement of c in n bits. */
  function Not(c: nat, n: nat): nat {
    if n == 0 then 0 else 1 - c % 2 + 2 * Not(c / 2, n - 1)
  }

  lemma {:induction false} ZeroHasNoBit(i: nat)
    ensures !Bit(0, i)
  {
    if i > 0 {
      ZeroHasNoBit(i - 1);
    }
  }

  lemma {:induction false} OrBit(c: nat, d: nat, i: nat)
    ensures Bit(Or(c, d), i) <==> Bit(c, i) || Bit(d, i)
    decreases i
  {
    if c == 0 && d == 0 {
      ZeroHasNoBit(i);
    } else if i > 0 {
      OrBit(c / 2, d / 2, i - 1);
    }
  }

  lemma {:induction false} AndBit(c: nat, d: nat, i: nat)
    ensures Bit(And(c, d), i) <==> Bit(c, i) && Bit(d, i)
    decreases i
  {
    if c == 0 && d == 0 {
      ZeroHasNoBit(i);
    } else if i > 0 {
      AndBit(c / 2, d / 2, i - 1);
    }
  }

  lemma {:induction false} NotBit(c: nat, n: nat, i: nat)
    requires i < n
    ensures Bit(Not(c, n), i) <==> !Bit(c, i)
    decreases i
  {
    if i > 0 {
      NotBit(c / 2, n - 1, i - 1);
    }
  }

  lemma {:induction false} PowBit(i: nat, j: nat)
    ensures Bit(Pow2(i), j) <==> i == j
    decreases i
  {
    if i == 0 {
      if j > 0 { ZeroHasNoBit(j - 1); }
    } else if j > 0 {
      PowBit(i - 1, j - 1);
    }
  }

  lemma SetBit(c: nat, i: nat, j: nat)
    ensures Bit(Or(c, Pow2(i)), j) <==> Bit(c, j) || i == j
  {
    OrBit(c, Pow2(i), j);
    PowBit(i, j);
  }

  lemma ClearBit(c: nat, n: nat, i: nat, j: nat)
    requires j < n
    ensures Bit(And(c, Not(Pow2(i), n)), j) <==> Bit(c, j) && i != j
  {
    AndBit(c, Not(Pow2(i), n), j);
    NotBit(Pow2(i), n, j);
    PowBit(i, j);
  }

  lemma {:induction false} OrFits(c: nat, d: nat, n: nat)
    requires Fits(c, n) && Fits(d, n)
    ensures Fits(Or(c, d), n)
    decreases n
  {
    if n > 0 {
      OrFits(c / 2, d / 2, n - 1);
    }
  }

  lemma {:induction false} AndFits(c: nat, d: nat, n: nat)
    requires Fits(c, n)
    ensures Fits(And(c, d), n)
    decreases n
  {
    if n > 0 {
      AndFits(c / 2, d / 2, n - 1);
    } else {
      AndZero(d);
    }
  }

  lemma {:induction false} AndZero(d: nat)
    ensures And(0, d) == 0
  {
    if d > 0 {
      AndZero(d / 2);
    }
  }

  lemma ClearBits(c: nat, n: nat, i: nat, d: nat)
    requires Fits(c, n) && d == And(c, Not(Pow2(i), n))
    ensures Fits(d, n) && forall j: nat | j < n :: Bit(d, j) <==> Bit(c, j) && i != j
  {
    AndFits(c, Not(Pow2(i), n), n);
    forall j: nat | j < n
      ensures Bit(d, j) <==> Bit(c, j) && i != j
    {
      ClearBit(c, n, i, j);
    }
  }

  /** The complement is what the two's complement machine computes for ~c. */
  lemma {:induction false} NotIsComplement(c: nat, n: nat)
    requires c < Pow2(n)
    ensures Not(c, n) == Pow2(n) - 1 - c
    decreases n
  {
    if n > 0 {
      NotIsComplement(c / 2, n - 1);
    }
  }

  lemma {:induction false} PowFits(i: nat, n: nat)
    requires i < n
    ensures Fits(Pow2(i), n)
    decreases n
  {
    if i > 0 {
      PowFits(i - 1, n - 1);
    } else {
      ZeroFits(n - 1);
    }
  }

  lemma {:induction false} ZeroFits(n: nat)
    ensures Fits(0, n)
  {
    if n > 0 {
      ZeroFits(n - 1);
    }
  }

  /** A cell is determined by its bits. */
  lemma {:induction false} BitsDetermine(c: nat, d: nat, n: nat)
    requires Fits(c, n) && Fits(d, n)
    requires forall i | 0 <= i < n :: Bit(c, i) == Bit(d, i)
    ensures c == d
    decreases n
  {
    if n > 0 {
      assert Bit(c, 0) == Bit(d, 0);
      forall i: nat | i < n - 1
        ensures Bit(c / 2, i) == Bit(d / 2, i)
      {
        HalfBit(c, i);
        HalfBit(d, i);
      }
      BitsDetermine(c / 2, d / 2, n - 1);
    }
  }

  lemma HalfBit(c: nat, i: nat)
    ensures Bit(c / 2, i) == Bit(c, i + 1)
  {
  }

  // -------------------------------------------------------------- hexadecimal

  predicate IsHexChar(ch: char) {
    '0' <= ch <= '9' || 'a' <= ch <= 'f'
  }

  function HexChar(d: nat): (ch: char)
    requires d < 16
    ensures IsHexChar(ch)
  {
    if d < 10 then (d + '0' as nat) as char else (d - 10 + 'a' as nat) as char
  }

  function Digit(ch: char): (d: nat)
    requires IsHexChar(ch)
    ensures d < 16 && HexChar(d) == ch
  {
    if ch <= '9' then ch as nat - '0' as nat else ch as nat - 'a' as nat + 10
  }

  lemma DigitOf(d: nat)
    requires d < 16
    ensures Digit(HexChar(d)) == d
  {
  }

  function Pow16(n: nat): nat {
    if n == 0 then 1 else 16 * Pow16(n - 1)
  }

  /** What "%0nllx" prints for a number of n digits. */
  function Print(c: nat, n: nat): (h: string)
    ensures |h| == n
  {
    if n == 0 then [] else Print(c / 16, n - 1) + [HexChar(c % 16)]
  }

  predicate IsHex(h: string) {
    forall i | 0 <= i < |h| :: IsHexChar(h[i])
  }

  /** The number that the digits h denote. */
  function Scan(h: string): nat
    requires IsHex(h)
  {
    if h == "" then 0 else 16 * Scan(h[..|h| - 1]) + Digit(h[|h| - 1])
  }

  lemma {:induction false} PrintIsHex(c: nat, n: nat)
    ensures IsHex(Print(c, n))
  {
    if n > 0 {
      PrintIsHex(c / 16, n - 1);
    }
  }

  lemma {:induction false} ScanPrint(c: nat, n: nat)
    requires c < Pow16(n)
    ensures IsHex(Print(c, n)) && Scan(Print(c, n)) == c
  {
    PrintIsHex(c, n);
    if n > 0 {
      ScanPrint(c / 16, n - 1);
      assert Print(c, n)[..n - 1] == Print(c / 16, n - 1);
      DigitOf(c % 16);
    }
  }

  lemma {:induction false} PrintScan(h: string)
    requires IsHex(h)
    ensures Print(Scan(h), |h|) == h && Scan(h) < Pow16(|h|)
  {
    if h != "" {
      var rest, d := h[..|h| - 1], Digit(h[|h| - 1]);
      PrintScan(rest);
      LastDigit(Scan(rest), d);
      assert h == rest + [HexChar(d)];
    }
  }

  lemma LastDigit(a: nat, d: nat)
    requires d < 16
    ensures (16 * a + d) / 16 == a && (16 * a + d) % 16 == d
  {
  }

  lemma HexIsBits(c: nat, n: nat)
    ensures c < Pow16(n) <==> Fits(c, 4 * n)
  {
    PowOfHex(n);
    FitsIsBound(c, 4 * n);
  }

  lemma {:induction false} PowOfHex(n: nat)
    ensures Pow16(n) == Pow2(4 * n)
  {
    if n > 0 {
      PowOfHex(n - 1);
      assert Pow2(4 * n) == 2 * Pow2(4 * n - 1);
      assert Pow2(4 * n - 1) == 2 * Pow2(4 * n - 2);
      assert Pow2(4 * n - 2) == 2 * Pow2(4 * n - 3);
    }
  }
}
