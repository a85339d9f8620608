/** C's bitwise operators on unsigned words, by binary digits. */
module Words {
  import opened Basics

  function Pow2(n: nat): (p: nat)
    ensures p >= 1
  {
    if n == 0 then 1 else 2 * Pow2(n - 1)
  }

  predicate Bit(a: nat, k: nat) {
    if k == 0 then a % 2 == 1 else Bit(a / 2, k - 1)
  }

  /** The number with last digit d after the digits of x. */
  function Append(x: nat, d: bool): (r: nat)
    ensures r / 2 == x && (r % 2 == 1 <==> d)
  {
    2 * x + if d then 1 else 0
  }

  function Or(a: nat, b: nat): nat {
    if a == 0 && b == 0 then 0 else Append(Or(a / 2, b / 2), a % 2 == 1 || b % 2 == 1)
  }

  function And(a: nat, b: nat): nat {
    if a == 0 || b == 0 then 0 else Append(And(a / 2, b / 2), a % 2 == 1 && b % 2 == 1)
  }

  function Xor(a: nat, b: nat): nat {
    if a == 0 && b == 0 then 0 else Append(Xor(a / 2, b / 2), a % 2 != b % 2)
  }

  /** ~a in a word of n bits. */
  function Not(a: nat, n: nat): nat
    requires a < Pow2(n)
  {
    Pow2(n) - 1 - a
  }

  function Double(a: U32): U32 {
    if a < 0x8000_0000 then 2 * a else 2 * a - TWO_TO_32
  }

  function Shl(a: U32, s: nat): U32
    decreases s
  {
    if s == 0 then a else Shl(Double(a), s - 1)
  }

  function Shr(a: nat, s: nat): nat {
    if s == 0 then a else Shr(a / 2, s - 1)
  }

  lemma WordSize()
    ensures Pow2(32) == TWO_TO_32 && Pow2(31) == 0x8000_0000 && Pow2(24) == 0x100_0000 && Pow2(8) == 256
  {
    assert Pow2(4) == 16;
    assert Pow2(8) == 256;
    assert Pow2(12) == 4096;
    assert Pow2(16) == 0x1_0000;
    assert Pow2(20) == 0x10_0000;
    assert Pow2(24) == 0x100_0000;
    assert Pow2(28) == 0x1000_0000;
  }

  // ---- the digits of each operator

  lemma {:induction false} OrBit(a: nat, b: nat, k: nat)
    ensures Bit(Or(a, b), k) <==> Bit(a, k) || Bit(b, k)
    decreases k
  {
    if a == 0 && b == 0 {
      ZeroBit(k);
    } else if k > 0 {
      OrBit(a / 2, b / 2, k - 1);
    }
  }

  lemma {:induction false} AndBit(a: nat, b: nat, k: nat)
    ensures Bit(And(a, b), k) <==> Bit(a, k) && Bit(b, k)
    decreases k
  {
    if a == 0 || b == 0 {
      ZeroBit(k);
    } else if k > 0 {
      AndBit(a / 2, b / 2, k - 1);
    }
  }

  lemma {:induction false} ZeroBit(k: nat)
    ensures !Bit(0, k)
  {
    if k > 0 {
      ZeroBit(k - 1);
    }
  }

  lemma {:induction false} AndSelf(a: nat)
    ensures And(a, a) == a
  {
    if a > 0 {
      AndSelf(a / 2);
    }
  }

  lemma {:induction false} OrSelf(a: nat)
    ensures Or(a, a) == a
  {
    if a > 0 {
      OrSelf(a / 2);
    }
  }

  /** A conjunction is its first operand exactly if that has no bit the second lacks. */
  lemma {:induction false} AndIsFirst(a: nat, b: nat)
    ensures And(a, b) == a <==> forall k: nat :: Bit(a, k) ==> Bit(b, k)
  {
    if And(a, b) == a {
      forall k: nat | Bit(a, k) ensures Bit(b, k) {
        AndBit(a, b, k);
      }
    } else {
      var k := LostByAnd(a, b);
    }
  }

  lemma {:induction false} LostByAnd(a: nat, b: nat) returns (k: nat)
    requires And(a, b) != a
    ensures Bit(a, k) && !Bit(b, k)
  {
    if a % 2 == 1 && b % 2 == 0 {
      k := 0;
    } else if b == 0 {
      k := LostByAnd(a / 2, 0);
      k := k + 1;
    } else {
      k := LostByAnd(a / 2, b / 2);
      k := k + 1;
    }
  }

  /** A disjunction is its first operand exactly if the second has no bit that lacks. */
  lemma {:induction false} OrIsFirst(a: nat, b: nat)
    ensures Or(a, b) == a <==> forall k: nat :: Bit(b, k) ==> Bit(a, k)
  {
    if Or(a, b) == a {
      forall k: nat | Bit(b, k) ensures Bit(a, k) {
        OrBit(a, b, k);
      }
    } else {
      var k := GainedByOr(a, b);
    }
  }

  lemma {:induction false} GainedByOr(a: nat, b: nat) returns (k: nat)
    requires Or(a, b) != a
    ensures Bit(b, k) && !Bit(a, k)
    decreases a + b
  {
    if a % 2 == 0 && b % 2 == 1 {
      k := 0;
    } else {
      k := GainedByOr(a / 2, b / 2);
      k := k + 1;
    }
  }

  lemma {:induction false} NotBit(a: nat, n: nat, k: nat)
    requires a < Pow2(n) && k < n
    ensures Bit(Not(a, n), k) <==> !Bit(a, k)
  {
    if k > 0 {
      assert Not(a, n) / 2 == Not(a / 2, n - 1);
      NotBit(a / 2, n - 1, k - 1);
    }
  }

  /** Dropping the top bit leaves the others. */
  lemma {:induction false} DropTop(a: nat, n: nat, k: nat)
    requires Pow2(n) <= a && k < n
    ensures Bit(a - Pow2(n), k) <==> Bit(a, k)
  {
    if k > 0 {
      assert (a - Pow2(n)) / 2 == a / 2 - Pow2(n - 1);
      DropTop(a / 2, n - 1, k - 1);
    }
  }

  lemma DoubleBit(a: U32, k: nat)
    requires k < 32
    ensures Bit(Double(a), k) <==> k > 0 && Bit(a, k - 1)
  {
    WordSize();
    if a >= 0x8000_0000 && k > 0 {
      assert Double(a) / 2 == a - Pow2(31);
      DropTop(a, 31, k - 1);
    }
  }

  lemma {:induction false} ShlBit(a: U32, s: nat, k: nat)
    requires k < 32
    ensures Bit(Shl(a, s), k) <==> k >= s && Bit(a, k - s)
    decreases s
  {
    if s > 0 {
      ShlBit(Double(a), s - 1, k);
      if k >= s - 1 {
        DoubleBit(a, k - (s - 1));
      }
    }
  }

  lemma {:induction false} ShrBit(a: nat, s: nat, k: nat)
    ensures Bit(Shr(a, s), k) <==> Bit(a, k + s)
  {
    if s > 0 {
      ShrBit(a / 2, s - 1, k);
    }
  }

  // ---- sizes and extensionality

  lemma {:induction false} OrSize(a: nat, b: nat, n: nat)
    requires a < Pow2(n) && b < Pow2(n)
    ensures Or(a, b) < Pow2(n)
  {
    if n > 0 {
      OrSize(a / 2, b / 2, n - 1);
    }
  }

  lemma {:induction false} XorSize(a: nat, b: nat, n: nat)
    requires a < Pow2(n) && b < Pow2(n)
    ensures Xor(a, b) < Pow2(n)
  {
    if n > 0 {
      XorSize(a / 2, b / 2, n - 1);
    }
  }

  lemma {:induction false} XorUndo(a: nat, b: nat)
    ensures Xor(Xor(a, b), b) == a
  {
    if a != 0 || b != 0 {
      XorUndo(a / 2, b / 2);
      XorStep(a, b);
      XorStep(Xor(a, b), b);
    }
  }

  lemma XorStep(a: nat, b: nat)
    ensures Xor(a, b) == Append(Xor(a / 2, b / 2), a % 2 != b % 2)
  {
  }

  lemma {:induction false} AndSize(a: nat, b: nat)
    ensures And(a, b) <= a && And(a, b) <= b
  {
    if a != 0 && b != 0 {
      AndSize(a / 2, b / 2);
    }
  }

  lemma {:induction false} HighBits(a: nat, n: nat, k: nat)
    requires a < Pow2(n) && k >= n
    ensures !Bit(a, k)
  {
    if n == 0 {
      ZeroBit(k);
    } else {
      HighBits(a / 2, n - 1, k - 1);
    }
  }

  /** A word is its bits. */
  lemma {:induction false} SameBits(a: nat, b: nat, n: nat)
    requires a < Pow2(n) && b < Pow2(n) && forall k: nat :: k < n ==> (Bit(a, k) <==> Bit(b, k))
    ensures a == b
  {
    if n > 0 {
      forall k: nat | k < n - 1 ensures Bit(a / 2, k) <==> Bit(b / 2, k) {
        assert Bit(a, k + 1) <==> Bit(b, k + 1);
      }
      assert Bit(a, 0) <==> Bit(b, 0);
      SameBits(a / 2, b / 2, n - 1);
    }
  }

  lemma {:induction false} PowBit(s: nat, k: nat)
    ensures Bit(Pow2(s), k) <==> k == s
  {
    if s > 0 && k > 0 {
      PowBit(s - 1, k - 1);
    } else if k > 0 {
      ZeroBit(k - 1);
    }
  }

  lemma {:induction false} ShlOne(s: nat)
    requires s < 32
    ensures Shl(1, s) == Pow2(s)
  {
    WordSize();
    PowMonotone(s, 31);
    forall k: nat | k < 32 ensures Bit(Shl(1, s), k) <==> Bit(Pow2(s), k) {
      ShlBit(1, s, k);
      PowBit(s, k);
      if k >= s {
        PowBit(0, k - s);
      }
    }
    SameBits(Shl(1, s), Pow2(s), 32);
  }

  lemma {:induction false} PowMonotone(m: nat, n: nat)
    requires m <= n
    ensures Pow2(m) <= Pow2(n)
  {
    if m < n {
      PowMonotone(m, n - 1);
    }
  }

  // ---- concatenation

  /** The digits of a, then the n lowest digits of b. */
  function Join(a: nat, b: nat, n: nat): nat {
    if n == 0 then a else 2 * Join(a, b / 2, n - 1) + b % 2
  }

  lemma {:induction false} JoinIs(a: nat, b: nat, n: nat)
    requires b < Pow2(n)
    ensures Join(a, b, n) == a * Pow2(n) + b
  {
    if n > 0 {
      JoinIs(a, b / 2, n - 1);
      Doubles(a, Pow2(n - 1));
    }
  }

  lemma Doubles(a: nat, p: nat)
    ensures a * (2 * p) == 2 * (a * p)
  {
  }

  lemma {:induction false} JoinBit(a: nat, b: nat, n: nat, k: nat)
    ensures Bit(Join(a, b, n), k) <==> if k < n then Bit(b, k) else Bit(a, k - n)
  {
    if n > 0 && k > 0 {
      JoinBit(a, b / 2, n - 1, k - 1);
    }
  }

  lemma {:induction false} JoinSize(a: nat, b: nat, n: nat, m: nat)
    requires a < Pow2(m)
    ensures Join(a, b, n) < Pow2(m + n)
  {
    if n > 0 {
      JoinSize(a, b / 2, n - 1, m);
    }
  }

  // ---- exclusive or, byte by byte

  lemma {:induction false} XorBit(a: nat, b: nat, k: nat)
    ensures Bit(Xor(a, b), k) <==> Bit(a, k) != Bit(b, k)
    decreases k
  {
    XorStep(a, b);
    if k > 0 {
      XorBit(a / 2, b / 2, k - 1);
    }
  }

  lemma {:induction false} XorCommutes(a: nat, b: nat)
    ensures Xor(a, b) == Xor(b, a)
  {
    if a != 0 || b != 0 {
      XorCommutes(a / 2, b / 2);
    }
  }

  function XorByte(a: Byte, b: Byte): Byte {
    WordSize();
    XorSize(a, b, 8);
    Xor(a, b)
  }

  lemma XorByteUndoes(a: Byte, b: Byte)
    ensures XorByte(XorByte(a, b), b) == a
  {
    XorUndo(a, b);
  }

  lemma OctetBit(x: nat, k: nat)
    ensures Bit(x, k) <==> if k < 8 then Bit(x % 256, k) else Bit(x / 256, k - 8)
  {
    WordSize();
    JoinIs(x / 256, x % 256, 8);
    JoinBit(x / 256, x % 256, 8, k);
  }

  lemma XorSplitBit(a: nat, b: nat, k: nat)
    ensures Bit(Xor(a, b), k) <==> if k < 8 then Bit(Xor(a % 256, b % 256), k) else Bit(Xor(a / 256, b / 256), k - 8)
  {
    XorBit(a, b, k);
    OctetBit(a, k);
    OctetBit(b, k);
    if k < 8 {
      XorBit(a % 256, b % 256, k);
    } else {
      XorBit(a / 256, b / 256, k - 8);
    }
  }

  lemma XorIsJoin(a: U32, b: U32, high: nat, low: nat)
    requires high == Xor(a / 256, b / 256) && low == Xor(a % 256, b % 256)
    ensures Xor(a, b) == high * 256 + low && low < 256
  {
    WordSize();
    XorSize(a % 256, b % 256, 8);
    XorSize(a / 256, b / 256, 24);
    JoinSize(high, low, 8, 24);
    XorSize(a, b, 32);
    forall k: nat | k < 32 ensures Bit(Xor(a, b), k) <==> Bit(Join(high, low, 8), k) {
      XorSplitBit(a, b, k);
      JoinBit(high, low, 8, k);
    }
    SameBits(Xor(a, b), Join(high, low, 8), 32);
    JoinIs(high, low, 8);
  }

  lemma SplitByte(x: nat, high: nat, low: nat)
    requires x == high * 256 + low && low < 256
    ensures x / 256 == high && x % 256 == low
  {
  }

  /** The last byte and the others of an exclusive or. */
  lemma XorOctets(a: U32, b: U32)
    ensures Xor(a, b) % 256 == XorByte(a % 256, b % 256) && Xor(a, b) / 256 == Xor(a / 256, b / 256)
  {
    var high, low := Xor(a / 256, b / 256), Xor(a % 256, b % 256);
    XorIsJoin(a, b, high, low);
    SplitByte(Xor(a, b), high, low);
  }

  /** Byte k of a word, little-endian. */
  function Octet(w: nat, k: nat): Byte {
    if k == 0 then w % 256 else Octet(w / 256, k - 1)
  }

  lemma {:induction false} XorOctet(a: U32, b: U32, k: nat)
    ensures Octet(Xor(a, b), k) == XorByte(Octet(a, k), Octet(b, k))
    decreases k
  {
    XorOctets(a, b);
    if k > 0 {
      XorOctet(a / 256, b / 256, k - 1);
    }
  }
}
