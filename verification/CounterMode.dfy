/** A stream cipher that runs a block function over successive counter states. */
module CounterMode {
  import opened Basics
  import opened Words

  /** The state after n steps of `next`. */
  function Advance<T>(next: T -> T, s: T, n: nat): T {
    if n == 0 then s else next(Advance(next, s, n - 1))
  }

  /** Byte i of the keystream, for blocks of `size` bytes. */
  function Stream<T>(block: (T, nat) -> Byte, next: T -> T, size: nat, s: T, i: nat): Byte
    requires size > 0
  {
    block(Advance(next, s, i / size), i % size)
  }

  function Crypt<T>(block: (T, nat) -> Byte, next: T -> T, size: nat, s: T, m: Bytes): (c: Bytes)
    requires size > 0
    ensures |c| == |m|
  {
    seq(|m|, i requires 0 <= i < |m| => XorByte(m[i], Stream(block, next, size, s, i)))
  }

  /** How many blocks n bytes take. */
  function Blocks(n: nat, size: nat): nat
    requires size > 0
  {
    (n + size - 1) / size
  }

  // ---- arithmetic

  lemma Monotone(p: nat, a: nat, b: nat)
    requires a <= b
    ensures p * a <= p * b
  {
  }

  lemma Distributes(p: nat, q: nat)
    ensures p * (q + 1) == p * q + p
  {
  }

  lemma DivMod(x: nat, p: nat, q: nat, r: nat)
    requires r < p && x == p * q + r
    ensures x / p == q && x % p == r
  {
    var a, b := x / p, x % p;
    DivisionLaw(x, p);
    Distributes(p, q);
    Distributes(p, a);
    if a > q {
      Monotone(p, q + 1, a);
    } else if a < q {
      Monotone(p, a + 1, q);
    }
  }

  lemma DivisionLaw(x: nat, p: nat)
    requires p > 0
    ensures x == p * (x / p) + x % p && 0 <= x % p < p && 0 <= x / p
  {
  }

  /** Division of n whole blocks and i more bytes. */
  lemma Whole(n: nat, i: nat, size: nat)
    requires size > 0
    ensures (size * n + i) / size == n + i / size && (size * n + i) % size == i % size
  {
    DivisionLaw(i, size);
    DivMod(size * n + i, size, n + i / size, i % size);
  }

  lemma ModNext(x: nat, p: nat)
    requires p > 0
    ensures (x + 1) % p == if x % p == p - 1 then 0 else x % p + 1
  {
    DivisionLaw(x, p);
    if x % p == p - 1 {
      Distributes(p, x / p);
      DivMod(x + 1, p, x / p + 1, 0);
    } else {
      DivMod(x + 1, p, x / p, x % p + 1);
    }
  }

  // ---- the cipher

  lemma {:induction false} AdvanceTwice<T>(next: T -> T, s: T, m: nat, n: nat)
    ensures Advance(next, Advance(next, s, m), n) == Advance(next, s, m + n)
  {
    if n > 0 {
      AdvanceTwice(next, s, m, n - 1);
    }
  }

  /** Encrypting twice from the same state gives the input back. */
  lemma CryptUndoes<T>(block: (T, nat) -> Byte, next: T -> T, size: nat, s: T, m: Bytes)
    requires size > 0
    ensures Crypt(block, next, size, s, Crypt(block, next, size, s, m)) == m
  {
    forall i | 0 <= i < |m| ensures Crypt(block, next, size, s, Crypt(block, next, size, s, m))[i] == m[i] {
      XorByteUndoes(m[i], Stream(block, next, size, s, i));
    }
  }

  lemma StreamShift<T>(block: (T, nat) -> Byte, next: T -> T, size: nat, s: T, n: nat, i: nat)
    requires size > 0
    ensures Stream(block, next, size, s, size * n + i) == Stream(block, next, size, Advance(next, s, n), i)
  {
    AdvanceTwice(next, s, n, i / size);
    Whole(n, i, size);
  }

  /** Two calls, the first on n whole blocks, do what one call does. */
  lemma CryptComposes<T>(block: (T, nat) -> Byte, next: T -> T, size: nat, s: T, n: nat, a: Bytes, b: Bytes)
    requires size > 0 && |a| == size * n
    ensures Crypt(block, next, size, s, a + b) == Crypt(block, next, size, s, a) + Crypt(block, next, size, Advance(next, s, n), b)
    ensures Blocks(|a|, size) == n && Blocks(|a| + |b|, size) == n + Blocks(|b|, size)
  {
    Whole(n, size - 1, size);
    DivMod(size - 1, size, 0, size - 1);
    Whole(n, |b| + size - 1, size);
    var c := Advance(next, s, n);
    forall i | 0 <= i < |b| ensures Crypt(block, next, size, s, a + b)[|a| + i] == Crypt(block, next, size, c, b)[i] {
      StreamShift(block, next, size, s, n, i);
    }
  }
}
