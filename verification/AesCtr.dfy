/** Counter mode with a big-endian counter of bytes (cipher-aesctr.c; section 4 of RFC 4344), for any block cipher. */
module AesCtr {
  import opened Basics
  import opened Wire
  import opened Words
  import CounterMode

  /** Byte i of the encryption of a counter block. */
  type Cipher = (Bytes, nat) -> Byte

  /** The counter plus one, in as many bytes. */
  function Inc(b: Bytes): (r: Bytes)
    ensures |r| == |b|
  {
    if b == [] then []
    else
      var n := |b| - 1;
      if b[n] == 255 then Inc(b[..n]) + [0] else b[..n] + [b[n] + 1]
  }

  predicate AllMax(b: Bytes) { forall i :: 0 <= i < |b| ==> b[i] == 255 }

  lemma {:induction false} IncCounts(b: Bytes)
    ensures PeekInt(b) < Pow256(|b|)
    ensures PeekInt(Inc(b)) == if PeekInt(b) == Pow256(|b|) - 1 then 0 else PeekInt(b) + 1
  {
    if b != [] {
      var n := |b| - 1;
      IncCounts(b[..n]);
      assert Inc(b)[..n] == if b[n] == 255 then Inc(b[..n]) else b[..n];
    }
  }

  lemma IncLast(b: Bytes, y: Byte)
    ensures Inc(b + [y]) == if y == 255 then Inc(b) + [0] else b + [y + 1]
    ensures AllMax(b + [y]) <==> AllMax(b) && y == 255
  {
    var all := b + [y];
    assert all[..|b|] == b && all[|b|] == y;
    if AllMax(all) {
      forall i | 0 <= i < |b| ensures b[i] == 255 {
        assert all[i] == 255;
      }
    }
  }

  lemma Regroup(x: Byte, a: Bytes, b: Bytes)
    ensures [x] + (a + b) == ([x] + a) + b
  {
  }

  /** The first byte changes exactly when all the others overflow. */
  predicate FrontLaw(x: Byte, b: Bytes) {
    Inc([x] + b) == [if !AllMax(b) then x else if x == 255 then 0 else x + 1] + Inc(b)
  }

  lemma {:induction false} IncFront(x: Byte, b: Bytes)
    ensures FrontLaw(x, b)
  {
    if b == [] {
      FrontOnly(x);
    } else {
      var init, y := b[..|b| - 1], b[|b| - 1];
      IncFront(x, init);
      FrontStays(x, init, y);
      assert init + [y] == b;
    }
  }

  lemma FrontOnly(x: Byte)
    ensures FrontLaw(x, [])
  {
    assert [] + [x] == [x] + [] == [x];
    IncLast([], x);
  }

  lemma FrontStays(x: Byte, init: Bytes, y: Byte)
    requires FrontLaw(x, init)
    ensures FrontLaw(x, init + [y])
  {
    Regroup(x, init, [y]);
    IncLast([x] + init, y);
    IncLast(init, y);
    if y == 255 {
      Regroup(if !AllMax(init) then x else if x == 255 then 0 else x + 1, Inc(init), [0]);
    } else {
      Regroup(x, init, [y + 1]);
    }
  }

  // ---- both forms of aesctr_inc

  lemma FrontStep(b: Bytes, i: nat)
    requires i < |b|
    ensures b[i..] == [b[i]] + b[i + 1..] && (AllMax(b[i..]) <==> b[i] == 255 && AllMax(b[i + 1..]))
  {
    var all, rest := b[i..], b[i + 1..];
    assert all == [b[i]] + rest;
    forall k | 0 <= k < |rest| ensures rest[k] == all[k + 1] {
    }
    assert all[0] == b[i];
  }

  /** Bytes from i on are incremented, those before it untouched. */
  predicate Upto(was: Bytes, now: Bytes, i: nat) {
    i <= |was| == |now| && now[i..] == Inc(was[i..]) && now[..i] == was[..i]
  }

  lemma NothingDone(was: Bytes)
    ensures Upto(was, was, |was|) && AllMax(was[|was|..])
  {
    assert was[|was|..] == [];
  }

  /** One byte further, with the carry from the bytes behind it. */
  lemma CarryStep(was: Bytes, now: Bytes, i: nat, y: Byte)
    requires i < |was| && Upto(was, now, i + 1)
    requires y == if AllMax(was[i + 1..]) then (if now[i] == 255 then 0 else now[i] + 1) else now[i]
    ensures Upto(was, now[i := y], i) && now[i] == was[i] && (AllMax(was[i..]) <==> was[i] == 255 && AllMax(was[i + 1..]))
  {
    PrefixStep(was, now, i, y);
    FrontStep(was, i);
    IncFront(was[i], was[i + 1..]);
  }

  lemma PrefixStep(was: Bytes, now: Bytes, i: nat, y: Byte)
    requires i < |was| == |now| && now[..i + 1] == was[..i + 1]
    ensures now[i] == was[i] && now[i := y][..i] == was[..i] && now[i := y][i..] == [y] + now[i + 1..]
  {
    assert now[i] == now[..i + 1][i] && was[i] == was[..i + 1][i];
    assert now[..i + 1][..i] == now[..i] && was[..i + 1][..i] == was[..i];
  }

  lemma AllDone(was: Bytes, now: Bytes)
    requires Upto(was, now, 0)
    ensures now == Inc(was)
  {
    assert now[0..] == now && was[0..] == was;
  }

  lemma NoMore(was: Bytes, now: Bytes, i: nat)
    requires Upto(was, now, i) && i < |was| && !AllMax(was[i..])
    ensures now == Inc(was)
  {
    NoCarry(was, i);
    assert now == now[..i] + now[i..];
  }

  /** The loop that stops at the first byte that does not overflow. */
  method IncEarly(ctr: array<Byte>)
    modifies ctr
    ensures ctr[..] == Inc(old(ctr[..]))
  {
    ghost var was := ctr[..];
    var i := ctr.Length - 1;
    NothingDone(was);
    while i >= 0
      invariant -1 <= i < ctr.Length && AllMax(was[i + 1..]) && Upto(was, ctr[..], i + 1)
    {
      var y: Byte := if ctr[i] == 255 then 0 else ctr[i] + 1;
      ghost var now := ctr[..];
      CarryStep(was, now, i, y);
      ctr[i] := y;
      assert ctr[..] == now[i := y];
      if y != 0 {
        NoMore(was, ctr[..], i);
        return;
      }
      i := i - 1;
    }
    AllDone(was, ctr[..]);
  }

  lemma NotMax(b: Bytes, i: nat)
    requires i <= |b| && !AllMax(b[i..])
    ensures !AllMax(b)
  {
    var rest := b[i..];
    var k :| 0 <= k < |rest| && rest[k] != 255;
    assert b[i + k] != 255;
  }

  /** Once a byte does not overflow, the bytes before it stay. */
  lemma {:induction false} NoCarry(b: Bytes, i: nat)
    requires i < |b| && !AllMax(b[i..])
    ensures Inc(b) == b[..i] + Inc(b[i..])
  {
    if i == 0 {
      assert b[0..] == b && b[..0] == [];
    } else {
      var x, rest := b[0], b[1..];
      assert rest[i - 1..] == b[i..];
      NoCarry(rest, i - 1);
      NotMax(rest, i - 1);
      IncFront(x, rest);
      Regroup(x, rest[..i - 1], Inc(b[i..]));
      assert b == [x] + rest && b[..i] == [x] + rest[..i - 1];
    }
  }

  /** 1 for a byte that is not zero, in constant time. */
  function NonZero(v: bv8): bv8 {
    var x1 := (v | (v >> 4)) & 0xf;
    var x2 := (x1 | (x1 >> 2)) & 0x3;
    (x2 | (x2 >> 1)) & 0x1
  }

  lemma NonZeroIs(v: bv8)
    ensures NonZero(v) == if v == 0 then 0 else 1
  {
  }

  lemma ByteIsZero(b: Byte)
    ensures b as bv8 == 0 <==> b == 0
  {
  }

  /** The constant-time loop, CONSTANT_TIME_INCREMENT. */
  method IncConstant(ctr: array<Byte>)
    modifies ctr
    ensures ctr[..] == Inc(old(ctr[..]))
  {
    ghost var was := ctr[..];
    var i: int, add: int := ctr.Length - 1, 1;
    NothingDone(was);
    while i >= 0
      invariant -1 <= i < ctr.Length && add == (if AllMax(was[i + 1..]) then 1 else 0) && Upto(was, ctr[..], i + 1)
    {
      var sum: int := ctr[i] + add;
      var y: Byte := if sum == 256 then 0 else sum;
      ghost var now := ctr[..];
      CarryStep(was, now, i, y);
      ctr[i] := y;
      assert ctr[..] == now[i := y];
      var x := NonZero(y as bv8);
      NonZeroIs(y as bv8);
      ByteIsZero(y);
      add := if x ^ 1 == 1 then add else 0;
      i := i - 1;
    }
    AllDone(was, ctr[..]);
  }

  // ---- aesctr_encrypt_bytes

  function Advance(ctr: Bytes, n: nat): Bytes { CounterMode.Advance(Inc, ctr, n) }

  function Crypt(cipher: Cipher, ctr: Bytes, m: Bytes): (c: Bytes)
    ensures |c| == |m|
  {
    CounterMode.Crypt(cipher, Inc, 16, ctr, m)
  }

  function Blocks(n: nat): nat { (n + 15) / 16 }

  lemma {:induction false} PowPositive(n: nat)
    ensures Pow256(n) > 0
  {
    if n > 0 {
      PowPositive(n - 1);
    }
  }

  /** n increments add n modulo 256 to the number of bytes. */
  lemma {:induction false} AdvanceCounts(ctr: Bytes, n: nat)
    ensures |Advance(ctr, n)| == |ctr| && Pow256(|ctr|) > 0
    ensures PeekInt(Advance(ctr, n)) == (PeekInt(ctr) + n) % Pow256(|ctr|)
  {
    if n > 0 {
      AdvanceCounts(ctr, n - 1);
      CountStep(Advance(ctr, n - 1), PeekInt(ctr) + n - 1, Pow256(|ctr|));
    } else {
      CountNone(ctr, Pow256(|ctr|));
    }
  }

  lemma CountNone(b: Bytes, p: nat)
    requires p == Pow256(|b|)
    ensures p > 0 && PeekInt(b) == PeekInt(b) % p
  {
    PowPositive(|b|);
    IncCounts(b);
    CounterMode.DivMod(PeekInt(b), p, 0, PeekInt(b));
  }

  lemma CountStep(b: Bytes, x: nat, p: nat)
    requires p == Pow256(|b|) && p > 0 && PeekInt(b) == x % p
    ensures PeekInt(Inc(b)) == (x + 1) % p
  {
    IncCounts(b);
    CounterMode.ModNext(x, p);
  }

  lemma CryptUndoes(cipher: Cipher, ctr: Bytes, m: Bytes)
    ensures Crypt(cipher, ctr, Crypt(cipher, ctr, m)) == m
  {
    CounterMode.CryptUndoes(cipher, Inc, 16, ctr, m);
  }

  /** Two calls, the first on whole blocks, do what one call does. */
  lemma CryptComposes(cipher: Cipher, ctr: Bytes, a: Bytes, b: Bytes)
    requires |a| % 16 == 0
    ensures Crypt(cipher, ctr, a + b) == Crypt(cipher, ctr, a) + Crypt(cipher, Advance(ctr, Blocks(|a|)), b)
    ensures Advance(Advance(ctr, Blocks(|a|)), Blocks(|b|)) == Advance(ctr, Blocks(|a| + |b|))
  {
    CounterMode.CryptComposes(cipher, Inc, 16, ctr, |a| / 16, a, b);
    CounterMode.AdvanceTwice(Inc, ctr, |a| / 16, Blocks(|b|));
  }

  /** The counter moves on with the first byte of each block. */
  lemma BlockStep(start: Bytes, i: nat)
    ensures i % 16 == 0 ==> Advance(start, Blocks(i)) == Advance(start, i / 16)
    ensures i % 16 == 0 ==> Inc(Advance(start, Blocks(i))) == Advance(start, Blocks(i + 1))
    ensures i % 16 != 0 ==> Blocks(i + 1) == Blocks(i)
    ensures (i + 1) % 16 != 0 ==> (i + 1) / 16 == i / 16
  {
  }

  /** Before byte i of the stream from `start`: n bytes of the block are used, the counter is ahead of them. */
  ghost predicate CounterAt(start: Bytes, i: nat, n: nat, counter: Bytes, ctr: Bytes) {
    n == i % 16 && ctr == Advance(start, Blocks(i)) && (n != 0 ==> counter == Advance(start, i / 16))
  }

  /** At the first byte of a block the counter is taken and moved on. */
  method NextCounter(ctr: array<Byte>, counter: Bytes, n: nat, ghost start: Bytes, ghost i: nat) returns (r: Bytes)
    requires CounterAt(start, i, n, counter, ctr[..])
    modifies ctr
    ensures r == Advance(start, i / 16) && n == i % 16 && CounterAt(start, i + 1, (n + 1) % 16, r, ctr[..])
  {
    BlockStep(start, i);
    r := counter;
    if n == 0 {
      r := ctr[..];
      IncEarly(ctr);
    }
  }

  /** Byte i of a message under the keystream from `start`. */
  function MaskAt(cipher: Cipher, start: Bytes, i: nat, b: Byte): Byte {
    XorByte(b, cipher(Advance(start, i / 16), i % 16))
  }

  /** `out` is what `src` becomes, byte by byte. */
  ghost predicate Becomes(cipher: Cipher, start: Bytes, src: Bytes, out: Bytes) {
    |out| == |src| && forall i :: 0 <= i < |src| ==> out[i] == MaskAt(cipher, start, i, src[i])
  }

  method EncryptByte(cipher: Cipher, ctr: array<Byte>, counter: Bytes, n: nat, b: Byte, ghost start: Bytes, ghost i: nat)
    returns (r: Bytes, x: Byte)
    requires CounterAt(start, i, n, counter, ctr[..])
    modifies ctr
    ensures x == MaskAt(cipher, start, i, b) && CounterAt(start, i + 1, (n + 1) % 16, r, ctr[..])
  {
    r := NextCounter(ctr, counter, n, start, i);
    x := XorByte(b, cipher(r, n));
  }

  /** aesctr_encrypt_bytes; source and destination may be the same */
  method EncryptBytes(cipher: Cipher, ctr: array<Byte>, m: array<Byte>, c: array<Byte>, bytes: nat)
    requires bytes <= m.Length && bytes <= c.Length && ctr != c && ctr != m
    modifies ctr, c
    ensures ctr[..] == Advance(old(ctr[..]), Blocks(bytes))
    ensures c[..bytes] == Crypt(cipher, old(ctr[..]), old(m[..bytes])) && c[bytes..] == old(c[bytes..])
  {
    ghost var out := Crypt(cipher, ctr[..], m[..bytes]);
    EncryptEach(cipher, ctr, m, c, bytes, m[..bytes], out);
    assert c[..bytes] == out;
  }

  method EncryptEach(cipher: Cipher, ctr: array<Byte>, m: array<Byte>, c: array<Byte>, bytes: nat, ghost src: Bytes, ghost out: Bytes)
    requires bytes <= m.Length && bytes <= c.Length && ctr != c && ctr != m
    requires src == m[..bytes] && Becomes(cipher, ctr[..], src, out)
    modifies ctr, c
    ensures ctr[..] == Advance(old(ctr[..]), Blocks(bytes))
    ensures forall k :: 0 <= k < bytes ==> c[k] == out[k]
    ensures forall k :: bytes <= k < c.Length ==> c[k] == old(c[k])
  {
    ghost var start := ctr[..];
    var n: nat := 0;
    var counter: Bytes := [];
    for i := 0 to bytes
      invariant CounterAt(start, i, n, counter, ctr[..])
      invariant forall k :: 0 <= k < i ==> c[k] == out[k]
      invariant forall k :: i <= k < bytes ==> m[k] == src[k]
      invariant forall k :: bytes <= k < c.Length ==> c[k] == old(c[k])
    {
      var x;
      counter, x := EncryptByte(cipher, ctr, counter, n, m[i], start, i);
      c[i] := x;
      n := (n + 1) % 16;
    }
  }
}
